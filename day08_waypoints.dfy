/**
 * Day 8, part two (08/part2.py): the waypoint table.
 *
 * One waypoint per pair (instruction index, node). A waypoint's child is the waypoint of the
 * next instruction index at the node its instruction leads to; the fixpoint then gives every
 * waypoint the number of steps to the first node whose third letter is 'Z', and that node's
 * waypoint. Object references between waypoints are modelled by table positions.
 */
module Day08Waypoints {
  import opened Wrappers
  import opened Day08Tree
  import Chains

  /** A waypoint's place in the table: row = instruction index, col = node index. */
  datatype Pos = Pos(row: nat, col: nat)

  /** `Waypoint`: no child and no destination yet, distance -1 until set. */
  datatype Waypoint = Waypoint(node: Node, child: Option<Pos>, distance: int, next: Option<Pos>)

  type Table = seq<seq<Waypoint>>

  /** A name that ends a walk: its third letter is 'Z'. */
  predicate IsZ(name: string)
  {
    |name| >= 3 && name[2] == 'Z'
  }

  /** The goal of a walk: a waypoint whose node is a Z node. */
  predicate Goal(nodes: seq<Node>, p: Pos)
  {
    p.col < |nodes| && IsZ(nodes[p.col].name)
  }

  /**
   * The waypoint after `p`: the next instruction index, wrapping at the end, and the first node
   * named like the node `p`'s instruction leads to (positions off the table lead to themselves).
   */
  function Target(instructions: string, nodes: seq<Node>, p: Pos): Pos
  {
    if p.row < |instructions| && p.col < |nodes| then
      var c := Step(nodes, nodes[p.col], [instructions[p.row]]);
      Pos(NextRow(p.row, |instructions|), if c.Ok? then NameIndex(nodes, c.value.name) else 0)
    else p
  }

  /** `(i + 1) % len` for an index `i` below `len`: the next row, back to 0 after the last. */
  function NextRow(i: nat, len: nat): (k: nat)
    requires i < len
    ensures k < len && k == (i + 1) % len
  {
    if i + 1 < len then i + 1 else 0
  }

  /** Where each waypoint's child link points, row by row. */
  type Links = seq<seq<Pos>>

  /** Every link points into a table of `rows` rows of `cols` waypoints. */
  ghost predicate LinksIn(links: Links, rows: nat, cols: nat)
  {
    |links| == rows
    && (forall i :: 0 <= i < rows ==> |links[i]| == cols)
    && forall i, j :: 0 <= i < rows && 0 <= j < cols ==> links[i][j].row < rows && links[i][j].col < cols
  }

  /** The waypoint a link leads to from `p` (positions off the table lead to themselves). */
  function Succ(links: Links, p: Pos): Pos
  {
    if p.row < |links| && p.col < |links[p.row]| then links[p.row][p.col] else p
  }

  function SuccOf(links: Links): Pos -> Pos
  {
    p => Succ(links, p)
  }

  function GoalOf(nodes: seq<Node>): Pos -> bool
  {
    p => Goal(nodes, p)
  }

  /** Following the links, the first Z waypoint on the way from `p` is `d` steps away. */
  predicate HitsAt(links: Links, nodes: seq<Node>, p: Pos, d: nat)
    decreases d
  {
    if d == 0 then Goal(nodes, p) else !Goal(nodes, p) && HitsAt(links, nodes, Succ(links, p), d - 1)
  }

  /** The waypoint `d` links on from `p`. */
  function Follow(links: Links, p: Pos, d: nat): Pos
    decreases d
  {
    if d == 0 then p else Follow(links, Succ(links, p), d - 1)
  }

  /** Both are the chain notions of the links' successor and the Z goal. */
  lemma {:induction false} ChainsAgree(links: Links, nodes: seq<Node>, p: Pos, d: nat)
    ensures HitsAt(links, nodes, p, d) == Chains.HitsAt(SuccOf(links), GoalOf(nodes), p, d)
    ensures Follow(links, p, d) == Chains.Follow(SuccOf(links), p, d)
    decreases d
  {
    assert SuccOf(links)(p) == Succ(links, p) && GoalOf(nodes)(p) == Goal(nodes, p);
    if d > 0 {
      ChainsAgree(links, nodes, Succ(links, p), d - 1);
    }
  }

  /** The links the waypoint table is given: each waypoint's target. */
  ghost function Targets(instructions: string, nodes: seq<Node>): (links: Links)
    ensures |links| == |instructions|
    ensures forall i :: 0 <= i < |instructions| ==> |links[i]| == |nodes|
    ensures forall i, j :: 0 <= i < |instructions| && 0 <= j < |nodes| ==> links[i][j] == Target(instructions, nodes, Pos(i, j))
  {
    seq(|instructions|, i requires 0 <= i < |instructions| =>
      seq(|nodes|, j requires 0 <= j < |nodes| => Target(instructions, nodes, Pos(i, j))))
  }

  /** Every node name has a third letter. */
  predicate NamesOk(nodes: seq<Node>)
  {
    forall j :: 0 <= j < |nodes| ==> |nodes[j].name| >= 3
  }

  // ---------------------------------------------------------------- the table

  /** One row per instruction, one waypoint per node in each row, in the order of the nodes. */
  ghost predicate Shaped(t: Table, instructions: string, nodes: seq<Node>)
  {
    |t| == |instructions|
    && (forall i :: 0 <= i < |t| ==> |t[i]| == |nodes|)
    && forall i, j :: 0 <= i < |t| && 0 <= j < |nodes| ==> t[i][j].node == nodes[j]
  }

  /** Every waypoint's child is the one its link names, inside the table. */
  ghost predicate Linked(t: Table, links: Links, instructions: string, nodes: seq<Node>)
    requires Shaped(t, instructions, nodes)
  {
    LinksIn(links, |instructions|, |nodes|)
    && forall i, j {:trigger t[i][j]} :: 0 <= i < |t| && 0 <= j < |nodes| ==> t[i][j].child == Some(links[i][j])
  }

  /** No distance and no destination has been set. */
  ghost predicate Unset(t: Table)
  {
    forall i, j :: 0 <= i < |t| && 0 <= j < |t[i]| ==> t[i][j].distance == -1 && t[i][j].next == None
  }

  /** Every distance set is the number of steps to the first Z waypoint, and the destination set is that waypoint. */
  ghost predicate Sound(t: Table, links: Links, instructions: string, nodes: seq<Node>)
    requires Shaped(t, instructions, nodes)
  {
    forall i, j {:trigger t[i][j]} :: 0 <= i < |t| && 0 <= j < |nodes| && t[i][j].distance != -1 ==>
      t[i][j].distance >= 0 && HitsAt(links, nodes, Pos(i, j), t[i][j].distance)
      && t[i][j].next == Some(Follow(links, Pos(i, j), t[i][j].distance))
  }

  /** Every waypoint whose first Z waypoint is fewer than `r` steps away has its distance set. */
  ghost predicate Settled(t: Table, links: Links, instructions: string, nodes: seq<Node>, r: nat)
    requires Shaped(t, instructions, nodes)
  {
    forall i, j, d: nat :: 0 <= i < |t| && 0 <= j < |nodes| && d < r && HitsAt(links, nodes, Pos(i, j), d) ==>
      t[i][j].distance != -1
  }

  /** In the current round, every waypoint before (i, j) whose first Z waypoint is at most `r` steps away is set. */
  ghost predicate Swept(t: Table, links: Links, instructions: string, nodes: seq<Node>, r: nat, i: nat, j: nat)
    requires Shaped(t, instructions, nodes)
  {
    forall i', j', d: nat ::
      0 <= i' < |t| && 0 <= j' < |nodes| && (i' < i || (i' == i && j' < j)) && d <= r && HitsAt(links, nodes, Pos(i', j'), d) ==>
        t[i'][j'].distance != -1
  }

  /** Every waypoint from (i, j) on is still unset. */
  ghost predicate UnsetFrom(t: Table, i: nat, j: nat)
  {
    forall i', j' :: 0 <= i' < |t| && 0 <= j' < |t[i']| && (i' > i || (i' == i && j' >= j)) ==> t[i'][j'].distance == -1
  }

  /** Every waypoint set in `t` is set, with the same distance and destination, in `u`, which has the same shape and links. */
  ghost predicate Grows(t: Table, u: Table, instructions: string, nodes: seq<Node>)
  {
    Shaped(t, instructions, nodes) && Shaped(u, instructions, nodes)
    && forall i, j :: 0 <= i < |t| && 0 <= j < |nodes| ==>
      u[i][j].child == t[i][j].child && (t[i][j].distance != -1 ==> u[i][j] == t[i][j])
  }

  function Put(t: Table, i: nat, j: nat, w: Waypoint): (u: Table)
    requires i < |t| && j < |t[i]|
    ensures |u| == |t| && |u[i]| == |t[i]| && u[i][j] == w
    ensures forall i', j' :: 0 <= i' < |t| && 0 <= j' < |t[i']| && (i' != i || j' != j) ==> |u[i']| == |t[i']| && u[i'][j'] == t[i'][j']
  {
    t[i := t[i][j := w]]
  }

  // ---------------------------------------------------------------- counting the set waypoints

  function RowSet(row: seq<Waypoint>): (c: nat)
    ensures c <= |row|
  {
    if row == [] then 0 else RowSet(row[..|row| - 1]) + (if row[|row| - 1].distance != -1 then 1 else 0)
  }

  /** The number of waypoints whose distance is set. */
  function CountSet(t: Table): nat
  {
    if t == [] then 0 else CountSet(t[..|t| - 1]) + RowSet(t[|t| - 1])
  }

  /** Setting one unset waypoint of a row adds one to the row's count. */
  lemma {:induction false} RowSetPut(row: seq<Waypoint>, j: nat, w: Waypoint)
    requires j < |row| && row[j].distance == -1 && w.distance != -1
    ensures RowSet(row[j := w]) == RowSet(row) + 1
    decreases |row|
  {
    var last := |row| - 1;
    if j < last {
      assert row[j := w][..last] == row[..last][j := w];
      RowSetPut(row[..last], j, w);
    } else {
      assert row[j := w][..last] == row[..last];
    }
  }

  /** Setting one unset waypoint of the table adds one to the count. */
  lemma {:induction false} CountSetPut(t: Table, i: nat, j: nat, w: Waypoint)
    requires i < |t| && j < |t[i]| && t[i][j].distance == -1 && w.distance != -1
    ensures CountSet(Put(t, i, j, w)) == CountSet(t) + 1
    decreases |t|
  {
    var last := |t| - 1;
    if i < last {
      assert Put(t, i, j, w)[..last] == Put(t[..last], i, j, w);
      CountSetPut(t[..last], i, j, w);
    } else {
      assert Put(t, i, j, w)[..last] == t[..last];
      RowSetPut(t[i], j, w);
    }
  }

  /** A row's count reaches its length only when every waypoint in it is set. */
  lemma {:induction false} RowSetFull(row: seq<Waypoint>)
    ensures RowSet(row) == |row| <==> forall j :: 0 <= j < |row| ==> row[j].distance != -1
    decreases |row|
  {
    if row != [] {
      var last := |row| - 1;
      RowSetFull(row[..last]);
      assert forall j :: 0 <= j < last ==> row[..last][j] == row[j];
    }
  }

  /** With `n` waypoints per row, the count is at most the table's size and reaches it exactly when all are set. */
  lemma {:induction false} CountSetFull(t: Table, n: nat)
    requires forall i :: 0 <= i < |t| ==> |t[i]| == n
    ensures CountSet(t) <= |t| * n
    ensures CountSet(t) == |t| * n <==> forall i, j :: 0 <= i < |t| && 0 <= j < n ==> t[i][j].distance != -1
    decreases |t|
  {
    if t != [] {
      var last := |t| - 1;
      CountSetFull(t[..last], n);
      RowSetFull(t[last]);
      assert forall i :: 0 <= i < last ==> t[..last][i] == t[i];
      MulStep(last, n);
    }
  }

  /** One more row of `n` waypoints. */
  lemma MulStep(a: nat, n: nat)
    ensures (a + 1) * n == a * n + n
  {
  }

  /** A table without set waypoints counts none. */
  lemma {:induction false} CountSetUnset(t: Table)
    requires Unset(t)
    ensures CountSet(t) == 0
    decreases |t|
  {
    if t != [] {
      var last := |t| - 1;
      assert Unset(t[..last]);
      RowSetNone(t[last]);
      CountSetUnset(t[..last]);
    }
  }

  lemma {:induction false} RowSetNone(row: seq<Waypoint>)
    requires forall j :: 0 <= j < |row| ==> row[j].distance == -1
    ensures RowSet(row) == 0
    decreases |row|
  {
    if row != [] {
      RowSetNone(row[..|row| - 1]);
    }
  }

  // ---------------------------------------------------------------- one waypoint of the fixpoint

  /** No distance is below -1, the mark of an unset one. */
  ghost predicate NoNegative(t: Table)
  {
    forall i, j :: 0 <= i < |t| && 0 <= j < |t[i]| ==> t[i][j].distance >= -1
  }

  lemma SoundNoNegative(t: Table, links: Links, instructions: string, nodes: seq<Node>)
    requires Shaped(t, instructions, nodes) && Sound(t, links, instructions, nodes)
    ensures NoNegative(t)
  {
  }

  /** Every waypoint has a child, and the child is in the table. */
  ghost predicate ChildrenIn(t: Table, instructions: string, nodes: seq<Node>)
    requires Shaped(t, instructions, nodes)
  {
    forall i, j :: 0 <= i < |t| && 0 <= j < |nodes| ==>
      t[i][j].child.Some? && t[i][j].child.value.row < |t| && t[i][j].child.value.col < |nodes|
  }

  /**
   * One pass of the fixpoint's inner loop body on waypoint (i, j): an unset waypoint of a Z node
   * gets distance 0 and itself as destination; one whose child is set gets the child's distance
   * plus one and the child's destination; reading the third letter of a shorter name raises IndexError.
   */
  function Visited(t: Table, instructions: string, nodes: seq<Node>, i: nat, j: nat): (r: Result<Table>)
    requires Shaped(t, instructions, nodes) && ChildrenIn(t, instructions, nodes) && i < |instructions| && j < |nodes|
    ensures r.Err? <==> t[i][j].distance == -1 && |nodes[j].name| < 3
    ensures r.Err? ==> r.error == "IndexError"
  {
    var wp := t[i][j];
    var c := wp.child.value;
    if wp.distance != -1 then Ok(t)
    else if |wp.node.name| < 3 then Err("IndexError")
    else if wp.node.name[2] == 'Z' then Ok(Put(t, i, j, wp.(distance := 0, next := Some(Pos(i, j)))))
    else if t[c.row][c.col].distance != -1 then
      Ok(Put(t, i, j, wp.(distance := t[c.row][c.col].distance + 1, next := t[c.row][c.col].next)))
    else Ok(t)
  }

  /** A successful visit changes at most waypoint (i, j), and only by setting its distance and destination. */
  lemma VisitedFrame(t: Table, instructions: string, nodes: seq<Node>, i: nat, j: nat)
    requires Shaped(t, instructions, nodes) && ChildrenIn(t, instructions, nodes) && i < |instructions| && j < |nodes|
    requires Visited(t, instructions, nodes, i, j).Ok?
    ensures Grows(t, Visited(t, instructions, nodes, i, j).value, instructions, nodes)
    ensures forall i', j' :: 0 <= i' < |t| && 0 <= j' < |nodes| && (i' != i || j' != j) ==>
      Visited(t, instructions, nodes, i, j).value[i'][j'] == t[i'][j']
  {
  }

  /** The distance and destination a visit sets are right: the first Z waypoint along the links, and how far it is. */
  lemma VisitSetsSound(t: Table, links: Links, instructions: string, nodes: seq<Node>, i: nat, j: nat)
    requires Shaped(t, instructions, nodes) && Linked(t, links, instructions, nodes) && i < |instructions| && j < |nodes|
    requires Sound(t, links, instructions, nodes)
    requires Visited(t, instructions, nodes, i, j).Ok?
    requires t[i][j].distance == -1 && Visited(t, instructions, nodes, i, j).value[i][j].distance != -1
    ensures var w := Visited(t, instructions, nodes, i, j).value[i][j];
      w.distance >= 0 && HitsAt(links, nodes, Pos(i, j), w.distance) && w.next == Some(Follow(links, Pos(i, j), w.distance))
  {
    var u: Table := Visited(t, instructions, nodes, i, j).value;
    var p := Pos(i, j);
    if IsZ(nodes[j].name) {
      assert HitsAt(links, nodes, p, 0);
    } else {
      var c := links[i][j];
      assert t[i][j].child == Some(c) && c.row < |t| && c.col < |nodes|;
      var d := t[c.row][c.col].distance;
      assert u[i][j] == t[i][j].(distance := d + 1, next := t[c.row][c.col].next);
      ChildSound(links, nodes, p, c, d);
    }
  }

  /** A waypoint off the goal whose child's first Z waypoint is `d` away has its own `d + 1` away, the same one. */
  lemma ChildSound(links: Links, nodes: seq<Node>, p: Pos, c: Pos, d: nat)
    requires Succ(links, p) == c && !Goal(nodes, p) && HitsAt(links, nodes, c, d)
    ensures HitsAt(links, nodes, p, d + 1) && Follow(links, p, d + 1) == Follow(links, c, d)
  {
  }

  /** A visit keeps every distance it sets right: the first Z waypoint along the links, and how far it is. */
  lemma VisitSound(t: Table, links: Links, instructions: string, nodes: seq<Node>, i: nat, j: nat)
    requires Shaped(t, instructions, nodes) && Linked(t, links, instructions, nodes) && i < |instructions| && j < |nodes|
    requires Sound(t, links, instructions, nodes)
    requires Visited(t, instructions, nodes, i, j).Ok?
    ensures Sound(Visited(t, instructions, nodes, i, j).value, links, instructions, nodes)
  {
    VisitedFrame(t, instructions, nodes, i, j);
    var u: Table := Visited(t, instructions, nodes, i, j).value;
    if t[i][j].distance == -1 && u[i][j].distance != -1 {
      VisitSetsSound(t, links, instructions, nodes, i, j);
    }
    forall i', j' | 0 <= i' < |u| && 0 <= j' < |nodes| && u[i'][j'].distance != -1
      ensures u[i'][j'].distance >= 0 && HitsAt(links, nodes, Pos(i', j'), u[i'][j'].distance)
      ensures u[i'][j'].next == Some(Follow(links, Pos(i', j'), u[i'][j'].distance))
    {
      if i' != i || j' != j || t[i][j].distance != -1 {
        assert u[i'][j'] == t[i'][j'];
      }
    }
  }

  /** A visit in round `r` sets waypoint (i, j) when its first Z waypoint is at most `r` links away. */
  lemma VisitProgress(t: Table, links: Links, instructions: string, nodes: seq<Node>, i: nat, j: nat, r: nat, d: nat)
    requires Shaped(t, instructions, nodes) && Linked(t, links, instructions, nodes) && i < |instructions| && j < |nodes|
    requires Settled(t, links, instructions, nodes, r) && NoNegative(t)
    requires Visited(t, instructions, nodes, i, j).Ok?
    requires d <= r && HitsAt(links, nodes, Pos(i, j), d)
    ensures Visited(t, instructions, nodes, i, j).value[i][j].distance != -1
  {
    var p := Pos(i, j);
    if t[i][j].distance == -1 {
      if d == 0 {
        assert Goal(nodes, p);
      } else {
        var c := links[i][j];
        assert Succ(links, p) == c;
        assert HitsAt(links, nodes, Pos(c.row, c.col), d - 1);
      }
    }
  }

  /** What a successful visit keeps of the fixpoint's loop invariants, and what it adds. */
  lemma VisitKeeps(t: Table, u: Table, links: Links, instructions: string, nodes: seq<Node>, i: nat, j: nat, r: nat)
    requires Shaped(t, instructions, nodes) && Linked(t, links, instructions, nodes) && i < |instructions| && j < |nodes|
    requires Sound(t, links, instructions, nodes) && Settled(t, links, instructions, nodes, r)
    requires Swept(t, links, instructions, nodes, r, i, j)
    requires Visited(t, instructions, nodes, i, j) == Ok(u)
    ensures Shaped(u, instructions, nodes) && Linked(u, links, instructions, nodes)
    ensures Sound(u, links, instructions, nodes) && Settled(u, links, instructions, nodes, r)
    ensures Swept(u, links, instructions, nodes, r, i, j + 1)
    ensures UnsetFrom(t, i, j) ==> UnsetFrom(u, i, j + 1) && |nodes[j].name| >= 3
  {
    VisitedFrame(t, instructions, nodes, i, j);
    VisitSound(t, links, instructions, nodes, i, j);
    SoundNoNegative(t, links, instructions, nodes);
    GrowsKeeps(t, u, links, instructions, nodes, r, i, j);
    forall d: nat | d <= r && HitsAt(links, nodes, Pos(i, j), d)
      ensures u[i][j].distance != -1
    {
      VisitProgress(t, links, instructions, nodes, i, j, r, d);
    }
    SweptNext(u, links, instructions, nodes, r, i, j);
    if UnsetFrom(t, i, j) {
      UnsetNext(t, u, instructions, nodes, i, j);
    }
  }

  /** A visit adds one to the count exactly when it sets the waypoint's distance. */
  lemma VisitCount(t: Table, u: Table, instructions: string, nodes: seq<Node>, i: nat, j: nat)
    requires Shaped(t, instructions, nodes) && ChildrenIn(t, instructions, nodes) && i < |instructions| && j < |nodes|
    requires Visited(t, instructions, nodes, i, j) == Ok(u) && NoNegative(t)
    ensures CountSet(u) == CountSet(t) + (if t[i][j].distance == -1 && u[i][j].distance != -1 then 1 else 0)
  {
    if t[i][j].distance == -1 && u[i][j].distance != -1 {
      CountSetPut(t, i, j, u[i][j]);
      assert u == Put(t, i, j, u[i][j]);
    } else {
      var wp := t[i][j];
      if wp.distance == -1 && wp.node.name[2] != 'Z' {
        var c := wp.child.value;
        assert t[c.row][c.col].distance >= -1;
      }
    }
  }

  /** A table that only grows keeps its links and every waypoint already settled or swept. */
  lemma GrowsKeeps(t: Table, u: Table, links: Links, instructions: string, nodes: seq<Node>, r: nat, i: nat, j: nat)
    requires Grows(t, u, instructions, nodes) && Linked(t, links, instructions, nodes)
    requires Settled(t, links, instructions, nodes, r) && Swept(t, links, instructions, nodes, r, i, j)
    ensures Linked(u, links, instructions, nodes) && Settled(u, links, instructions, nodes, r)
    ensures Swept(u, links, instructions, nodes, r, i, j)
  {
  }

  /** The sweep passes (i, j) once that waypoint is set whenever its first Z waypoint is at most `r` links away. */
  lemma SweptNext(u: Table, links: Links, instructions: string, nodes: seq<Node>, r: nat, i: nat, j: nat)
    requires Shaped(u, instructions, nodes) && Swept(u, links, instructions, nodes, r, i, j) && i < |u| && j < |nodes|
    requires forall d: nat :: d <= r && HitsAt(links, nodes, Pos(i, j), d) ==> u[i][j].distance != -1
    ensures Swept(u, links, instructions, nodes, r, i, j + 1)
  {
  }

  /** In the first round, a visit to an unset waypoint reads its name's third letter and leaves the later ones unset. */
  lemma UnsetNext(t: Table, u: Table, instructions: string, nodes: seq<Node>, i: nat, j: nat)
    requires Shaped(t, instructions, nodes) && ChildrenIn(t, instructions, nodes) && i < |instructions| && j < |nodes|
    requires Visited(t, instructions, nodes, i, j) == Ok(u) && UnsetFrom(t, i, j)
    ensures UnsetFrom(u, i, j + 1) && |nodes[j].name| >= 3
  {
    VisitedFrame(t, instructions, nodes, i, j);
  }

  /** A finished row: the sweep moves on to the start of the next one. */
  lemma SweptRow(t: Table, links: Links, instructions: string, nodes: seq<Node>, r: nat, i: nat)
    requires Shaped(t, instructions, nodes) && Swept(t, links, instructions, nodes, r, i, |nodes|)
    ensures Swept(t, links, instructions, nodes, r, i + 1, 0)
  {
  }

  /** A finished round settles every waypoint at most `r` links from its first Z waypoint. */
  lemma SweptRound(t: Table, links: Links, instructions: string, nodes: seq<Node>, r: nat)
    requires Shaped(t, instructions, nodes) && Swept(t, links, instructions, nodes, r, |instructions|, 0)
    ensures Settled(t, links, instructions, nodes, r + 1)
  {
  }

  /** A completed table: every waypoint reaches a Z waypoint, and its destination is one. */
  lemma CompleteReaches(t: Table, links: Links, instructions: string, nodes: seq<Node>)
    requires Shaped(t, instructions, nodes) && Sound(t, links, instructions, nodes)
    requires forall i, j :: 0 <= i < |instructions| && 0 <= j < |nodes| ==> t[i][j].distance != -1
    ensures forall i, j :: 0 <= i < |instructions| && 0 <= j < |nodes| ==>
      Chains.Reaches(SuccOf(links), GoalOf(nodes), Pos(i, j))
    ensures forall i, j :: 0 <= i < |instructions| && 0 <= j < |nodes| ==>
      t[i][j].next.Some? && Goal(nodes, t[i][j].next.value)
  {
    forall i, j | 0 <= i < |instructions| && 0 <= j < |nodes|
      ensures Chains.Reaches(SuccOf(links), GoalOf(nodes), Pos(i, j))
      ensures t[i][j].next.Some? && Goal(nodes, t[i][j].next.value)
    {
      var d: nat := t[i][j].distance;
      assert HitsAt(links, nodes, Pos(i, j), d);
      ChainsAgree(links, nodes, Pos(i, j), d);
      Chains.HitsAtFollow(SuccOf(links), GoalOf(nodes), Pos(i, j), d);
      assert GoalOf(nodes)(Follow(links, Pos(i, j), d));
    }
  }

  /** A table the fuel ran out on: some waypoint is unset, and its first Z waypoint, if any, is at least `r` links away. */
  lemma IncompleteFar(t: Table, links: Links, instructions: string, nodes: seq<Node>, r: nat)
    requires Shaped(t, instructions, nodes) && Settled(t, links, instructions, nodes, r)
    requires !forall i, j :: 0 <= i < |instructions| && 0 <= j < |nodes| ==> t[i][j].distance != -1
    ensures exists i, j ::
      0 <= i < |instructions| && 0 <= j < |nodes| && t[i][j].distance == -1
      && forall d: nat :: d < r ==> !HitsAt(links, nodes, Pos(i, j), d)
  {
    var i, j :| 0 <= i < |instructions| && 0 <= j < |nodes| && t[i][j].distance == -1;
    assert forall d: nat :: d < r ==> !HitsAt(links, nodes, Pos(i, j), d);
  }

  // ---------------------------------------------------------------- the fixpoint's sweeps

  /** What a visit needs of the table: its shape, every child inside it, no distance below -1. */
  ghost predicate Ready(t: Table, instructions: string, nodes: seq<Node>)
  {
    Shaped(t, instructions, nodes) && ChildrenIn(t, instructions, nodes) && NoNegative(t)
  }

  /** A visit keeps the table ready for the next one. */
  lemma VisitReady(t: Table, instructions: string, nodes: seq<Node>, i: nat, j: nat)
    requires Ready(t, instructions, nodes) && i < |instructions| && j < |nodes|
    requires Visited(t, instructions, nodes, i, j).Ok?
    ensures Ready(Visited(t, instructions, nodes, i, j).value, instructions, nodes)
  {
    VisitedFrame(t, instructions, nodes, i, j);
    var u: Table := Visited(t, instructions, nodes, i, j).value;
    forall i', j' | 0 <= i' < |u| && 0 <= j' < |u[i']|
      ensures u[i'][j'].distance >= -1
    {
      if i' == i && j' == j && t[i][j].distance == -1 && !IsZ(nodes[j].name) {
        var c := t[i][j].child.value;
        assert t[c.row][c.col].distance >= -1;
      }
    }
  }

  /** The rest of row `i` of a round, from waypoint (i, j) on: each waypoint visited in order. */
  function VisitRow(t: Table, instructions: string, nodes: seq<Node>, i: nat, j: nat): (r: Result<Table>)
    requires Ready(t, instructions, nodes) && i < |instructions| && j <= |nodes|
    ensures r.Err? ==> r.error == "IndexError"
    decreases |nodes| - j
  {
    if j == |nodes| then Ok(t)
    else
      var v := Visited(t, instructions, nodes, i, j);
      if v.Err? then v
      else
        VisitReady(t, instructions, nodes, i, j);
        VisitRow(v.value, instructions, nodes, i, j + 1)
  }

  /**
   * The step of a row's sweep: a visit that fails ends the row with that error; one that succeeds
   * leaves a ready table, the rest of the row, and one more set distance exactly when it set (i, j).
   */
  lemma SweepNext(t: Table, instructions: string, nodes: seq<Node>, i: nat, j: nat)
    requires Ready(t, instructions, nodes) && i < |instructions| && j < |nodes|
    ensures Visited(t, instructions, nodes, i, j).Err? ==> VisitRow(t, instructions, nodes, i, j).Err?
    ensures Visited(t, instructions, nodes, i, j).Ok? ==>
      var u := Visited(t, instructions, nodes, i, j).value;
      Ready(u, instructions, nodes) && VisitRow(t, instructions, nodes, i, j) == VisitRow(u, instructions, nodes, i, j + 1)
      && CountSet(u) == CountSet(t) + (if t[i][j].distance == -1 && u[i][j].distance != -1 then 1 else 0)
  {
    VisitRowStep(t, instructions, nodes, i, j);
    if Visited(t, instructions, nodes, i, j).Ok? {
      VisitCount(t, Visited(t, instructions, nodes, i, j).value, instructions, nodes, i, j);
    }
  }

  /** Rows `i`, `i + 1`, ... of a round, each visited in order; from row 0 this is a whole round. */
  function VisitRows(t: Table, instructions: string, nodes: seq<Node>, i: nat): (r: Result<Table>)
    requires Ready(t, instructions, nodes) && i <= |instructions|
    ensures r.Err? ==> r.error == "IndexError"
    decreases |instructions| - i
  {
    if i == |instructions| then Ok(t)
    else
      var v := VisitRow(t, instructions, nodes, i, 0);
      if v.Err? then v
      else
        RowReady(t, instructions, nodes, i, 0);
        VisitRows(v.value, instructions, nodes, i + 1)
  }

  /** The rest of a row keeps the table ready. */
  lemma {:induction false} RowReady(t: Table, instructions: string, nodes: seq<Node>, i: nat, j: nat)
    requires Ready(t, instructions, nodes) && i < |instructions| && j <= |nodes|
    ensures VisitRow(t, instructions, nodes, i, j).Ok? ==> Ready(VisitRow(t, instructions, nodes, i, j).value, instructions, nodes)
    decreases |nodes| - j
  {
    if j < |nodes| && Visited(t, instructions, nodes, i, j).Ok? {
      VisitReady(t, instructions, nodes, i, j);
      RowReady(Visited(t, instructions, nodes, i, j).value, instructions, nodes, i, j + 1);
    }
  }

  /** The invariant of a sweep that has reached waypoint (i, j) in round `r`. */
  ghost predicate RowInv(t: Table, links: Links, instructions: string, nodes: seq<Node>, r: nat, i: nat, j: nat)
  {
    var ok := Shaped(t, instructions, nodes) && Linked(t, links, instructions, nodes)
    && Sound(t, links, instructions, nodes) && Settled(t, links, instructions, nodes, r)
    && Swept(t, links, instructions, nodes, r, i, j)
    && (r == 0 ==> UnsetFrom(t, i, j))
    && (r > 0 || i > 0 ==> NamesOk(nodes))
    && forall j' :: 0 <= j' < j && j' < |nodes| ==> |nodes[j'].name| >= 3;
    ok
  }

  /** A linked, sound table is ready for a visit. */
  lemma LinkedReady(t: Table, links: Links, instructions: string, nodes: seq<Node>)
    requires Shaped(t, instructions, nodes) && Linked(t, links, instructions, nodes) && Sound(t, links, instructions, nodes)
    ensures Ready(t, instructions, nodes)
  {
    SoundNoNegative(t, links, instructions, nodes);
  }

  /**
   * A visit during a sweep: it fails only at a name without a third letter, which the first row
   * of the first round reads first; otherwise it moves the sweep on by one waypoint.
   */
  lemma SweepStep(t: Table, links: Links, instructions: string, nodes: seq<Node>, r: nat, i: nat, j: nat)
    requires RowInv(t, links, instructions, nodes, r, i, j) && i < |instructions| && j < |nodes|
    ensures Ready(t, instructions, nodes)
    ensures Visited(t, instructions, nodes, i, j).Err? ==> r == 0 && i == 0 && !NamesOk(nodes)
    ensures Visited(t, instructions, nodes, i, j).Ok? ==>
      RowInv(Visited(t, instructions, nodes, i, j).value, links, instructions, nodes, r, i, j + 1)
  {
    LinkedReady(t, links, instructions, nodes);
    if Visited(t, instructions, nodes, i, j).Ok? {
      var u := Visited(t, instructions, nodes, i, j).value;
      VisitKeeps(t, u, links, instructions, nodes, i, j, r);
      assert |nodes[j].name| >= 3 by {
        if r == 0 && i == 0 {
          assert UnsetFrom(t, i, j);
        }
      }
    }
  }

  /** The end of a row is the start of the next one, and every name has been read. */
  lemma RowDone(t: Table, links: Links, instructions: string, nodes: seq<Node>, r: nat, i: nat)
    requires RowInv(t, links, instructions, nodes, r, i, |nodes|) && i < |instructions|
    ensures Ready(t, instructions, nodes) && VisitRow(t, instructions, nodes, i, |nodes|) == Ok(t)
    ensures RowInv(t, links, instructions, nodes, r, i + 1, 0) && NamesOk(nodes)
  {
    LinkedReady(t, links, instructions, nodes);
    SweptRow(t, links, instructions, nodes, r, i);
    if r == 0 {
      assert UnsetFrom(t, i + 1, 0) by {
        assert UnsetFrom(t, i, |nodes|);
      }
    }
  }

  /**
   * The rest of a row keeps the sweep invariant; it fails, with IndexError, exactly in the first
   * row of the first round when some name has no third letter.
   */
  /** A visit that succeeds moves the rest of the row on by one waypoint; one that fails ends it. */
  lemma VisitRowStep(t: Table, instructions: string, nodes: seq<Node>, i: nat, j: nat)
    requires Ready(t, instructions, nodes) && i < |instructions| && j < |nodes|
    ensures Visited(t, instructions, nodes, i, j).Err? ==> VisitRow(t, instructions, nodes, i, j).Err?
    ensures Visited(t, instructions, nodes, i, j).Ok? ==>
      Ready(Visited(t, instructions, nodes, i, j).value, instructions, nodes) &&
      VisitRow(t, instructions, nodes, i, j) == VisitRow(Visited(t, instructions, nodes, i, j).value, instructions, nodes, i, j + 1)
  {
    if Visited(t, instructions, nodes, i, j).Ok? {
      VisitReady(t, instructions, nodes, i, j);
    }
  }

  lemma {:induction false} RowKeeps(t: Table, links: Links, instructions: string, nodes: seq<Node>, r: nat, i: nat, j: nat)
    requires RowInv(t, links, instructions, nodes, r, i, j) && i < |instructions| && j <= |nodes|
    ensures Ready(t, instructions, nodes)
    ensures VisitRow(t, instructions, nodes, i, j).Err? <==> r == 0 && i == 0 && !NamesOk(nodes)
    ensures VisitRow(t, instructions, nodes, i, j).Ok? ==>
      RowInv(VisitRow(t, instructions, nodes, i, j).value, links, instructions, nodes, r, i + 1, 0) && NamesOk(nodes)
    decreases |nodes| - j
  {
    if j == |nodes| {
      RowDone(t, links, instructions, nodes, r, i);
    } else {
      SweepStep(t, links, instructions, nodes, r, i, j);
      VisitRowStep(t, instructions, nodes, i, j);
      var v := Visited(t, instructions, nodes, i, j);
      if v.Ok? {
        RowKeeps(v.value, links, instructions, nodes, r, i, j + 1);
      }
    }
  }

  /** The remaining rows of a round keep the sweep invariant; only the first row of the first round can fail. */
  lemma {:induction false} RowsKeep(t: Table, links: Links, instructions: string, nodes: seq<Node>, r: nat, i: nat)
    requires RowInv(t, links, instructions, nodes, r, i, 0) && i <= |instructions|
    ensures Ready(t, instructions, nodes)
    ensures VisitRows(t, instructions, nodes, i).Err? <==> r == 0 && i < |instructions| && !NamesOk(nodes)
    ensures VisitRows(t, instructions, nodes, i).Ok? ==>
      RowInv(VisitRows(t, instructions, nodes, i).value, links, instructions, nodes, r, |instructions|, 0)
      && (i < |instructions| ==> NamesOk(nodes))
    decreases |instructions| - i
  {
    LinkedReady(t, links, instructions, nodes);
    if i < |instructions| {
      RowKeeps(t, links, instructions, nodes, r, i, 0);
      VisitRowsStep(t, instructions, nodes, i);
      var v := VisitRow(t, instructions, nodes, i, 0);
      if v.Ok? {
        RowsKeep(v.value, links, instructions, nodes, r, i + 1);
      }
    }
  }

  /** A round's rows from row `i`: row `i` is visited, then the rows after it. */
  lemma VisitRowsStep(t: Table, instructions: string, nodes: seq<Node>, i: nat)
    requires Ready(t, instructions, nodes) && i < |instructions|
    ensures VisitRow(t, instructions, nodes, i, 0).Err? ==> VisitRows(t, instructions, nodes, i).Err?
    ensures var v := VisitRow(t, instructions, nodes, i, 0);
      v.Ok? ==> Ready(v.value, instructions, nodes) && VisitRows(t, instructions, nodes, i) == VisitRows(v.value, instructions, nodes, i + 1)
  {
    RowReady(t, instructions, nodes, i, 0);
  }

  /**
   * A whole round: it fails exactly when it is the first, there are rows, and some name has no
   * third letter; otherwise it keeps every set distance right and settles one more step's worth of
   * waypoints.
   */
  lemma RoundKeeps(t: Table, links: Links, instructions: string, nodes: seq<Node>, r: nat)
    requires Shaped(t, instructions, nodes) && Linked(t, links, instructions, nodes)
    requires Sound(t, links, instructions, nodes) && Settled(t, links, instructions, nodes, r)
    requires (r == 0 ==> Unset(t)) && (r > 0 ==> NamesOk(nodes))
    ensures Ready(t, instructions, nodes)
    ensures VisitRows(t, instructions, nodes, 0).Err? <==> r == 0 && |instructions| > 0 && !NamesOk(nodes)
    ensures VisitRows(t, instructions, nodes, 0).Ok? ==>
      var u := VisitRows(t, instructions, nodes, 0).value;
      Shaped(u, instructions, nodes) && Linked(u, links, instructions, nodes)
      && Sound(u, links, instructions, nodes) && Settled(u, links, instructions, nodes, r + 1)
      && (|instructions| > 0 ==> NamesOk(nodes))
  {
    RowsKeep(t, links, instructions, nodes, r, 0);
    if VisitRows(t, instructions, nodes, 0).Ok? {
      SweptRound(VisitRows(t, instructions, nodes, 0).value, links, instructions, nodes, r);
    }
  }

  // ---------------------------------------------------------------- the links of a table

  /** Every instruction, from every node, leads to a node of the graph. */
  predicate StepsOk(instructions: string, nodes: seq<Node>)
  {
    forall i, j :: 0 <= i < |instructions| && 0 <= j < |nodes| ==> StepOkAt(instructions, nodes, i, j)
  }

  /** The instruction at index `i` leads from node `j` to a node of the graph. */
  predicate StepOkAt(instructions: string, nodes: seq<Node>, i: int, j: int)
  {
    0 <= i < |instructions| && 0 <= j < |nodes| && Step(nodes, nodes[j], [instructions[i]]).Ok?
  }

  /** The waypoint after (i, j) lies in the table. */
  lemma TargetInTable(instructions: string, nodes: seq<Node>, i: nat, j: nat)
    requires StepsOk(instructions, nodes) && i < |instructions| && j < |nodes|
    ensures Target(instructions, nodes, Pos(i, j)).row < |instructions| && Target(instructions, nodes, Pos(i, j)).col < |nodes|
  {
    StepOk(instructions, nodes, i, j);
    TargetRow(instructions, nodes, i, j);
    TargetCol(instructions, nodes, i, j);
  }

  lemma StepOk(instructions: string, nodes: seq<Node>, i: nat, j: nat)
    requires StepsOk(instructions, nodes) && i < |instructions| && j < |nodes|
    ensures Step(nodes, nodes[j], [instructions[i]]).Ok?
  {
    assert StepOkAt(instructions, nodes, i, j);
  }

  lemma TargetRow(instructions: string, nodes: seq<Node>, i: nat, j: nat)
    requires i < |instructions| && j < |nodes|
    ensures Target(instructions, nodes, Pos(i, j)).row < |instructions|
  {
  }

  /** A step that succeeds leads to a node of the graph. */
  lemma TargetCol(instructions: string, nodes: seq<Node>, i: nat, j: nat)
    requires i < |instructions| && j < |nodes| && Step(nodes, nodes[j], [instructions[i]]).Ok?
    ensures Target(instructions, nodes, Pos(i, j)).col < |nodes|
  {
    StepInGraph(nodes, nodes[j], [instructions[i]]);
  }

  /** When every step succeeds, the targets form links inside the table. */
  lemma TargetsIn(instructions: string, nodes: seq<Node>)
    requires StepsOk(instructions, nodes)
    ensures LinksIn(Targets(instructions, nodes), |instructions|, |nodes|)
  {
    forall i, j | 0 <= i < |instructions| && 0 <= j < |nodes|
      ensures Target(instructions, nodes, Pos(i, j)).row < |instructions| && Target(instructions, nodes, Pos(i, j)).col < |nodes|
    {
      TargetInTable(instructions, nodes, i, j);
    }
  }

  // ---------------------------------------------------------------- the manager

  /** The instruction of every waypoint before (i, j) leads to a node of the graph. */
  predicate StepsOkUpTo(instructions: string, nodes: seq<Node>, i: nat, j: nat)
  {
    forall i', j' :: 0 <= i' < |instructions| && 0 <= j' < |nodes| && (i' < i || (i' == i && j' < j)) ==>
      StepOkAt(instructions, nodes, i', j')
  }

  /** The instruction of waypoint (i, j) leads somewhere: the linking moves on by one waypoint. */
  lemma StepsOkNext(instructions: string, nodes: seq<Node>, i: nat, j: nat)
    requires StepsOkUpTo(instructions, nodes, i, j) && i < |instructions| && j < |nodes|
    requires Step(nodes, nodes[j], [instructions[i]]).Ok?
    ensures StepsOkUpTo(instructions, nodes, i, j + 1)
  {
  }

  /** An instruction that leads nowhere breaks the whole table's linking. */
  lemma StepsFail(instructions: string, nodes: seq<Node>, i: nat, j: nat)
    requires i < |instructions| && j < |nodes| && Step(nodes, nodes[j], [instructions[i]]).Err?
    ensures !StepsOk(instructions, nodes)
  {
    assert !StepOkAt(instructions, nodes, i, j);
  }

  /** A row whose every instruction leads somewhere is the start of the next. */
  lemma StepsOkRowDone(instructions: string, nodes: seq<Node>, i: nat)
    requires StepsOkUpTo(instructions, nodes, i, |nodes|)
    ensures StepsOkUpTo(instructions, nodes, i + 1, 0)
  {
  }

  /** Past the last row, every instruction leads somewhere. */
  lemma StepsOkAll(instructions: string, nodes: seq<Node>)
    requires StepsOkUpTo(instructions, nodes, |instructions|, 0)
    ensures StepsOk(instructions, nodes)
  {
  }

  /** Every waypoint before (i, j) has its child set to its target. */
  ghost predicate LinkedUpTo(t: Table, targets: Links, nodes: seq<Node>, i: nat, j: nat)
  {
    forall i', j' :: 0 <= i' < |t| && 0 <= j' < |t[i']| && i' < |targets| && j' < |targets[i']| && (i' < i || (i' == i && j' < j)) ==>
      t[i'][j'].child == Some(targets[i'][j'])
  }

  /** Setting the child of waypoint (i, j) to its target moves the linking on by one waypoint. */
  lemma LinkPut(t: Table, targets: Links, instructions: string, nodes: seq<Node>, i: nat, j: nat, p: Pos)
    requires Shaped(t, instructions, nodes) && Unset(t) && i < |instructions| && j < |nodes|
    requires LinkedUpTo(t, targets, nodes, i, j) && i < |targets| && j < |targets[i]| && p == targets[i][j]
    ensures var u := Put(t, i, j, t[i][j].(child := Some(p)));
      Shaped(u, instructions, nodes) && Unset(u) && LinkedUpTo(u, targets, nodes, i, j + 1)
  {
  }

  /** A row linked to its end is the start of the next. */
  lemma LinkedRowDone(t: Table, targets: Links, nodes: seq<Node>, i: nat)
    requires forall k :: 0 <= k < |targets| ==> |targets[k]| == |nodes|
    requires LinkedUpTo(t, targets, nodes, i, |nodes|)
    ensures LinkedUpTo(t, targets, nodes, i + 1, 0)
  {
  }

  /** A fresh waypoint of a node: no child, no destination, distance -1. */
  function FreshRow(nodes: seq<Node>): (row: seq<Waypoint>)
    ensures |row| == |nodes| && forall j :: 0 <= j < |nodes| ==> row[j] == Waypoint(nodes[j], None, -1, None)
  {
    seq(|nodes|, j requires 0 <= j < |nodes| => Waypoint(nodes[j], None, -1, None))
  }

  /** `WaypointManager`: the waypoint table of an instruction string and a node list. */
  class WaypointManager {
    const instructions: string
    const nodes: seq<Node>
    var waypoints: Table
    /** The child links, as the linking phase sets them. */
    ghost var links: Links

    /** The table's first phase: one row of fresh waypoints per instruction. */
    constructor (instructions: string, nodes: seq<Node>)
      ensures this.instructions == instructions && this.nodes == nodes
      ensures Shaped(waypoints, instructions, nodes) && Unset(waypoints)
    {
      this.instructions := instructions;
      this.nodes := nodes;
      var t: Table := [];
      var k := 0;
      while k < |instructions|
        invariant 0 <= k <= |instructions| && |t| == k
        invariant forall i :: 0 <= i < k ==> t[i] == FreshRow(nodes)
      {
        t := t + [FreshRow(nodes)];
        k := k + 1;
      }
      waypoints := t;
      links := [];
    }

    /**
     * The second phase: every waypoint's child is set to the waypoint of the next instruction index
     * at the node its instruction leads to; a missing successor name raises StopIteration.
     */
    method Link() returns (err: Option<string>)
      requires Shaped(waypoints, instructions, nodes) && Unset(waypoints)
      modifies this
      ensures Shaped(waypoints, instructions, nodes) && Unset(waypoints)
      ensures err.None? <==> StepsOk(instructions, nodes)
      ensures err.None? ==> links == Targets(instructions, nodes) && Linked(waypoints, links, instructions, nodes)
      ensures err.Some? ==> err.value == "StopIteration"
    {
      ghost var targets := Targets(instructions, nodes);
      var i := 0;
      while i < |instructions|
        invariant 0 <= i <= |instructions|
        invariant Shaped(waypoints, instructions, nodes) && Unset(waypoints)
        invariant StepsOkUpTo(instructions, nodes, i, 0) && LinkedUpTo(waypoints, targets, nodes, i, 0)
      {
        var j := 0;
        while j < |nodes|
          invariant 0 <= j <= |nodes|
          invariant Shaped(waypoints, instructions, nodes) && Unset(waypoints)
          invariant StepsOkUpTo(instructions, nodes, i, j) && LinkedUpTo(waypoints, targets, nodes, i, j)
        {
          var childNode := Step(nodes, waypoints[i][j].node, [instructions[i]]);
          if childNode.Err? {
            StepsFail(instructions, nodes, i, j);
            return Some("StopIteration");
          }
          StepsOkNext(instructions, nodes, i, j);
          var index := NameIndex(nodes, childNode.value.name);
          var row := (i + 1) % |instructions|;
          assert Pos(row, index) == targets[i][j] by {
            assert row == NextRow(i, |instructions|);
            assert targets[i][j] == Target(instructions, nodes, Pos(i, j));
          }
          LinkPut(waypoints, targets, instructions, nodes, i, j, Pos(row, index));
          waypoints := Put(waypoints, i, j, waypoints[i][j].(child := Some(Pos(row, index))));
          j := j + 1;
        }
        LinkedRowDone(waypoints, targets, nodes, i);
        StepsOkRowDone(instructions, nodes, i);
        i := i + 1;
      }
      links := targets;
      StepsOkAll(instructions, nodes);
      TargetsIn(instructions, nodes);
      return None;
    }

    /** The fixpoint's inner loop body on waypoint (i, j); the result tells whether its distance was set. */
    method Visit(i: nat, j: nat) returns (r: Result<bool>)
      requires Shaped(waypoints, instructions, nodes) && ChildrenIn(waypoints, instructions, nodes) && NoNegative(waypoints)
      requires i < |instructions| && j < |nodes|
      modifies this`waypoints
      ensures Visited(old(waypoints), instructions, nodes, i, j).Err? ==> r == Err("IndexError")
      ensures Visited(old(waypoints), instructions, nodes, i, j).Ok? ==>
        r.Ok? && waypoints == Visited(old(waypoints), instructions, nodes, i, j).value
        && (r.value <==> old(waypoints)[i][j].distance == -1 && waypoints[i][j].distance != -1)
    {
      var wp := waypoints[i][j];
      if wp.distance == -1 {
        if |wp.node.name| < 3 {
          return Err("IndexError");
        }
        if wp.node.name[2] == 'Z' {
          waypoints := Put(waypoints, i, j, wp.(distance := 0, next := Some(Pos(i, j))));
          return Ok(true);
        }
        var c := wp.child.value;
        var child := waypoints[c.row][c.col];
        if child.distance != -1 {
          waypoints := Put(waypoints, i, j, wp.(distance := child.distance + 1, next := child.next));
          return Ok(true);
        }
      }
      return Ok(false);
    }

    /**
     * One row of a round of the fixpoint: visits waypoints (i, 0), (i, 1), ... in order, carrying
     * the count of set distances along.
     */
    method SweepRow(i: nat, count0: nat) returns (err: Option<string>, count: nat)
      requires i < |instructions| && Ready(waypoints, instructions, nodes) && count0 == CountSet(waypoints)
      modifies this`waypoints
      ensures VisitRow(old(waypoints), instructions, nodes, i, 0).Err? ==> err == Some("IndexError")
      ensures VisitRow(old(waypoints), instructions, nodes, i, 0).Ok? ==>
        err.None? && waypoints == VisitRow(old(waypoints), instructions, nodes, i, 0).value && count == CountSet(waypoints)
    {
      count := count0;
      ghost var row := VisitRow(waypoints, instructions, nodes, i, 0);
      var j := 0;
      while j < |nodes|
        invariant 0 <= j <= |nodes|
        invariant Ready(waypoints, instructions, nodes) && count == CountSet(waypoints)
        invariant VisitRow(waypoints, instructions, nodes, i, j) == row
      {
        SweepNext(waypoints, instructions, nodes, i, j);
        var added := Visit(i, j);
        if added.Err? {
          return Some(added.error), count;
        }
        if added.value {
          count := count + 1;
        }
        j := j + 1;
      }
      return None, count;
    }

    /** One round of the fixpoint: every row swept in order, the count of set distances carried along. */
    method SweepRound(count0: nat) returns (err: Option<string>, count: nat)
      requires Ready(waypoints, instructions, nodes) && count0 == CountSet(waypoints)
      modifies this`waypoints
      ensures VisitRows(old(waypoints), instructions, nodes, 0).Err? ==> err == Some("IndexError")
      ensures VisitRows(old(waypoints), instructions, nodes, 0).Ok? ==>
        err.None? && waypoints == VisitRows(old(waypoints), instructions, nodes, 0).value && count == CountSet(waypoints)
    {
      count := count0;
      ghost var round := VisitRows(waypoints, instructions, nodes, 0);
      var i := 0;
      while i < |instructions|
        invariant 0 <= i <= |instructions|
        invariant Ready(waypoints, instructions, nodes) && count == CountSet(waypoints)
        invariant VisitRows(waypoints, instructions, nodes, i) == round
      {
        VisitRowsStep(waypoints, instructions, nodes, i);
        err, count := SweepRow(i, count);
        if err.Some? {
          return;
        }
        i := i + 1;
      }
      return None, count;
    }

    /**
     * The third phase, the fixpoint: rounds over the whole table, each visiting every waypoint in
     * order, until as many distances are set as there are waypoints. The source loops for ever when
     * some waypoint never reaches a Z node; `fuel` bounds the number of rounds, and the result
     * says whether the table was completed.
     */
    method SetDistances(fuel: nat) returns (r: Result<bool>)
      requires Shaped(waypoints, instructions, nodes) && Linked(waypoints, links, instructions, nodes) && Unset(waypoints)
      modifies this`waypoints
      ensures r.Err? <==> fuel > 0 && |instructions| > 0 && !NamesOk(nodes)
      ensures r.Err? ==> r.error == "IndexError"
      ensures r.Ok? ==> Shaped(waypoints, instructions, nodes) && Linked(waypoints, links, instructions, nodes)
      ensures r.Ok? ==> Sound(waypoints, links, instructions, nodes)
      ensures r == Ok(false) ==> Settled(waypoints, links, instructions, nodes, fuel)
      ensures r.Ok? ==> (r.value <==>
        forall i, j :: 0 <= i < |instructions| && 0 <= j < |nodes| ==> waypoints[i][j].distance != -1)
    {
      var total := |instructions| * |nodes|;
      var count: nat := 0;
      var rounds := 0;
      CountSetUnset(waypoints);
      while count < total && rounds < fuel
        invariant rounds <= fuel
        invariant Shaped(waypoints, instructions, nodes) && Linked(waypoints, links, instructions, nodes)
        invariant Sound(waypoints, links, instructions, nodes) && Settled(waypoints, links, instructions, nodes, rounds)
        invariant count == CountSet(waypoints)
        invariant rounds == 0 ==> count == 0 && Unset(waypoints)
        invariant rounds > 0 ==> NamesOk(nodes)
        decreases fuel - rounds
      {
        RoundKeeps(waypoints, links, instructions, nodes, rounds);
        var err;
        err, count := SweepRound(count);
        if err.Some? {
          return Err(err.value);
        }
        rounds := rounds + 1;
      }
      CountSetFull(waypoints, |nodes|);
      if count < total {
        return Ok(false);
      }
      return Ok(true);
    }
  }
}
