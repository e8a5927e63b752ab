/**
 * Day 10: the pipe maze (10/mypipes.py).
 *
 * A map of pipe symbols is read into fields, the start field's connections are inferred
 * from its neighbours, the loop through the start is walked into a doubly linked ring,
 * and ring positions are labelled with their distance from the start.
 * Object references of the source (ring nodes, fields) are modelled by positions and
 * node indices.
 */
module Day10Pipes {
  import opened Wrappers
  import opened Geometry
  import Lists

  const North := Vec2(0, -1)
  const East := Vec2(1, 0)
  const South := Vec2(0, 1)
  const West := Vec2(-1, 0)

  /** The order in which neighbours are looked at. */
  const Compass: seq<Vec2> := [North, East, South, West]

  datatype Field = Field(pos: Vec2, connections: seq<Vec2>, isStart: bool, isMainLoop: bool, symbol: char)

  /** Characters a map may contain. */
  predicate IsSymbol(c: char) { c in "|-LJ7F.S" }

  /** Characters that are pipes with two openings. */
  predicate IsPipe(c: char) { c in "|-LJ7F" }

  /** `readField`: the connections each symbol opens to; any other character raises. */
  function ReadField(c: char, pos: Vec2): (r: Result<Field>)
    ensures r.Ok? <==> IsSymbol(c)
    ensures r.Ok? ==> r.value.pos == pos && r.value.symbol == c && !r.value.isMainLoop
    ensures r.Ok? ==> (r.value.isStart <==> c == 'S')
    ensures r.Ok? && !IsPipe(c) ==> r.value.connections == []
    ensures r.Ok? && IsPipe(c) ==> |r.value.connections| == 2 && r.value.connections[0] != r.value.connections[1]
    ensures r.Ok? ==> forall d :: d in r.value.connections ==> d in Compass
  {
    match c
    case '|' => Ok(Field(pos, [North, South], false, false, c))
    case '-' => Ok(Field(pos, [East, West], false, false, c))
    case 'L' => Ok(Field(pos, [North, East], false, false, c))
    case 'J' => Ok(Field(pos, [North, West], false, false, c))
    case '7' => Ok(Field(pos, [South, West], false, false, c))
    case 'F' => Ok(Field(pos, [South, East], false, false, c))
    case '.' => Ok(Field(pos, [], false, false, c))
    case 'S' => Ok(Field(pos, [], true, false, c))
    case _ => Err("Exception")
  }

  /**
   * The symbol the start field is given for its connections (the tail of `connectStart`):
   * the first matching pair in the order N/S, E/W, N/E, N/W, S/W, S/E; otherwise `current` is kept.
   */
  function Relabel(conns: seq<Vec2>, current: char): char
  {
    if North in conns && South in conns then '|'
    else if East in conns && West in conns then '-'
    else if North in conns && East in conns then 'L'
    else if North in conns && West in conns then 'J'
    else if South in conns && West in conns then '7'
    else if South in conns && East in conns then 'F'
    else current
  }

  /** Relabelling undoes reading: a pipe's own connections give its symbol back. */
  lemma RelabelReadField(c: char, pos: Vec2, current: char)
    requires IsPipe(c)
    ensures Relabel(ReadField(c, pos).value.connections, current) == c
  {
  }

  /** Reading undoes relabelling: two distinct compass directions give the pipe that opens to exactly them. */
  lemma ReadFieldRelabel(conns: seq<Vec2>, pos: Vec2, current: char)
    requires |conns| == 2 && conns[0] != conns[1] && conns[0] in Compass && conns[1] in Compass
    ensures IsPipe(Relabel(conns, current))
    ensures forall d :: d in ReadField(Relabel(conns, current), pos).value.connections <==> d in conns
  {
  }

  /** No pair of directions matches and the symbol stays as it was, e.g. for a dead end. */
  lemma RelabelKeeps(conns: seq<Vec2>, current: char)
    requires |conns| <= 1
    ensures Relabel(conns, current) == current
  {
    if |conns| == 1 {
      assert forall d :: d in conns ==> d == conns[0];
    }
  }

  // ------------------------------------------------------------------ the map

  type Grid = seq<seq<Field>>

  function At(g: Grid, p: Vec2): Field
    requires InBounds(g, p)
  {
    g[p.y][p.x]
  }

  /** Every field knows its own position. */
  predicate WellPlaced(g: Grid)
  {
    forall y, x :: 0 <= y < |g| && 0 <= x < |g[y]| ==> g[y][x].pos == Vec2(x, y)
  }

  /** The field at `pos` as `readMap` creates it from `lines`. */
  function ReadAt(lines: seq<string>, pos: Vec2): Result<Field>
    requires 0 <= pos.y < |lines| && 0 <= pos.x < |lines[pos.y]|
  {
    ReadField(lines[pos.y][pos.x], pos)
  }

  /** No field after position (x, y), in reading order, is a start field. */
  predicate NoStartAfter(lines: seq<string>, x: int, y: int)
  {
    forall y', x' :: 0 <= y' < |lines| && 0 <= x' < |lines[y']| && (y' > y || (y' == y && x' > x)) ==> lines[y'][x'] != 'S'
  }

  /**
   * The inner loop of `readMap` over line `y`: one field per character, and the column of
   * the last `S` in the line, if any; an unknown character raises.
   */
  method ReadRow(lines: seq<string>, y: nat) returns (r: Result<(seq<Field>, Option<nat>)>)
    requires y < |lines|
    ensures r.Ok? <==> forall x :: 0 <= x < |lines[y]| ==> IsSymbol(lines[y][x])
    ensures r.Ok? ==> var (row, last) := r.value;
      |row| == |lines[y]| && (forall x :: 0 <= x < |row| ==> ReadAt(lines, Vec2(x, y)) == Ok(row[x]))
      && (last.None? <==> forall x :: 0 <= x < |row| ==> lines[y][x] != 'S')
      && (last.Some? ==> last.value < |row| && lines[y][last.value] == 'S'
                         && forall x :: last.value < x < |row| ==> lines[y][x] != 'S')
  {
    var line := lines[y];
    var row: seq<Field> := [];
    var last: Option<nat> := None;
    for x := 0 to |line|
      invariant |row| == x
      invariant forall x' :: 0 <= x' < x ==> IsSymbol(line[x']) && ReadAt(lines, Vec2(x', y)) == Ok(row[x'])
      invariant last.None? <==> forall x' :: 0 <= x' < x ==> line[x'] != 'S'
      invariant last.Some? ==> last.value < x && line[last.value] == 'S' && forall x' :: last.value < x' < x ==> line[x'] != 'S'
    {
      var field := ReadField(line[x], Vec2(x, y));
      if field.Err? {
        return Err("Exception");
      }
      if field.value.isStart {
        last := Some(x);
      }
      row := row + [field.value];
    }
    r := Ok((row, last));
  }

  /**
   * The reading loop of `readMap`: one field per character, the start being the last `S`
   * in reading order; an unknown character or a map without `S` raises.
   */
  method ReadGrid(lines: seq<string>) returns (r: Result<(Grid, Vec2)>)
    ensures r.Ok? <==> (forall y, x :: 0 <= y < |lines| && 0 <= x < |lines[y]| ==> IsSymbol(lines[y][x]))
                       && (exists y, x :: 0 <= y < |lines| && 0 <= x < |lines[y]| && lines[y][x] == 'S')
    ensures r.Ok? ==> var (g, s) := r.value;
      |g| == |lines| && (forall y :: 0 <= y < |g| ==> |g[y]| == |lines[y]|)
      && (forall y, x :: 0 <= y < |g| && 0 <= x < |g[y]| ==> ReadAt(lines, Vec2(x, y)) == Ok(g[y][x]))
      && InBounds(g, s) && lines[s.y][s.x] == 'S' && NoStartAfter(lines, s.x, s.y)
  {
    var fields: Grid := [];
    var start: Option<Vec2> := None;
    for y := 0 to |lines|
      invariant |fields| == y
      invariant forall y' :: 0 <= y' < y ==> |fields[y']| == |lines[y']|
      invariant forall y', x :: 0 <= y' < y && 0 <= x < |lines[y']| ==> IsSymbol(lines[y'][x]) && ReadAt(lines, Vec2(x, y')) == Ok(fields[y'][x])
      invariant start.None? <==> forall y', x :: 0 <= y' < y && 0 <= x < |lines[y']| ==> lines[y'][x] != 'S'
      invariant start.Some? ==> var s := start.value;
        0 <= s.y < y && 0 <= s.x < |lines[s.y]| && lines[s.y][s.x] == 'S'
        && forall y', x :: 0 <= y' < y && 0 <= x < |lines[y']| && (y' > s.y || (y' == s.y && x > s.x)) ==> lines[y'][x] != 'S'
    {
      var row := ReadRow(lines, y);
      if row.Err? {
        return Err("Exception");
      }
      var (fs, last) := row.value;
      if last.Some? {
        start := Some(Vec2(last.value, y));
      }
      fields := fields + [fs];
    }
    if start.None? {
      return Err("No start field found");
    }
    var s := start.value;
    assert ReadAt(lines, s) == Ok(fields[s.y][s.x]);
    r := Ok((fields, s));
  }

  // ------------------------------------------------------------------ neighbours and connections

  /** `getConnectionPositions`: where the field's openings lead. */
  function ConnectionPositions(f: Field): (r: seq<Vec2>)
    ensures |r| == |f.connections|
    ensures forall i :: 0 <= i < |r| ==> r[i] == f.pos.Add(f.connections[i])
  {
    seq(|f.connections|, i requires 0 <= i < |f.connections| => f.pos.Add(f.connections[i]))
  }

  /**
   * `getField` at `p`, as Python indexes the nested lists: negative coordinates count from
   * the end of the rows or of the row, anything else out of range raises. The result is the
   * position of the field reached.
   */
  function Lookup(g: Grid, p: Vec2): (r: Option<Vec2>)
    ensures r.Some? ==> InBounds(g, r.value)
    ensures InBounds(g, p) ==> r == Some(p)
  {
    match PyIndex(p.y, |g|)
    case None => None
    case Some(y) =>
      match PyIndex(p.x, |g[y]|)
      case None => None
      case Some(x) => Some(Vec2(x, y))
  }

  /** `Lookup` of every position in `ps`, failing when one of them fails. */
  function LookupAll(g: Grid, ps: seq<Vec2>): (r: Option<seq<Vec2>>)
    ensures r.Some? <==> forall i :: 0 <= i < |ps| ==> Lookup(g, ps[i]).Some?
    ensures r.Some? ==> |r.value| == |ps| && forall i :: 0 <= i < |ps| ==> r.value[i] == Lookup(g, ps[i]).value
  {
    if ps == [] then Some([])
    else
      var q, qs := Lookup(g, ps[0]), LookupAll(g, ps[1..]);
      assert forall i :: 1 <= i < |ps| ==> ps[i] == ps[1..][i - 1];
      if q.Some? && qs.Some? then Some([q.value] + qs.value) else None
  }

  /** Going north from the top row reaches the bottom row, as Python's index -1 does. */
  lemma LookupWrapsNorth(g: Grid, x: int)
    requires |g| >= 1 && 0 <= x < |g[|g| - 1]|
    ensures Lookup(g, Vec2(x, -1)) == Some(Vec2(x, |g| - 1))
  {
  }

  /** `getConnectionFields`: the fields the openings lead to (as positions); an opening that leaves the map raises. */
  function ConnectionFields(g: Grid, f: Field): (r: Result<seq<Vec2>>)
    ensures r.Ok? ==> |r.value| == |f.connections| && forall q :: q in r.value ==> InBounds(g, q)
  {
    match LookupAll(g, ConnectionPositions(f))
    case None => Err("IndexError")
    case Some(qs) => Ok(qs)
  }

  /**
   * The connection fields exist exactly when every opening can be looked up; each is the
   * field its opening leads to, and away from the edges they are just the opening positions.
   */
  lemma ConnectionFieldsSpec(g: Grid, f: Field)
    ensures ConnectionFields(g, f).Ok? <==> forall i :: 0 <= i < |f.connections| ==> Lookup(g, f.pos.Add(f.connections[i])).Some?
    ensures ConnectionFields(g, f).Ok? ==> forall i :: 0 <= i < |f.connections| ==>
              ConnectionFields(g, f).value[i] == Lookup(g, f.pos.Add(f.connections[i])).value
    ensures (forall q :: q in ConnectionPositions(f) ==> InBounds(g, q)) ==> ConnectionFields(g, f) == Ok(ConnectionPositions(f))
  {
    var ps := ConnectionPositions(f);
    if forall q :: q in ps ==> InBounds(g, q) {
      forall i | 0 <= i < |ps| ensures Lookup(g, ps[i]) == Some(ps[i]) {
        assert ps[i] in ps;
      }
      assert LookupAll(g, ps).value == ps;
    }
  }

  /** `Map.getNeighbors`: the in-bounds fields next to `p`, in the order north, east, south, west. */
  function MapNeighbors(g: Grid, p: Vec2): (r: seq<Vec2>)
    ensures |r| <= 4 && forall q :: q in r <==> InBounds(g, q) && Adjacent(p, q)
  {
    Neighbors(g, p)
  }

  predicate Distinct<T(==)>(s: seq<T>)
  {
    forall i, j :: 0 <= i < j < |s| ==> s[i] != s[j]
  }

  /** After removing the first `x` from a sequence without repetitions, `x` is gone. */
  lemma RemoveFirstDistinct<T>(s: seq<T>, x: T)
    requires x in s && Distinct(s)
    ensures x !in Lists.RemoveFirst(s, x)
  {
    var r := Lists.RemoveFirst(s, x);
    var i := Lists.FirstIndex(s, x);
    forall k | 0 <= k < |r| ensures r[k] != x {
      if k < i { assert r[k] == s[k]; } else { assert r[k] == s[k + 1]; }
    }
  }

  /**
   * `getNextField`: the first field `current` leads to once `last` is removed from the
   * candidates. Removing `last` raises when it is not a candidate; nothing left raises too.
   */
  function NextField(g: Grid, current: Vec2, last: Vec2): (r: Result<Vec2>)
    ensures r.Ok? ==> InBounds(g, r.value)
  {
    if !InBounds(g, current) then Err("IndexError") else
    match ConnectionFields(g, At(g, current))
    case Err(e) => Err(e)
    case Ok(candidates) =>
      if last !in candidates then Err("ValueError")
      else
        var rest := Lists.RemoveFirst(candidates, last);
        if rest == [] then Err("No candidates found") else Ok(rest[0])
  }

  /**
   * The next field exists exactly when the connection fields do, `last` is one of them and
   * there are at least two; it is one of them, and other than `last` when they are distinct.
   */
  lemma NextFieldSpec(g: Grid, current: Vec2, last: Vec2)
    requires InBounds(g, current)
    ensures var cands := ConnectionFields(g, At(g, current));
            NextField(g, current, last).Ok? <==> cands.Ok? && last in cands.value && |cands.value| >= 2
    ensures var cands := ConnectionFields(g, At(g, current));
            NextField(g, current, last).Ok? ==> NextField(g, current, last).value in cands.value
    ensures var cands := ConnectionFields(g, At(g, current));
            NextField(g, current, last).Ok? && Distinct(cands.value) ==> NextField(g, current, last).value != last
  {
    var cands := ConnectionFields(g, At(g, current));
    if cands.Ok? && last in cands.value && |cands.value| >= 2 {
      var rest := Lists.RemoveFirst(cands.value, last);
      assert rest[0] in cands.value by {
        if Lists.FirstIndex(cands.value, last) == 0 { assert rest[0] == cands.value[1]; } else { assert rest[0] == cands.value[0]; }
      }
      if Distinct(cands.value) { RemoveFirstDistinct(cands.value, last); }
    }
  }

  // ------------------------------------------------------------------ connecting the start

  /** The start at `s` accepts direction `d`: the neighbour that way is on the map and opens back towards `s`. */
  predicate Accepts(g: Grid, s: Vec2, d: Vec2)
  {
    InBounds(g, s.Add(d)) && d.Neg() in At(g, s.Add(d)).connections
  }

  /** The directions among `ds`, in order, that the start at `s` accepts. */
  function AcceptedAmong(g: Grid, s: Vec2, ds: seq<Vec2>): seq<Vec2>
  {
    if ds == [] then []
    else AcceptedAmong(g, s, ds[..|ds| - 1]) + (if Accepts(g, s, ds[|ds| - 1]) then [ds[|ds| - 1]] else [])
  }

  /** Exactly the accepted directions of `ds` are kept, each as often as in `ds`. */
  lemma {:induction false} AcceptedAmongSpec(g: Grid, s: Vec2, ds: seq<Vec2>)
    ensures forall d :: d in AcceptedAmong(g, s, ds) <==> d in ds && Accepts(g, s, d)
    ensures |AcceptedAmong(g, s, ds)| <= |ds|
    ensures Distinct(ds) ==> Distinct(AcceptedAmong(g, s, ds))
  {
    if ds != [] {
      var front := ds[..|ds| - 1];
      AcceptedAmongSpec(g, s, front);
      assert ds == front + [ds[|ds| - 1]];
      assert Distinct(ds) ==> Distinct(front) && ds[|ds| - 1] !in front;
    }
  }

  /** The connections `connectStart` appends to the start. */
  function StartLinks(g: Grid, s: Vec2): seq<Vec2>
  {
    AcceptedAmong(g, s, Compass)
  }

  /** The start gets exactly the compass directions it accepts, each once. */
  lemma StartLinksAccepted(g: Grid, s: Vec2)
    ensures forall d :: d in StartLinks(g, s) <==> d in Compass && Accepts(g, s, d)
    ensures Distinct(StartLinks(g, s)) && |StartLinks(g, s)| <= 4
  {
    AcceptedAmongSpec(g, s, Compass);
  }

  predicate SameShape(g0: Grid, g1: Grid)
  {
    |g1| == |g0| && forall y :: 0 <= y < |g0| ==> |g1[y]| == |g0[y]|
  }

  lemma SameShapeInBounds(g0: Grid, g1: Grid, p: Vec2)
    requires SameShape(g0, g1)
    ensures InBounds(g1, p) <==> InBounds(g0, p)
  {
  }

  /** The grid with the field at `p` replaced. */
  function Update(g: Grid, p: Vec2, f: Field): (r: Grid)
    requires InBounds(g, p)
    ensures SameShape(g, r) && At(r, p) == f
  {
    g[p.y := g[p.y][p.x := f]]
  }

  /** One more compass direction considered: it is kept when the start accepts it. */
  lemma AcceptedSnoc(g: Grid, s: Vec2, i: nat)
    requires i < 4
    ensures AcceptedAmong(g, s, Compass[..i + 1])
      == AcceptedAmong(g, s, Compass[..i]) + (if Accepts(g, s, Compass[i]) then [Compass[i]] else [])
  {
    assert Compass[..i + 1][..i] == Compass[..i];
  }

  /** Replacing the start by a field with the same position that is still a start keeps the map valid. */
  lemma UpdateKeepsStart(g: Grid, p: Vec2, f: Field)
    requires WellPlaced(g) && InBounds(g, p) && At(g, p).isStart
    requires f.pos == At(g, p).pos && f.isStart
    ensures WellPlaced(Update(g, p, f)) && InBounds(Update(g, p, f), p) && At(Update(g, p, f), p).isStart
  {
    var r: Grid := Update(g, p, f);
    forall y: int, x: int | 0 <= y < |r| && 0 <= x < |r[y]|
      ensures r[y][x].pos == Vec2(x, y)
    {
      if y != p.y || x != p.x {
        assert r[y][x] == g[y][x];
      }
    }
  }

  /** Replacing one field leaves the others as they were. */
  lemma UpdateOthers(g: Grid, p: Vec2, f: Field, q: Vec2)
    requires InBounds(g, p) && InBounds(g, q) && q != p
    ensures At(Update(g, p, f), q) == At(g, q)
  {
  }

  /** What the start accepts does not depend on the start field itself. */
  lemma {:induction false} AcceptedAmongUpdate(g: Grid, s: Vec2, f: Field, ds: seq<Vec2>)
    requires InBounds(g, s) && forall i :: 0 <= i < |ds| ==> ds[i] != Vec2(0, 0)
    ensures AcceptedAmong(Update(g, s, f), s, ds) == AcceptedAmong(g, s, ds)
  {
    if ds != [] {
      var d := ds[|ds| - 1];
      var h := Update(g, s, f);
      SameShapeInBounds(g, h, s.Add(d));
      if InBounds(g, s.Add(d)) {
        UpdateOthers(g, s, f, s.Add(d));
      }
      AcceptedAmongUpdate(g, s, f, ds[..|ds| - 1]);
    }
  }

  /** The grid with the field at `p` marked as part of the main loop. */
  function Mark(g: Grid, p: Vec2): (r: Grid)
    requires InBounds(g, p)
    ensures SameShape(g, r)
  {
    Update(g, p, At(g, p).(isMainLoop := true))
  }

  /** The grid with the fields at `ps` marked, one after the other, as `createLoop` marks them. */
  function MarkAll(g: Grid, ps: seq<Vec2>): (r: Grid)
    requires forall q :: q in ps ==> InBounds(g, q)
    ensures SameShape(g, r)
  {
    if ps == [] then g
    else
      var h := MarkAll(g, ps[..|ps| - 1]);
      assert ps[|ps| - 1] in ps;
      SameShapeInBounds(g, h, ps[|ps| - 1]);
      Mark(h, ps[|ps| - 1])
  }

  /** Marking sets `isMainLoop` exactly on the marked fields and changes nothing else. */
  lemma {:induction false} MarkAllSpec(g: Grid, ps: seq<Vec2>, q: Vec2)
    requires forall p :: p in ps ==> InBounds(g, p)
    requires InBounds(g, q)
    ensures At(MarkAll(g, ps), q) == At(g, q).(isMainLoop := At(g, q).isMainLoop || q in ps)
  {
    if ps != [] {
      var front := ps[..|ps| - 1];
      var last := ps[|ps| - 1];
      assert last in ps;
      assert forall p :: p in front ==> p in ps;
      var h := MarkAll(g, front);
      SameShapeInBounds(g, h, last);
      SameShapeInBounds(g, h, q);
      MarkAllSpec(g, front, q);
      assert q in ps <==> q in front || q == ps[|ps| - 1];
      if q != ps[|ps| - 1] {
        UpdateOthers(h, ps[|ps| - 1], At(h, ps[|ps| - 1]).(isMainLoop := true), q);
      }
    }
  }

  /** The two maps have the same shape, and the same positions and connections everywhere. */
  ghost predicate SameConnections(g0: Grid, g1: Grid)
  {
    SameShape(g0, g1)
    && forall q :: InBounds(g0, q) ==> At(g1, q).pos == At(g0, q).pos && At(g1, q).connections == At(g0, q).connections
  }

  /** Marking changes no position or connection, and keeps the start field a start. */
  lemma MarkAllKeeps(g: Grid, ps: seq<Vec2>)
    requires forall p :: p in ps ==> InBounds(g, p)
    ensures SameConnections(g, MarkAll(g, ps))
    ensures WellPlaced(g) ==> WellPlaced(MarkAll(g, ps))
    ensures forall q :: InBounds(g, q) ==> At(MarkAll(g, ps), q).isStart == At(g, q).isStart
  {
    var r := MarkAll(g, ps);
    forall q | InBounds(g, q)
      ensures At(r, q).pos == At(g, q).pos && At(r, q).connections == At(g, q).connections && At(r, q).isStart == At(g, q).isStart
    {
      MarkAllSpec(g, ps, q);
    }
    forall y, x | 0 <= y < |r| && 0 <= x < |r[y]| ensures r[y][x].pos == g[y][x].pos {
      assert InBounds(g, Vec2(x, y));
    }
  }

  /** A map with its start field stays so after marking. */
  lemma MarkAllValid(g: Grid, ps: seq<Vec2>, s: Vec2)
    requires forall p :: p in ps ==> InBounds(g, p)
    requires WellPlaced(g) && InBounds(g, s) && At(g, s).isStart
    ensures WellPlaced(MarkAll(g, ps)) && InBounds(MarkAll(g, ps), s) && At(MarkAll(g, ps), s).isStart
  {
    MarkAllKeeps(g, ps);
    SameShapeInBounds(g, MarkAll(g, ps), s);
  }

  /** Where the openings of a field lead depends only on the shape of the map. */
  lemma LookupAllShape(g0: Grid, g1: Grid, ps: seq<Vec2>)
    requires SameShape(g0, g1)
    ensures LookupAll(g1, ps) == LookupAll(g0, ps)
  {
    if ps != [] {
      assert Lookup(g1, ps[0]) == Lookup(g0, ps[0]);
      LookupAllShape(g0, g1, ps[1..]);
    }
  }

  /** The walk depends only on positions and connections, so marking does not change it. */
  lemma NextFieldSameConnections(g0: Grid, g1: Grid, current: Vec2, last: Vec2)
    requires SameConnections(g0, g1)
    ensures NextField(g1, current, last) == NextField(g0, current, last)
  {
    if InBounds(g0, current) {
      var f0, f1 := At(g0, current), At(g1, current);
      assert ConnectionPositions(f1) == ConnectionPositions(f0);
      LookupAllShape(g0, g1, ConnectionPositions(f0));
    }
  }

  lemma ConnectionFieldsMarkAll(g: Grid, ps: seq<Vec2>, p: Vec2)
    requires forall q :: q in ps ==> InBounds(g, q)
    requires InBounds(g, p)
    ensures InBounds(MarkAll(g, ps), p) && ConnectionFields(MarkAll(g, ps), At(MarkAll(g, ps), p)) == ConnectionFields(g, At(g, p))
  {
    var h := MarkAll(g, ps);
    MarkAllKeeps(g, ps);
    assert ConnectionPositions(At(h, p)) == ConnectionPositions(At(g, p));
    LookupAllShape(g, h, ConnectionPositions(At(g, p)));
  }

  lemma NextFieldMarkAll(g: Grid, ps: seq<Vec2>, current: Vec2, last: Vec2)
    requires forall p :: p in ps ==> InBounds(g, p)
    ensures NextField(MarkAll(g, ps), current, last) == NextField(g, current, last)
  {
    MarkAllKeeps(g, ps);
    NextFieldSameConnections(g, MarkAll(g, ps), current, last);
  }

  /** Where the walk came from when it stood on `nodes[i]`; the start counts as coming from `first`. */
  function CameFrom(nodes: seq<Vec2>, first: Vec2, i: nat): Vec2
    requires i < |nodes|
  {
    if i == 0 then first else nodes[i - 1]
  }

  /**
   * The walk `createLoop` performs in its first `|nodes|` steps, where `next(current, last)`
   * is the step function: it starts at `nodes[0]` having come from `first`, each step
   * follows `next`, and it has not come back to the start.
   */
  ghost predicate WalkSoFar(next: (Vec2, Vec2) -> Result<Vec2>, nodes: seq<Vec2>, first: Vec2)
  {
    |nodes| >= 1
    && (forall i :: 1 <= i < |nodes| ==> nodes[i] != nodes[0])
    && forall i :: 1 <= i < |nodes| ==> next(nodes[i - 1], CameFrom(nodes, first, i - 1)) == Ok(nodes[i])
  }

  /** The walk is complete: one more step brings it back to the start. */
  ghost predicate IsLoopWalk(next: (Vec2, Vec2) -> Result<Vec2>, nodes: seq<Vec2>, first: Vec2)
  {
    WalkSoFar(next, nodes, first) && next(nodes[|nodes| - 1], CameFrom(nodes, first, |nodes| - 1)) == Ok(nodes[0])
  }

  /**
   * The walk stopped without closing the loop: the next step raised `e`, or `fuel` steps were
   * taken and the next field is not yet the start.
   */
  ghost predicate StoppedShort(next: (Vec2, Vec2) -> Result<Vec2>, nodes: seq<Vec2>, first: Vec2, fuel: nat, e: string)
    requires |nodes| >= 1
  {
    var tail := next(nodes[|nodes| - 1], CameFrom(nodes, first, |nodes| - 1));
    (tail.Err? && e == tail.error)
    || (e == "step budget exhausted" && |nodes| == fuel + 1 && tail.Ok? && tail.value != nodes[0])
  }

  lemma WalkExtends(next: (Vec2, Vec2) -> Result<Vec2>, nodes: seq<Vec2>, first: Vec2, v: Vec2)
    requires WalkSoFar(next, nodes, first) && v != nodes[0]
    requires next(nodes[|nodes| - 1], CameFrom(nodes, first, |nodes| - 1)) == Ok(v)
    ensures WalkSoFar(next, nodes + [v], first)
  {
    var ns := nodes + [v];
    forall i | 1 <= i < |ns|
      ensures next(ns[i - 1], CameFrom(ns, first, i - 1)) == Ok(ns[i])
    {
      assert ns[i - 1] == nodes[i - 1] && CameFrom(ns, first, i - 1) == CameFrom(nodes, first, i - 1);
      if i < |nodes| {
        assert ns[i] == nodes[i];
      }
    }
  }

  /** The step function of the walk on the map `g`. */
  function Walker(g: Grid): (Vec2, Vec2) -> Result<Vec2>
  {
    (current, last) => NextField(g, current, last)
  }

  /**
   * The loop of `createLoop`: from `start`, having come from `first`, follows `NextField`
   * until it is back at `start`, marking each field it reaches. It yields the fields visited,
   * the marked map and the error a step raised, if any. The source has no step bound; `fuel`
   * bounds the number of steps.
   */
  method WalkLoop(g0: Grid, start: Vec2, first: Vec2, fuel: nat) returns (nodes: seq<Vec2>, g: Grid, err: Option<string>)
    requires InBounds(g0, start)
    ensures |nodes| >= 1 && nodes[0] == start && (forall q :: q in nodes ==> InBounds(g0, q)) && g == MarkAll(g0, nodes)
    ensures WalkSoFar(Walker(g0), nodes, first)
    ensures err.None? ==> IsLoopWalk(Walker(g0), nodes, first)
    ensures err.Some? ==> StoppedShort(Walker(g0), nodes, first, fuel, err.value)
  {
    nodes := [start];
    g := Mark(g0, start);
    assert g == MarkAll(g0, nodes);
    var current := start;
    var last := first;
    NextFieldMarkAll(g0, nodes, current, last);
    var next := NextField(g, current, last);
    var steps := 0;
    while next.Ok? && next.value != start
      invariant |nodes| >= 1 && nodes[0] == start && current == nodes[|nodes| - 1]
      invariant forall q :: q in nodes ==> InBounds(g0, q)
      invariant g == MarkAll(g0, nodes)
      invariant WalkSoFar(Walker(g0), nodes, first)
      invariant last == CameFrom(nodes, first, |nodes| - 1)
      invariant next == NextField(g0, current, last)
      invariant steps <= fuel && |nodes| == steps + 1
      decreases fuel - steps
    {
      if steps == fuel {
        return nodes, g, Some("step budget exhausted");
      }
      steps := steps + 1;
      var n := |nodes|;
      WalkExtends(Walker(g0), nodes, first, next.value);
      nodes := nodes + [next.value];
      last := current;
      current := next.value;
      assert nodes[..|nodes| - 1] == nodes[..n];
      g := Mark(g, current);
      NextFieldMarkAll(g0, nodes, current, last);
      next := NextField(g, current, last);
    }
    err := if next.Err? then Some(next.error) else None;
  }

  /**
   * The loop of `connectStart`: tries the neighbours of the start in the order N, E, S, W,
   * skipping those off the map, and keeps each direction whose neighbour opens back.
   */
  method CollectLinks(g: Grid, start: Vec2) returns (links: seq<Vec2>)
    ensures links == StartLinks(g, start)
  {
    links := [];
    for i := 0 to 4
      invariant links == AcceptedAmong(g, start, Compass[..i])
    {
      AcceptedSnoc(g, start, i);
      var d := Compass[i];
      var pos := start.Add(d);
      if pos.x < 0 || pos.y < 0 {
        continue;
      }
      if pos.y >= |g| || pos.x >= |g[pos.y]| {
        continue;
      }
      if d.Neg() in At(g, pos).connections {
        links := links + [d];
      }
    }
    assert Compass[..4] == Compass;
  }

  /**
   * How `createLoop` fails on the map `g` with its start at `start`, leaving the map `marked`:
   * the start's connection fields raise or there are none (the start alone is marked), or the
   * walk from the start stops short (every field it reached is marked).
   */
  ghost predicate LoopFailed(g: Grid, start: Vec2, fuel: nat, e: string, marked: Grid)
  {
    InBounds(g, start)
    && var cf := ConnectionFields(g, At(g, start));
    ((cf.Err? || |cf.value| == 0) && e == "IndexError" && marked == Mark(g, start))
    || (cf.Ok? && |cf.value| >= 1
        && exists nodes :: WalkSoFar(Walker(g), nodes, cf.value[0]) && nodes[0] == start
                           && (forall q :: q in nodes ==> InBounds(g, q))
                           && StoppedShort(Walker(g), nodes, cf.value[0], fuel, e) && marked == MarkAll(g, nodes))
  }

  /** The map: its fields (updated in place by `connectStart` and `createLoop`) and its start field. */
  class PipeMap {
    var fields: Grid
    var start: Vec2

    ghost predicate Valid()
      reads this
    {
      WellPlaced(fields) && InBounds(fields, start) && At(fields, start).isStart
    }

    constructor (fields: Grid, start: Vec2)
      requires WellPlaced(fields) && InBounds(fields, start) && At(fields, start).isStart
      ensures Valid() && this.fields == fields && this.start == start
    {
      this.fields := fields;
      this.start := start;
    }

    /**
     * `connectStart`: appends, in the order N, E, S, W, every direction whose in-bounds
     * neighbour opens back towards the start, then relabels the start with the matching pipe
     * symbol (keeping its symbol when no pair matches; nothing is raised).
     */
    method ConnectStart()
      requires Valid()
      modifies this
      ensures Valid() && start == old(start)
      ensures var s := old(At(fields, start));
              var conns := s.connections + StartLinks(old(fields), start);
              fields == Update(old(fields), start, s.(connections := conns, symbol := Relabel(conns, s.symbol)))
    {
      var links := CollectLinks(fields, start);
      var s := At(fields, start);
      var conns := s.connections + links;
      var f := s.(connections := conns, symbol := Relabel(conns, s.symbol));
      UpdateKeepsStart(fields, start, f);
      fields := Update(fields, start, f);
    }

    /**
     * `createLoop`: walks from the start (treating its first connection field as where it came
     * from) until it is back at the start, marks every visited field as on the main loop and
     * links one ring node per visited field, in visiting order. A start without connections
     * raises, as does any step of the walk.
     */
    method CreateLoop(fuel: nat) returns (r: Result<Ring>)
      requires Valid()
      modifies this
      ensures Valid() && start == old(start)
      ensures r.Ok? ==> fresh(r.value) && r.value.Valid() && r.value.nodes[0] == start
      ensures r.Ok? ==> ConnectionFields(old(fields), At(old(fields), start)).Ok?
                        && |At(old(fields), start).connections| >= 1
                        && IsLoopWalk(Walker(old(fields)), r.value.nodes, ConnectionFields(old(fields), At(old(fields), start)).value[0])
      ensures r.Ok? ==> (forall q :: q in r.value.nodes ==> InBounds(old(fields), q))
                        && fields == MarkAll(old(fields), r.value.nodes)
      ensures r.Err? ==> LoopFailed(old(fields), start, fuel, r.error, fields)
    {
      var g0 := fields;
      var conns := ConnectionFields(g0, At(g0, start));
      if conns.Err? || |conns.value| == 0 {
        assert MarkAll(g0, [start]) == Mark(g0, start);
        MarkAllValid(g0, [start], start);
        fields := Mark(g0, start);
        return Err("IndexError");
      }
      var nodes, g, err := WalkLoop(g0, start, conns.value[0], fuel);
      MarkAllValid(g0, nodes, start);
      fields := g;
      if err.Some? {
        return Err(err.value);
      }
      var ring := new Ring(nodes);
      r := Ok(ring);
    }
  }

  /** `g` has one field per character of `lines`, each as `readField` reads it. */
  ghost predicate ReadAs(lines: seq<string>, g: Grid)
  {
    |g| == |lines| && (forall y :: 0 <= y < |g| ==> |g[y]| == |lines[y]|)
    && forall y, x :: 0 <= y < |g| && 0 <= x < |g[y]| ==> ReadAt(lines, Vec2(x, y)) == Ok(g[y][x])
  }

  /** The start at `s` is connected to exactly the neighbours that open back towards it, and labelled accordingly. */
  ghost predicate StartConnected(g: Grid, s: Vec2)
  {
    InBounds(g, s) && At(g, s).connections == StartLinks(g, s) && At(g, s).symbol == Relabel(StartLinks(g, s), 'S')
    && At(g, s).pos == s && At(g, s).isStart && !At(g, s).isMainLoop
  }

  /** `g` is the map `readMap` returns for `lines`, with its start at `s`. */
  ghost predicate ConnectedMapOf(lines: seq<string>, g: Grid, s: Vec2)
  {
    |g| == |lines| && (forall y :: 0 <= y < |g| ==> |g[y]| == |lines[y]|)
    && InBounds(g, s) && lines[s.y][s.x] == 'S' && NoStartAfter(lines, s.x, s.y)
    && (forall y, x :: 0 <= y < |g| && 0 <= x < |g[y]| && Vec2(x, y) != s ==> ReadAt(lines, Vec2(x, y)) == Ok(g[y][x]))
    && StartConnected(g, s)
  }

  /** The start field as read: no connections yet. */
  lemma ReadStart(lines: seq<string>, g: Grid, s: Vec2)
    requires ReadAs(lines, g) && InBounds(g, s) && lines[s.y][s.x] == 'S'
    ensures At(g, s) == Field(s, [], true, false, 'S')
  {
    assert ReadAt(lines, s) == Ok(g[s.y][s.x]);
  }

  /** Replacing the start field keeps every other field as read. */
  lemma ReadAsExceptStart(lines: seq<string>, g: Grid, s: Vec2, f: Field)
    requires ReadAs(lines, g) && InBounds(g, s)
    ensures var g1 := Update(g, s, f);
            forall y, x :: 0 <= y < |g1| && 0 <= x < |g1[y]| && Vec2(x, y) != s ==> ReadAt(lines, Vec2(x, y)) == Ok(g1[y][x])
  {
    var g1 := Update(g, s, f);
    forall y, x | 0 <= y < |g1| && 0 <= x < |g1[y]| && Vec2(x, y) != s
      ensures ReadAt(lines, Vec2(x, y)) == Ok(g1[y][x])
    {
      assert InBounds(g, Vec2(x, y));
      UpdateOthers(g, s, f, Vec2(x, y));
    }
  }

  /** Connecting a start that has no connections yet gives it exactly the ones it accepts. */
  lemma ConnectFreshStart(g: Grid, s: Vec2)
    requires InBounds(g, s) && At(g, s) == Field(s, [], true, false, 'S')
    ensures var f := At(g, s);
            var conns := f.connections + StartLinks(g, s);
            StartConnected(Update(g, s, f.(connections := conns, symbol := Relabel(conns, f.symbol))), s)
  {
    var f := At(g, s);
    var conns := f.connections + StartLinks(g, s);
    assert conns == StartLinks(g, s);
    var f1 := f.(connections := conns, symbol := Relabel(conns, f.symbol));
    assert forall i :: 0 <= i < |Compass| ==> Compass[i] != Vec2(0, 0);
    AcceptedAmongUpdate(g, s, f1, Compass);
  }

  /** A read map has every field in its place. */
  lemma ReadAsWellPlaced(lines: seq<string>, g: Grid)
    requires ReadAs(lines, g)
    ensures WellPlaced(g)
  {
  }

  /**
   * `readMap`: reads the fields and connects the start. It raises exactly when a character
   * is unknown or there is no `S`; otherwise every field but the start is as read, and the
   * start, the last `S`, is connected to exactly the neighbours that open back towards it.
   */
  method ReadMap(lines: seq<string>) returns (r: Result<PipeMap>)
    ensures r.Ok? <==> (forall y, x :: 0 <= y < |lines| && 0 <= x < |lines[y]| ==> IsSymbol(lines[y][x]))
                       && (exists y, x :: 0 <= y < |lines| && 0 <= x < |lines[y]| && lines[y][x] == 'S')
    ensures r.Ok? ==> fresh(r.value) && r.value.Valid() && ConnectedMapOf(lines, r.value.fields, r.value.start)
  {
    var read := ReadGrid(lines);
    if read.Err? {
      return Err(read.error);
    }
    var (g, s) := read.value;
    assert ReadAs(lines, g);
    ReadAsWellPlaced(lines, g);
    assert ReadAt(lines, s) == Ok(g[s.y][s.x]);
    var m := new PipeMap(g, s);
    m.ConnectStart();
    ReadStart(lines, g, s);
    ConnectFreshStart(g, s);
    ReadAsExceptStart(lines, g, s, m.fields[s.y][s.x]);
    r := Ok(m);
  }

  // ------------------------------------------------------------------ the ring

  /** The distance of ring position `i` from the start, going either way round a ring of `n` nodes. */
  function RingDistance(n: nat, i: nat): nat
    requires i <= n
  {
    if i <= n - i then i else n - i
  }

  /** The farthest point of the loop is half its length away. */
  lemma FarthestRingDistance(n: nat)
    requires n >= 1
    ensures forall i :: 0 <= i < n ==> RingDistance(n, i) <= n / 2
    ensures RingDistance(n, n / 2) == n / 2
  {
  }

  /**
   * The doubly linked ring of `createLoop`: node `i` stands on field `nodes[i]`, node 0 is the
   * start node, and `child`/`parent` hold the indices of the next and previous nodes.
   */
  class Ring {
    var nodes: seq<Vec2>
    var parent: seq<int>
    var child: seq<int>
    var distance: seq<int>

    ghost predicate Valid()
      reads this
    {
      |nodes| >= 1 && |parent| == |nodes| && |child| == |nodes| && |distance| == |nodes|
      && (forall i :: 0 <= i < |nodes| ==> child[i] == if i + 1 < |nodes| then i + 1 else 0)
      && (forall i :: 0 <= i < |nodes| ==> parent[i] == if i == 0 then |nodes| - 1 else i - 1)
    }

    /** One node per field of `nodes`, each the child of the one before, the last linked back to the first; no distances yet. */
    constructor (nodes: seq<Vec2>)
      requires |nodes| >= 1
      ensures Valid() && this.nodes == nodes
      ensures forall i :: 0 <= i < |nodes| ==> distance[i] == -1
    {
      var n := |nodes|;
      this.nodes := nodes;
      this.parent := seq(n, i => if i == 0 then n - 1 else i - 1);
      this.child := seq(n, i => if i + 1 < n then i + 1 else 0);
      this.distance := seq(n, _ => -1);
    }

    /** The links are mutually inverse: a node's child has it as parent, and its parent has it as child. */
    lemma LinksInverse(i: int)
      requires Valid() && 0 <= i < |nodes|
      ensures 0 <= child[i] < |nodes| && parent[child[i]] == i
      ensures 0 <= parent[i] < |nodes| && child[parent[i]] == i
    {
    }

    /**
     * `assignDistances`: labels each node forward from the start with its position, then walks
     * backward lowering each label to the distance the other way round.
     */
    method AssignDistances()
      requires Valid()
      modifies this
      ensures Valid() && nodes == old(nodes) && parent == old(parent) && child == old(child)
      ensures forall i :: 0 <= i < |nodes| ==> distance[i] == RingDistance(|nodes|, i)
    {
      var n := |nodes|;
      // forward
      var current := 0;
      distance := distance[current := 0];
      while child[current] != 0
        invariant Valid() && nodes == old(nodes) && parent == old(parent) && child == old(child)
        invariant 0 <= current < n
        invariant forall i :: 0 <= i <= current ==> distance[i] == i
        decreases n - current
      {
        distance := distance[child[current] := distance[current] + 1];
        current := child[current];
      }
      // backward
      current := 0;
      while parent[current] != 0
        invariant Valid() && nodes == old(nodes) && parent == old(parent) && child == old(child)
        invariant 0 <= current < n
        invariant forall i :: 0 <= i < n ==> distance[i] == if i == 0 || (current != 0 && i >= current) then RingDistance(n, i) else i
        decreases if current == 0 then n else current
      {
        var p := parent[current];
        distance := distance[p := if distance[current] + 1 < distance[p] then distance[current] + 1 else distance[p]];
        current := p;
      }
    }

    /** `unwrapLoop`: every node exactly once, the start node first, in child order. */
    method Unwrap() returns (res: seq<nat>)
      requires Valid()
      ensures |res| == |nodes|
      ensures forall i :: 0 <= i < |res| ==> res[i] == i
    {
      res := [];
      var current := 0;
      while child[current] != 0 && child[current] >= 0
        invariant 0 <= current < |nodes|
        invariant |res| == current && forall i :: 0 <= i < current ==> res[i] == i
        decreases |nodes| - current
      {
        res := res + [current];
        current := child[current];
      }
      res := res + [current];
    }
  }
}
