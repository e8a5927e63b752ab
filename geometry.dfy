/** Integer 2-D vectors, as used by the grid puzzles for positions and directions. */
module Geometry {
  import opened Wrappers

  datatype Vec2 = Vec2(x: int, y: int)
  {
    function Add(o: Vec2): Vec2 { Vec2(x + o.x, y + o.y) }
    function Sub(o: Vec2): Vec2 { Vec2(x - o.x, y - o.y) }
    function Neg(): Vec2 { Vec2(-x, -y) }
    function Scale(k: int): Vec2 { Vec2(k * x, k * y) }
  }

  function Abs(n: int): nat
  {
    if n < 0 then -n else n
  }

  /** The Manhattan (taxicab) distance. */
  function Manhattan(a: Vec2, b: Vec2): nat
  {
    Abs(a.x - b.x) + Abs(a.y - b.y)
  }

  /** Two positions are 4-adjacent when they differ by one in exactly one coordinate. */
  predicate Adjacent(a: Vec2, b: Vec2)
  {
    Manhattan(a, b) == 1
  }

  /** Python's `s[i]` on a sequence of length `n`: negative indices count from the end. */
  function PyIndex(i: int, n: nat): (r: Option<nat>)
    ensures r.Some? <==> -(n as int) <= i < n
    ensures r.Some? ==> r.value < n && (r.value == i || r.value == n + i)
    ensures 0 <= i < n ==> r == Some(i)
  {
    if 0 <= i < n then Some(i) else if -(n as int) <= i < 0 then Some(n + i) else None
  }

  /** In bounds of a grid of rows, which may have different lengths. */
  predicate InBounds<T>(g: seq<seq<T>>, p: Vec2)
  {
    0 <= p.y < |g| && 0 <= p.x < |g[p.y]|
  }

  /** The positions among `ps` that lie in the grid, in order. */
  function KeepInBounds<T>(g: seq<seq<T>>, ps: seq<Vec2>): (r: seq<Vec2>)
    ensures forall q :: q in r <==> q in ps && InBounds(g, q)
    ensures |r| <= |ps|
    ensures |r| == |ps| <==> forall q :: q in ps ==> InBounds(g, q)
  {
    if ps == [] then []
    else (if InBounds(g, ps[0]) then [ps[0]] else []) + KeepInBounds(g, ps[1..])
  }

  /** The four positions next to `p`, north, east, south and west, in that order. */
  function Around(p: Vec2): seq<Vec2>
  {
    [Vec2(p.x, p.y - 1), Vec2(p.x + 1, p.y), Vec2(p.x, p.y + 1), Vec2(p.x - 1, p.y)]
  }

  /** The positions next to `p` are exactly the 4-adjacent ones. */
  lemma AroundAdjacent(p: Vec2, q: Vec2)
    ensures q in Around(p) <==> Adjacent(p, q)
  {
    if Adjacent(p, q) {
      if p.x == q.x {
        assert q == Vec2(p.x, p.y - 1) || q == Vec2(p.x, p.y + 1);
      } else {
        assert q == Vec2(p.x + 1, p.y) || q == Vec2(p.x - 1, p.y);
      }
    }
  }

  /** `getNeighbors`: the in-bounds positions next to `p`, in compass order. */
  function Neighbors<T>(g: seq<seq<T>>, p: Vec2): (r: seq<Vec2>)
    ensures |r| <= 4
    ensures forall q :: q in r <==> InBounds(g, q) && Adjacent(p, q)
    ensures |r| == 4 <==> InBounds(g, Vec2(p.x, p.y - 1)) && InBounds(g, Vec2(p.x + 1, p.y))
                          && InBounds(g, Vec2(p.x, p.y + 1)) && InBounds(g, Vec2(p.x - 1, p.y))
  {
    var r := KeepInBounds(g, Around(p));
    forall q ensures q in r <==> InBounds(g, q) && Adjacent(p, q) {
      AroundAdjacent(p, q);
    }
    r
  }
}
