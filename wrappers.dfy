/** Optional values and results with an error name, standing in for Python's None and raised exceptions. */
module Wrappers {

  datatype Option<T> = None | Some(value: T)

  /** `Err` carries the name of the exception (or failure) the source raises. */
  datatype Result<T> = Ok(value: T) | Err(error: string)

  /** A list comprehension whose body may raise: every element mapped in order, or the first element's error. */
  function MapAll<A, B>(xs: seq<A>, f: A -> Result<B>): (r: Result<seq<B>>)
    ensures r.Ok? <==> forall k :: 0 <= k < |xs| ==> f(xs[k]).Ok?
    ensures r.Ok? ==> |r.value| == |xs| && forall k :: 0 <= k < |xs| ==> f(xs[k]) == Ok(r.value[k])
    ensures r.Err? ==> exists k :: 0 <= k < |xs| && f(xs[k]) == Err(r.error) && forall j :: 0 <= j < k ==> f(xs[j]).Ok?
  {
    if xs == [] then Ok([])
    else
      assert forall k :: 1 <= k < |xs| ==> xs[k] == xs[1..][k - 1];
      match f(xs[0])
      case Err(e) => Err(e)
      case Ok(y) =>
        match MapAll(xs[1..], f)
        case Err(e) =>
          var k :| 0 <= k < |xs[1..]| && f(xs[1..][k]) == Err(e) && forall j :: 0 <= j < k ==> f(xs[1..][j]).Ok?;
          assert f(xs[k + 1]) == Err(e);
          Err(e)
        case Ok(ys) => Ok([y] + ys)
  }

  /** Mapping a concatenation: the first part's error, else the second part's, else both results in order. */
  lemma {:induction false} MapAllAppend<A, B>(a: seq<A>, b: seq<A>, f: A -> Result<B>)
    ensures MapAll(a + b, f) ==
      match MapAll(a, f)
      case Err(e) => Err(e)
      case Ok(u) => (match MapAll(b, f) case Err(e) => Err(e) case Ok(v) => Ok(u + v))
    decreases |a|
  {
    if a == [] {
      assert a + b == b;
      assert MapAll(a, f) == Ok([]);
      match MapAll(b, f)
      case Err(e) =>
      case Ok(v) => assert [] + v == v;
    } else {
      assert (a + b)[0] == a[0] && (a + b)[1..] == a[1..] + b;
      MapAllAppend(a[1..], b, f);
      match f(a[0])
      case Err(e) =>
      case Ok(y) =>
        match MapAll(a[1..], f)
        case Err(e) =>
        case Ok(u) =>
          match MapAll(b, f)
          case Err(e) =>
          case Ok(v) =>
            assert [y] + (u + v) == ([y] + u) + v;
    }
  }

  /** Mapping one more element. */
  lemma MapAllSnoc<A, B>(a: seq<A>, x: A, f: A -> Result<B>)
    ensures MapAll(a + [x], f) ==
      match MapAll(a, f)
      case Err(e) => Err(e)
      case Ok(u) => (match f(x) case Err(e) => Err(e) case Ok(v) => Ok(u + [v]))
  {
    MapAllAppend(a, [x], f);
    assert [x][1..] == [];
    assert MapAll([x][1..], f) == Ok([]);
    match f(x)
    case Err(e) =>
    case Ok(v) => assert [v] + [] == [v];
    assert MapAll([x], f) == match f(x) case Err(e) => Err(e) case Ok(v) => Ok([v]);
  }

  /** When every element maps to the matching value, the whole list maps to the list of values. */
  lemma MapAllPointwise<A, B>(xs: seq<A>, f: A -> Result<B>, vs: seq<B>)
    requires |xs| == |vs| && forall k :: 0 <= k < |xs| ==> f(xs[k]) == Ok(vs[k])
    ensures MapAll(xs, f) == Ok(vs)
  {
    var r := MapAll(xs, f);
    assert r.Ok?;
    assert |r.value| == |vs| && forall k :: 0 <= k < |vs| ==> r.value[k] == vs[k];
    assert r.value == vs;
  }

  /** A failing prefix decides the result. */
  lemma MapAllPrefixErr<A, B>(a: seq<A>, b: seq<A>, f: A -> Result<B>)
    requires MapAll(a, f).Err?
    ensures MapAll(a + b, f) == MapAll(a, f)
  {
    MapAllAppend(a, b, f);
  }

  /** A failing prefix decides the result of any list it begins. */
  lemma MapAllPrefixOfErr<A, B>(a: seq<A>, b: seq<A>, f: A -> Result<B>)
    requires a <= b && MapAll(a, f).Err?
    ensures MapAll(b, f) == MapAll(a, f)
  {
    assert b == a + b[|a|..];
    MapAllPrefixErr(a, b[|a|..], f);
  }

  /** A loop that mapped every element mapped the whole list. */
  lemma MapAllDone<A, B>(xs: seq<A>, f: A -> Result<B>, acc: seq<B>)
    requires MapAll(xs[..|xs|], f) == Ok(acc)
    ensures MapAll(xs, f) == Ok(acc)
  {
    assert xs[..|xs|] == xs;
  }

  /** One more element of a loop that maps a list and stops at the first error. */
  lemma MapAllStep<A, B>(xs: seq<A>, i: nat, f: A -> Result<B>, acc: seq<B>)
    requires i < |xs| && MapAll(xs[..i], f) == Ok(acc)
    ensures f(xs[i]).Err? ==> MapAll(xs, f) == Err(f(xs[i]).error)
    ensures f(xs[i]).Ok? ==> MapAll(xs[..i + 1], f) == Ok(acc + [f(xs[i]).value])
  {
    assert xs[..i + 1] == xs[..i] + [xs[i]];
    MapAllSnoc(xs[..i], xs[i], f);
    if f(xs[i]).Err? {
      MapAllPrefixOfErr(xs[..i + 1], xs, f);
    }
  }

  /** A comprehension over `enumerate(xs[..n])` whose body may raise: every element mapped with its position, or the first error. */
  function MapIndexed<A, B>(xs: seq<A>, n: nat, f: (A, nat) -> Result<B>): (r: Result<seq<B>>)
    requires n <= |xs|
    ensures r.Ok? <==> forall k :: 0 <= k < n ==> f(xs[k], k).Ok?
    ensures r.Ok? ==> |r.value| == n && forall k :: 0 <= k < n ==> f(xs[k], k) == Ok(r.value[k])
  {
    if n == 0 then Ok([])
    else
      match MapIndexed(xs, n - 1, f)
      case Err(e) => Err(e)
      case Ok(ys) =>
        match f(xs[n - 1], n - 1)
        case Err(e) => Err(e)
        case Ok(y) => Ok(ys + [y])
  }
}
