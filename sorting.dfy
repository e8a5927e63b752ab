/**
 * A stable sort by an integer key, standing in for Python's `sorted(..., key=...)`
 * and `list.sort(key=...)` (both stable).
 */
module Sorting {
  import opened Lists

  predicate SortedBy<T>(s: seq<T>, key: T -> int)
  {
    forall i, j :: 0 <= i < j < |s| ==> key(s[i]) <= key(s[j])
  }

  /** Every element of `s` has a key of at least `k`. */
  predicate KeysAtLeast<T>(s: seq<T>, k: int, key: T -> int)
  {
    forall i :: 0 <= i < |s| ==> k <= key(s[i])
  }

  /** Inserts `x` after every element whose key is not greater than its own. */
  function InsertBy<T>(x: T, s: seq<T>, key: T -> int): (r: seq<T>)
    ensures multiset(r) == multiset(s) + multiset{x}
  {
    if s == [] then [x]
    else if key(x) < key(s[0]) then [x] + s
    else
      assert s == [s[0]] + s[1..];
      [s[0]] + InsertBy(x, s[1..], key)
  }

  lemma {:induction false} InsertByKeysAtLeast<T>(x: T, s: seq<T>, k: int, key: T -> int)
    requires KeysAtLeast(s, k, key) && k <= key(x)
    ensures KeysAtLeast(InsertBy(x, s, key), k, key)
  {
    if s != [] && key(x) >= key(s[0]) {
      InsertByKeysAtLeast(x, s[1..], k, key);
    }
  }

  lemma {:induction false} InsertBySorted<T>(x: T, s: seq<T>, key: T -> int)
    requires SortedBy(s, key)
    ensures SortedBy(InsertBy(x, s, key), key)
  {
    if s != [] && key(x) >= key(s[0]) {
      InsertBySorted(x, s[1..], key);
      InsertByKeysAtLeast(x, s[1..], key(s[0]), key);
    }
  }

  /** Sorts `s` by `key`; elements with equal keys keep their relative order. */
  function SortBy<T>(s: seq<T>, key: T -> int): (r: seq<T>)
    ensures multiset(r) == multiset(s)
    ensures |r| == |s|
  {
    if s == [] then []
    else
      var r := InsertBy(s[|s| - 1], SortBy(s[..|s| - 1], key), key);
      assert s == s[..|s| - 1] + [s[|s| - 1]];
      assert |r| == |multiset(r)|;
      r
  }

  lemma {:induction false} SortBySorted<T>(s: seq<T>, key: T -> int)
    ensures SortedBy(SortBy(s, key), key)
  {
    if s != [] {
      SortBySorted(s[..|s| - 1], key);
      InsertBySorted(s[|s| - 1], SortBy(s[..|s| - 1], key), key);
    }
  }

  /** Keys strictly increase along `s`. */
  predicate StrictlySortedBy<T>(s: seq<T>, key: T -> int)
  {
    forall i, j :: 0 <= i < j < |s| ==> key(s[i]) < key(s[j])
  }

  /** No two positions of `s` hold equal keys. */
  predicate DistinctKeys<T>(s: seq<T>, key: T -> int)
  {
    forall i, j :: 0 <= i < j < |s| ==> key(s[i]) != key(s[j])
  }

  lemma DistinctSorted<T>(s: seq<T>, key: T -> int)
    requires SortedBy(s, key) && DistinctKeys(s, key)
    ensures StrictlySortedBy(s, key)
  {
  }

  /** Distinct keys stay distinct when the elements are reordered. */
  lemma DistinctKeysPermutation<T>(a: seq<T>, b: seq<T>, key: T -> int)
    requires multiset(a) == multiset(b) && DistinctKeys(a, key)
    ensures DistinctKeys(b, key)
  {
    forall i, j | 0 <= i < j < |b|
      ensures key(b[i]) != key(b[j])
    {
      assert b[i] in multiset(a) && b[j] in multiset(a);
      var i' :| 0 <= i' < |a| && a[i'] == b[i];
      var j' :| 0 <= j' < |a| && a[j'] == b[j];
      if b[i] == b[j] {
        TwoPositions(b, i, j);
        TwiceFound(a, b[i]);
      } else {
        assert i' != j';
      }
    }
  }

  lemma SortedTail<T>(r: seq<T>, key: T -> int)
    requires r != [] && SortedBy(r, key)
    ensures SortedBy(r[1..], key)
  {
    forall i, j | 0 <= i < j < |r| - 1
      ensures key(r[1..][i]) <= key(r[1..][j])
    {
      assert r[1..][i] == r[i + 1] && r[1..][j] == r[j + 1];
    }
  }

  lemma StrictlySortedTail<T>(t: seq<T>, key: T -> int)
    requires t != [] && StrictlySortedBy(t, key)
    ensures StrictlySortedBy(t[1..], key)
  {
    forall i, j | 0 <= i < j < |t| - 1
      ensures key(t[1..][i]) < key(t[1..][j])
    {
      assert t[1..][i] == t[i + 1] && t[1..][j] == t[j + 1];
    }
  }

  lemma MultisetTail<T>(r: seq<T>)
    requires r != []
    ensures multiset(r[1..]) == multiset(r) - multiset{r[0]}
  {
    assert r == [r[0]] + r[1..];
  }

  /** Both lists start with the element of least key. */
  lemma SameHead<T>(r: seq<T>, t: seq<T>, key: T -> int)
    requires r != [] && multiset(r) == multiset(t) && SortedBy(r, key) && StrictlySortedBy(t, key)
    ensures t != [] && r[0] == t[0]
  {
    assert r[0] in multiset(t);
    var j :| 0 <= j < |t| && t[j] == r[0];
    assert t[0] in multiset(r);
    var i :| 0 <= i < |r| && r[i] == t[0];
    assert key(t[j]) <= key(t[0]);
  }

  /** A sorted list and a strictly sorted list with the same elements are equal. */
  lemma {:induction false} SortedEqual<T>(r: seq<T>, t: seq<T>, key: T -> int)
    requires multiset(r) == multiset(t) && SortedBy(r, key) && StrictlySortedBy(t, key)
    ensures r == t
    decreases |r|, 1
  {
    if r == [] {
      assert |t| == |multiset(t)| == 0;
    } else {
      SameHead(r, t, key);
      SortedEqualTails(r, t, key);
      assert r == [r[0]] + r[1..];
      assert t == [t[0]] + t[1..];
    }
  }

  lemma {:induction false} SortedEqualTails<T>(r: seq<T>, t: seq<T>, key: T -> int)
    requires r != [] && t != [] && r[0] == t[0]
    requires multiset(r) == multiset(t) && SortedBy(r, key) && StrictlySortedBy(t, key)
    ensures r[1..] == t[1..]
    decreases |r|, 0
  {
    MultisetTail(r);
    MultisetTail(t);
    SortedTail(r, key);
    StrictlySortedTail(t, key);
    SortedEqual(r[1..], t[1..], key);
  }

  /** Keys that grow from each element to the next grow from any element to any later one. */
  lemma {:induction false} ChainStep<T>(t: seq<T>, key: T -> int, i: nat, j: nat)
    requires i < j < |t| && forall k :: 0 <= k < |t| - 1 ==> key(t[k]) < key(t[k + 1])
    ensures key(t[i]) < key(t[j])
    decreases j - i
  {
    if i + 1 < j {
      ChainStep(t, key, i + 1, j);
    }
  }

  lemma StrictlySortedChain<T>(t: seq<T>, key: T -> int)
    requires forall k :: 0 <= k < |t| - 1 ==> key(t[k]) < key(t[k + 1])
    ensures StrictlySortedBy(t, key)
  {
    forall i, j | 0 <= i < j < |t|
      ensures key(t[i]) < key(t[j])
    {
      ChainStep(t, key, i, j);
    }
  }

  /** With distinct keys the sorted order is the only one: a strictly sorted rearrangement is the result. */
  lemma SortByUnique<T>(s: seq<T>, t: seq<T>, key: T -> int)
    requires multiset(s) == multiset(t) && StrictlySortedBy(t, key)
    ensures SortBy(s, key) == t
  {
    SortBySorted(s, key);
    SortedEqual(SortBy(s, key), t, key);
  }

  /** A rearrangement whose keys grow from each element to the next is the sorted order. */
  lemma SortByChain<T>(s: seq<T>, t: seq<T>, key: T -> int)
    requires multiset(s) == multiset(t)
    requires forall k :: 0 <= k < |t| - 1 ==> key(t[k]) < key(t[k + 1])
    ensures SortBy(s, key) == t
  {
    StrictlySortedChain(t, key);
    SortByUnique(s, t, key);
  }

  /** Five elements whose keys increase, in that order, are the sorted rearrangement. */
  lemma SortByFive<T>(s: seq<T>, a: T, b: T, c: T, d: T, e: T, key: T -> int)
    requires multiset(s) == multiset([a, b, c, d, e])
    requires key(a) < key(b) < key(c) < key(d) < key(e)
    ensures SortBy(s, key) == [a, b, c, d, e]
  {
    var t := [a, b, c, d, e];
    assert key(t[0]) < key(t[1]) < key(t[2]) < key(t[3]) < key(t[4]);
    SortByChain(s, t, key);
  }

  /** How many elements of `s` have a key below `k`. */
  function Below<T>(s: seq<T>, key: T -> int, k: int): int
  {
    SumOf(s, x => if key(x) < k then 1 else 0)
  }

  /** One plus the number of elements ranked below `x`: its place, counted from 1, in a sorted `s`. */
  function Rank<T>(s: seq<T>, key: T -> int, x: T): int
  {
    1 + Below(s, key, key(x))
  }

  lemma RankPermutation<T>(a: seq<T>, b: seq<T>, key: T -> int, x: T)
    requires multiset(a) == multiset(b)
    ensures Rank(a, key, x) == Rank(b, key, x)
  {
    SumOfPermutation(a, b, y => if key(y) < key(x) then 1 else 0);
  }

  /** In a strictly sorted list the element at `i` has rank `i + 1`. */
  lemma RankSorted<T>(t: seq<T>, key: T -> int, i: nat)
    requires i < |t| && StrictlySortedBy(t, key)
    ensures Rank(t, key, t[i]) == i + 1
  {
    var f := y => if key(y) < key(t[i]) then 1 else 0;
    assert t == t[..i] + t[i..];
    SumOfAppend(t[..i], t[i..], f);
    forall k | 0 <= k < i
      ensures f(t[..i][k]) == 1
    {
      assert t[..i][k] == t[k];
    }
    forall k | 0 <= k < |t| - i
      ensures f(t[i..][k]) == 0
    {
      assert t[i..][k] == t[i + k];
      assert k == 0 || key(t[i]) < key(t[i + k]);
    }
    SumOfConstant(t[..i], f, 1);
    SumOfConstant(t[i..], f, 0);
  }
}
