/**
 * Day 13: blocks of `#` and `.` with lines of reflection. A "row mirror" at `idx` is a vertical line
 * between characters `idx - 1` and `idx` of a row; the mirrors of a block's transpose are its
 * horizontal lines. The value of a block is the sum of its row mirrors plus 100 times the sum of its
 * column mirrors.
 */
module Day13Mirrors {
  import opened Wrappers
  import opened Strings
  import opened Lists

  type Block = seq<string>

  /** The row and column mirrors of one block. */
  type Mirrors = (seq<nat>, seq<nat>)

  function Min(a: nat, b: nat): nat
  {
    if a <= b then a else b
  }

  predicate Increasing(s: seq<nat>)
  {
    forall i, j :: 0 <= i < j < |s| ==> s[i] < s[j]
  }

  // ---------------------------------------------------------------- one row

  /** `splitAt`: Python's `row[:idx], row[idx:]`; a cut past the end leaves the whole row in front. */
  function SplitAt(row: string, idx: nat): (parts: (string, string))
    ensures parts.0 + parts.1 == row
    ensures |parts.0| == Min(idx, |row|)
  {
    var k := Min(idx, |row|);
    (row[..k], row[k..])
  }

  /** Python's `s[::-1]`. */
  function Reverse(s: string): string
  {
    ReverseIn(s, |s|)
  }

  /** The first `n` characters of `s`, last first. */
  function ReverseIn(s: string, n: nat): string
    requires n <= |s|
  {
    if n == 0 then [] else [s[n - 1]] + ReverseIn(s, n - 1)
  }

  lemma {:induction false} ReverseInSpec(s: string, n: nat)
    requires n <= |s|
    ensures |ReverseIn(s, n)| == n && forall i :: 0 <= i < n ==> ReverseIn(s, n)[i] == s[n - 1 - i]
  {
    if n > 0 {
      ReverseInSpec(s, n - 1);
    }
  }

  /** Character `i` of the reversal is character `i` from the end. */
  lemma ReverseSpec(s: string)
    ensures |Reverse(s)| == |s| && forall i :: 0 <= i < |s| ==> Reverse(s)[i] == s[|s| - 1 - i]
  {
    ReverseInSpec(s, |s|);
  }

  lemma ReverseTwice(s: string)
    ensures Reverse(Reverse(s)) == s
  {
    ReverseSpec(s);
    ReverseSpec(Reverse(s));
  }

  /** The first `n` characters of `p` and `a` agree (the loop of `isRowMirror` up to `n`). */
  predicate AgreeIn(p: string, a: string, n: nat)
    requires n <= |p| && n <= |a|
  {
    n == 0 || (AgreeIn(p, a, n - 1) && p[n - 1] == a[n - 1])
  }

  lemma {:induction false} AgreeInSpec(p: string, a: string, n: nat)
    requires n <= |p| && n <= |a|
    ensures AgreeIn(p, a, n) <==> forall i :: 0 <= i < n ==> p[i] == a[i]
  {
    if n > 0 {
      AgreeInSpec(p, a, n - 1);
    }
  }

  /** `isRowMirror`: the reversed part before `idx` and the part after it agree on their common length. */
  predicate IsRowMirror(row: string, idx: nat)
  {
    var parts := SplitAt(row, idx);
    var rev := Reverse(parts.0);
    AgreeIn(rev, parts.1, Min(|rev|, |parts.1|))
  }

  /** A row mirrors at `idx` iff each character reflected across `idx` within the row is the same. */
  lemma IsRowMirrorSpec(row: string, idx: nat)
    ensures IsRowMirror(row, idx) <==> Reflects(row, idx)
  {
    var parts := SplitAt(row, idx);
    var rev := Reverse(parts.0);
    var n := Min(|rev|, |parts.1|);
    AgreeInSpec(rev, parts.1, n);
    if idx <= |row| {
      SplitReversed(row, idx);
      AgreeReflects(row, idx, rev, parts.1, n);
    } else {
      assert n == 0;
    }
  }

  /** After a cut inside the row, the reversed front and the back read outward from the cut. */
  lemma SplitReversed(row: string, idx: nat)
    requires idx <= |row|
    ensures var parts := SplitAt(row, idx); var rev := Reverse(parts.0);
      |rev| == idx && |parts.1| == |row| - idx
      && forall i :: 0 <= i < Min(idx, |row| - idx) ==> rev[i] == row[idx - 1 - i] && parts.1[i] == row[idx + i]
  {
    var parts := SplitAt(row, idx);
    ReverseSpec(parts.0);
    assert parts.0 == row[..idx] && parts.1 == row[idx..];
  }

  /** Every two characters of the row at the same distance from the cut `idx` are equal. */
  ghost predicate Reflects(row: string, idx: nat)
  {
    forall p, q :: 0 <= p < idx <= q < |row| && p + q == 2 * idx - 1 ==> row[p] == row[q]
  }

  lemma AgreeReflects(row: string, idx: nat, rev: string, post: string, n: nat)
    requires idx <= |row| && n == Min(idx, |row| - idx) && n <= |rev| && n <= |post|
    requires forall i :: 0 <= i < n ==> rev[i] == row[idx - 1 - i] && post[i] == row[idx + i]
    ensures (forall i :: 0 <= i < n ==> rev[i] == post[i]) <==> Reflects(row, idx)
  {
    if forall i :: 0 <= i < n ==> rev[i] == post[i] {
      forall p, q | 0 <= p < idx <= q < |row| && p + q == 2 * idx - 1
        ensures row[p] == row[q]
      {
        var i := idx - 1 - p;
        assert q == idx + i && i < n;
        assert rev[i] == post[i];
      }
    }
    if Reflects(row, idx) {
      forall i | 0 <= i < n
        ensures rev[i] == post[i]
      {
        var p, q := idx - 1 - i, idx + i;
        assert 0 <= p < idx <= q < |row| && p + q == 2 * idx - 1;
        assert row[p] == row[q];
      }
    }
  }

  /** `isRowMirror`'s loop: compares the reversed front with the back until the first difference. */
  method CheckRowMirror(row: string, idx: nat) returns (b: bool)
    ensures b == IsRowMirror(row, idx)
  {
    var parts := SplitAt(row, idx);
    var prev := Reverse(parts.0);
    var after := parts.1;
    var n := Min(|prev|, |after|);
    for i := 0 to n
      invariant AgreeIn(prev, after, i)
    {
      if prev[i] != after[i] {
        AgreeInSpec(prev, after, n);
        return false;
      }
    }
    return true;
  }

  /** The mirrors among the cuts 1 .. n - 1 of a row, ascending. */
  function MirrorsIn(row: string, n: nat): seq<nat>
    requires n <= |row|
  {
    if n <= 1 then [] else MirrorsIn(row, n - 1) + (if IsRowMirror(row, n - 1) then [n - 1] else [])
  }

  /** `findRowMirrors`. */
  function FindRowMirrors(row: string): seq<nat>
  {
    MirrorsIn(row, |row|)
  }

  /** `findRowMirrors`' loop: every cut from 1 to the row's length minus one that the row mirrors at. */
  method ScanRowMirrors(row: string) returns (res: seq<nat>)
    ensures res == FindRowMirrors(row)
  {
    res := [];
    if |row| <= 1 {
      return;
    }
    for i := 1 to |row|
      invariant res == MirrorsIn(row, i)
    {
      var mirror := CheckRowMirror(row, i);
      if mirror {
        res := res + [i];
      }
    }
  }

  lemma {:induction false} MirrorsInSpec(row: string, n: nat)
    requires n <= |row|
    ensures forall c :: c in MirrorsIn(row, n) <==> 1 <= c < n && IsRowMirror(row, c)
    ensures forall k :: 0 <= k < |MirrorsIn(row, n)| ==> MirrorsIn(row, n)[k] < n
    ensures Increasing(MirrorsIn(row, n))
  {
    if n > 1 {
      MirrorsInSpec(row, n - 1);
    }
  }

  /** The row mirrors of a row are exactly its cuts 1 .. len - 1 it mirrors at, ascending. */
  lemma FindRowMirrorsSpec(row: string)
    ensures forall c :: c in FindRowMirrors(row) <==> 1 <= c < |row| && IsRowMirror(row, c)
    ensures Increasing(FindRowMirrors(row))
  {
    MirrorsInSpec(row, |row|);
  }

  // ---------------------------------------------------------------- a block's row mirrors

  /** The first `n` candidates that `row` mirrors at, in order. */
  function KeepIn(cands: seq<nat>, row: string, n: nat): seq<nat>
    requires n <= |cands|
  {
    if n == 0 then [] else KeepIn(cands, row, n - 1) + (if IsRowMirror(row, cands[n - 1]) then [cands[n - 1]] else [])
  }

  /** `[c for c in candidates if isRowMirror(row, c)]`. */
  function KeepMirrors(cands: seq<nat>, row: string): seq<nat>
  {
    KeepIn(cands, row, |cands|)
  }

  lemma {:induction false} KeepInSpec(cands: seq<nat>, row: string, n: nat)
    requires n <= |cands|
    ensures forall c :: c in KeepIn(cands, row, n) <==> c in cands[..n] && IsRowMirror(row, c)
    ensures Increasing(cands) ==> Increasing(KeepIn(cands, row, n))
    ensures Increasing(cands) && n < |cands| ==> forall k :: 0 <= k < |KeepIn(cands, row, n)| ==> KeepIn(cands, row, n)[k] < cands[n]
  {
    if n > 0 {
      KeepInSpec(cands, row, n - 1);
      assert cands[..n] == cands[..n - 1] + [cands[n - 1]];
    }
  }

  /** Keeping the mirrors of a row keeps exactly the candidates it mirrors at, in their order. */
  lemma KeepMirrorsSpec(cands: seq<nat>, row: string)
    ensures forall c :: c in KeepMirrors(cands, row) <==> c in cands && IsRowMirror(row, c)
    ensures Increasing(cands) ==> Increasing(KeepMirrors(cands, row))
  {
    KeepInSpec(cands, row, |cands|);
    assert cands[..|cands|] == cands;
  }

  /** The candidates left after the first `n` rows of a block. */
  function BlockRowMirrorsIn(block: Block, n: nat): seq<nat>
    requires 1 <= n <= |block|
  {
    if n == 1 then FindRowMirrors(block[0]) else KeepMirrors(BlockRowMirrorsIn(block, n - 1), block[n - 1])
  }

  /** `findBlockRowMirrors`; an empty block raises IndexError at `block[0]`. */
  function BlockRowMirrors(block: Block): Result<seq<nat>>
  {
    if |block| == 0 then Err("IndexError") else Ok(BlockRowMirrorsIn(block, |block|))
  }

  /** `findBlockRowMirrors`: the mirrors of the first row, filtered by each later row. */
  method FindBlockRowMirrors(block: Block) returns (r: Result<seq<nat>>)
    ensures r == BlockRowMirrors(block)
  {
    if |block| == 0 {
      return Err("IndexError");
    }
    var candidates := ScanRowMirrors(block[0]);
    for k := 1 to |block|
      invariant candidates == BlockRowMirrorsIn(block, k)
    {
      candidates := KeepMirrors(candidates, block[k]);
    }
    return Ok(candidates);
  }

  lemma {:induction false} BlockRowMirrorsInSpec(block: Block, n: nat)
    requires 1 <= n <= |block|
    ensures forall c :: c in BlockRowMirrorsIn(block, n) <==> 1 <= c < |block[0]| && RowsMirror(block, n, c)
    ensures Increasing(BlockRowMirrorsIn(block, n))
  {
    if n == 1 {
      FindRowMirrorsSpec(block[0]);
      forall c: nat
        ensures c in BlockRowMirrorsIn(block, n) <==> 1 <= c < |block[0]| && RowsMirror(block, n, c)
      {
        RowsMirrorOne(block, c);
      }
    } else {
      var prev := BlockRowMirrorsIn(block, n - 1);
      BlockRowMirrorsInSpec(block, n - 1);
      KeepMirrorsSpec(prev, block[n - 1]);
      forall c: nat
        ensures c in BlockRowMirrorsIn(block, n) <==> 1 <= c < |block[0]| && RowsMirror(block, n, c)
      {
        RowsMirrorStep(block, n, c);
      }
    }
  }

  /** The first `n` rows of the block all mirror at `c`. */
  ghost predicate RowsMirror(block: Block, n: nat, c: nat)
    requires n <= |block|
  {
    forall r :: 0 <= r < n ==> IsRowMirror(block[r], c)
  }

  lemma RowsMirrorOne(block: Block, c: nat)
    requires 1 <= |block|
    ensures RowsMirror(block, 1, c) <==> IsRowMirror(block[0], c)
  {
  }

  lemma RowsMirrorStep(block: Block, n: nat, c: nat)
    requires 2 <= n <= |block|
    ensures RowsMirror(block, n, c) <==> RowsMirror(block, n - 1, c) && IsRowMirror(block[n - 1], c)
  {
  }

  /** A block's row mirrors are the cuts of its first row at which every row mirrors, ascending. */
  lemma BlockRowMirrorsSpec(block: Block)
    ensures BlockRowMirrors(block).Ok? <==> |block| > 0
    ensures BlockRowMirrors(block).Ok? ==>
      (forall c :: c in BlockRowMirrors(block).value <==> 1 <= c < |block[0]| && RowsMirror(block, |block|, c))
      && Increasing(BlockRowMirrors(block).value)
  {
    if |block| > 0 {
      BlockRowMirrorsInSpec(block, |block|);
    }
  }

  // ---------------------------------------------------------------- a block's column mirrors

  /** Every row is as long as the first, so `row[i]` exists for each column `i` of the first row. */
  predicate Transposable(block: Block)
  {
    |block| > 0 && forall r :: 0 <= r < |block| ==> |block[0]| <= |block[r]|
  }

  /** `"".join([row[i] for row in block[:n]])`: column `i` of the first `n` rows. */
  function ColumnIn(block: Block, i: nat, n: nat): string
    requires n <= |block| && forall j :: 0 <= j < n ==> i < |block[j]|
  {
    if n == 0 then [] else ColumnIn(block, i, n - 1) + [block[n - 1][i]]
  }

  lemma {:induction false} ColumnInSpec(block: Block, i: nat, n: nat)
    requires n <= |block| && forall j :: 0 <= j < n ==> i < |block[j]|
    ensures |ColumnIn(block, i, n)| == n && forall j :: 0 <= j < n ==> ColumnIn(block, i, n)[j] == block[j][i]
  {
    if n > 0 {
      ColumnInSpec(block, i, n - 1);
    }
  }

  /** The first `n` columns of a transposable block. */
  function TransposeIn(block: Block, n: nat): Block
    requires Transposable(block) && n <= |block[0]|
  {
    if n == 0 then [] else TransposeIn(block, n - 1) + [ColumnIn(block, n - 1, |block|)]
  }

  lemma {:induction false} TransposeInSpec(block: Block, n: nat)
    requires Transposable(block) && n <= |block[0]|
    ensures |TransposeIn(block, n)| == n && forall i :: 0 <= i < n ==> TransposeIn(block, n)[i] == ColumnIn(block, i, |block|)
  {
    if n > 0 {
      TransposeInSpec(block, n - 1);
    }
  }

  /** The transpose built in `findBlockColumnMirros`: one string per column of the first row; a short row raises IndexError. */
  function Transposed(block: Block): Result<Block>
  {
    if !Transposable(block) then Err("IndexError") else Ok(TransposeIn(block, |block[0]|))
  }

  /** The transpose has a row per column of the first row, holding that column top to bottom. */
  lemma TransposedSpec(block: Block)
    ensures Transposed(block).Ok? <==> Transposable(block)
    ensures Transposed(block).Ok? ==> var t := Transposed(block).value;
      |t| == |block[0]| && (forall i :: 0 <= i < |t| ==> |t[i]| == |block|)
      && forall i, j :: 0 <= i < |t| && 0 <= j < |block| ==> t[i][j] == block[j][i]
  {
    if Transposable(block) {
      TransposeInSpec(block, |block[0]|);
      forall i | 0 <= i < |block[0]| {
        ColumnInSpec(block, i, |block|);
      }
    }
  }

  /** `findBlockColumnMirros`: the row mirrors of the transpose. */
  function BlockColumnMirrors(block: Block): Result<seq<nat>>
  {
    match Transposed(block)
    case Err(e) => Err(e)
    case Ok(t) => BlockRowMirrors(t)
  }

  /** `findBlockColumnMirros`: the transpose is built column by column, then its row mirrors found. */
  method FindBlockColumnMirrors(block: Block) returns (r: Result<seq<nat>>)
    ensures r == BlockColumnMirrors(block)
  {
    if |block| == 0 {
      return Err("IndexError");
    }
    var transposed: Block := [];
    for i := 0 to |block[0]|
      invariant |transposed| == i
      invariant forall j :: 0 <= j < |block| ==> i <= |block[j]|
      invariant forall k :: 0 <= k < i ==> transposed[k] == ColumnIn(block, k, |block|)
    {
      if exists j :: 0 <= j < |block| && |block[j]| <= i {
        var j :| 0 <= j < |block| && |block[j]| <= i;
        assert |block[j]| < |block[0]|;
        return Err("IndexError");
      }
      transposed := transposed + [ColumnIn(block, i, |block|)];
    }
    assert Transposable(block);
    TransposeInSpec(block, |block[0]|);
    assert transposed == TransposeIn(block, |block[0]|);
    r := FindBlockRowMirrors(transposed);
  }

  /** Every two rows of the block at the same distance from the horizontal cut `c` agree on the columns of the first row. */
  ghost predicate ReflectsRows(block: Block, c: nat)
    requires |block| > 0
  {
    forall p, q, i :: 0 <= p < c <= q < |block| && p + q == 2 * c - 1 && 0 <= i < |block[0]| && i < |block[p]| && i < |block[q]| ==> block[p][i] == block[q][i]
  }

  /**
   * A block's column mirrors are the horizontal lines across which its rows reflect, compared on
   * the columns of the first row; they exist iff the block is transposable with a non-empty first row.
   */
  lemma BlockColumnMirrorsSpec(block: Block)
    ensures BlockColumnMirrors(block).Ok? <==> Transposable(block) && |block[0]| > 0
    ensures BlockColumnMirrors(block).Ok? ==>
      (forall c :: c in BlockColumnMirrors(block).value <==> 1 <= c < |block| && ReflectsRows(block, c))
      && Increasing(BlockColumnMirrors(block).value)
  {
    TransposedSpec(block);
    if Transposable(block) && |block[0]| > 0 {
      var t := Transposed(block).value;
      BlockRowMirrorsSpec(t);
      forall c: nat
        ensures c in BlockColumnMirrors(block).value <==> 1 <= c < |block| && ReflectsRows(block, c)
      {
        ColumnsReflect(block, t, c);
      }
    }
  }

  /** The rows of the transpose all mirror at `c` iff the block's rows reflect across `c`. */
  lemma ColumnsReflect(block: Block, t: Block, c: nat)
    requires Transposable(block) && |block[0]| > 0 && Transposed(block) == Ok(t)
    ensures RowsMirror(t, |t|, c) <==> ReflectsRows(block, c)
  {
    TransposedSpec(block);
    forall i | 0 <= i < |t| {
      IsRowMirrorSpec(t[i], c);
    }
    if RowsMirror(t, |t|, c) {
      forall p, q, i | 0 <= p < c <= q < |block| && p + q == 2 * c - 1 && 0 <= i < |block[0]| && i < |block[p]| && i < |block[q]|
        ensures block[p][i] == block[q][i]
      {
        assert Reflects(t[i], c);
        assert t[i][p] == t[i][q];
      }
    }
    if ReflectsRows(block, c) {
      forall i | 0 <= i < |t|
        ensures Reflects(t[i], c)
      {
        forall p, q | 0 <= p < c <= q < |t[i]| && p + q == 2 * c - 1
          ensures t[i][p] == t[i][q]
        {
          assert block[p][i] == block[q][i];
        }
      }
    }
  }

  // ---------------------------------------------------------------- both

  /** `findBlockMirrors`: the row mirrors, then the column mirrors; either may raise. */
  function BlockMirrors(block: Block): Result<Mirrors>
  {
    match BlockRowMirrors(block)
    case Err(e) => Err(e)
    case Ok(rows) =>
      match BlockColumnMirrors(block)
      case Err(e) => Err(e)
      case Ok(cols) => Ok((rows, cols))
  }

  method FindBlockMirrors(block: Block) returns (r: Result<Mirrors>)
    ensures r == BlockMirrors(block)
  {
    var rows := FindBlockRowMirrors(block);
    if rows.Err? {
      return Err(rows.error);
    }
    var cols := FindBlockColumnMirrors(block);
    if cols.Err? {
      return Err(cols.error);
    }
    return Ok((rows.value, cols.value));
  }

  /** A block has mirrors iff it is transposable with a non-empty first row; an error is always IndexError. */
  lemma BlockMirrorsSpec(block: Block)
    ensures BlockMirrors(block).Ok? <==> Transposable(block) && |block[0]| > 0
    ensures BlockMirrors(block).Err? ==> BlockMirrors(block) == Err("IndexError")
  {
    BlockRowMirrorsSpec(block);
    BlockColumnMirrorsSpec(block);
  }

  // ---------------------------------------------------------------- values

  /** The row mirrors count once, the column mirrors a hundred times. */
  function MirrorsValue(m: Mirrors): int
  {
    Sum(m.0) + 100 * Sum(m.1)
  }

  ghost predicate AllOk(ms: seq<Result<Mirrors>>)
  {
    forall k :: 0 <= k < |ms| ==> ms[k].Ok?
  }

  /** The summed value of the first `n` mirror results, or the first error among them. */
  function ValuesIn(ms: seq<Result<Mirrors>>, n: nat): Result<int>
    requires n <= |ms|
  {
    if n == 0 then Ok(0) else AddValue(ValuesIn(ms, n - 1), ms[n - 1])
  }

  /** The running total after one more block: the first error wins, otherwise the block's value is added. */
  function AddValue(acc: Result<int>, m: Result<Mirrors>): Result<int>
  {
    match acc
    case Err(e) => Err(e)
    case Ok(v) =>
      match m
      case Err(e) => Err(e)
      case Ok(mm) => Ok(v + MirrorsValue(mm))
  }

  /** The loop shared by `calculateMirrorValue` and `calculateCleanMirrorValue`, over the blocks' mirrors. */
  function TotalValue(ms: seq<Result<Mirrors>>): Result<int>
  {
    ValuesIn(ms, |ms|)
  }

  lemma {:induction false} ValuesInOk(ms: seq<Result<Mirrors>>, n: nat)
    requires n <= |ms|
    ensures ValuesIn(ms, n).Ok? <==> forall k :: 0 <= k < n ==> ms[k].Ok?
  {
    if n > 0 {
      ValuesInOk(ms, n - 1);
    }
  }

  /** The total has a value iff every block has mirrors. */
  lemma TotalValueOk(ms: seq<Result<Mirrors>>)
    ensures TotalValue(ms).Ok? <==> AllOk(ms)
  {
    ValuesInOk(ms, |ms|);
  }

  /** The total of one block is the value of its mirrors. */
  lemma TotalValueSingle(m: Mirrors)
    ensures TotalValue([Ok(m)]) == Ok(MirrorsValue(m))
  {
    assert ValuesIn([Ok(m)], 0) == Ok(0);
    assert [Ok(m)][0] == Ok(m);
  }

  lemma {:induction false} ValuesInPrefix(ms: seq<Result<Mirrors>>, n: nat, k: nat)
    requires k <= n <= |ms|
    ensures ValuesIn(ms, k) == ValuesIn(ms[..n], k)
  {
    if k > 0 {
      ValuesInPrefix(ms, n, k - 1);
    }
  }

  lemma {:induction false} ValuesInAppend(a: seq<Result<Mirrors>>, b: seq<Result<Mirrors>>, k: nat)
    requires k <= |b| && ValuesIn(a + b, |a|) == TotalValue(a) && TotalValue(a).Ok? && ValuesIn(b, k).Ok?
    ensures ValuesIn(a + b, |a| + k) == Ok(TotalValue(a).value + ValuesIn(b, k).value)
  {
    if k > 0 {
      assert ValuesIn(b, k - 1).Ok?;
      ValuesInAppend(a, b, k - 1);
      assert (a + b)[|a| + k - 1] == b[k - 1];
    }
  }

  /** Totals of blocks that all have mirrors add up. */
  lemma TotalValueAppend(a: seq<Result<Mirrors>>, b: seq<Result<Mirrors>>)
    requires TotalValue(a).Ok? && TotalValue(b).Ok?
    ensures TotalValue(a + b) == Ok(TotalValue(a).value + TotalValue(b).value)
  {
    assert (a + b)[..|a|] == a;
    ValuesInPrefix(a + b, |a|, |a|);
    ValuesInAppend(a, b, |b|);
  }

  /** An error stays the result once a block has raised. */
  lemma {:induction false} ValuesInErr(ms: seq<Result<Mirrors>>, n: nat, m: nat)
    requires 0 < n <= m <= |ms| && ValuesIn(ms, n).Err?
    ensures ValuesIn(ms, m) == ValuesIn(ms, n)
    decreases m
  {
    if m > n {
      ValuesInErr(ms, n, m - 1);
    }
  }

  /** The two inner loops of `calculateMirrorValue`: add every row mirror, then every column mirror times 100. */
  method AddMirrors(res: int, m: Mirrors) returns (r: int)
    ensures r == res + MirrorsValue(m)
  {
    r := res;
    for k := 0 to |m.0|
      invariant r == res + Sum(m.0[..k])
    {
      assert m.0[..k + 1] == m.0[..k] + [m.0[k]];
      SumSnoc(m.0[..k], m.0[k]);
      r := r + m.0[k];
    }
    assert m.0[..|m.0|] == m.0;
    for k := 0 to |m.1|
      invariant r == res + Sum(m.0) + 100 * Sum(m.1[..k])
    {
      assert m.1[..k + 1] == m.1[..k] + [m.1[k]];
      SumSnoc(m.1[..k], m.1[k]);
      r := r + m.1[k] * 100;
    }
    assert m.1[..|m.1|] == m.1;
  }

  /** The mirrors of each block, in order. */
  function MirrorsOfBlocks(blocks: seq<Block>): seq<Result<Mirrors>>
  {
    seq(|blocks|, k requires 0 <= k < |blocks| => BlockMirrors(blocks[k]))
  }

  /** `calculateMirrorValue`. */
  function MirrorValue(blocks: seq<Block>): Result<int>
  {
    TotalValue(MirrorsOfBlocks(blocks))
  }

  lemma NextValue(ms: seq<Result<Mirrors>>, k: nat, m: Result<Mirrors>)
    requires k < |ms| && ms[k] == m
    ensures ValuesIn(ms, k + 1) == AddValue(ValuesIn(ms, k), m)
  {
  }

  /** One pass of `calculateMirrorValue`'s loop: the block's mirrors are found and their value added. */
  method AddBlockValue(res: int, block: Block) returns (r: Result<int>)
    ensures r == AddValue(Ok(res), BlockMirrors(block))
  {
    var m := FindBlockMirrors(block);
    if m.Err? {
      return Err(m.error);
    }
    var sum := AddMirrors(res, m.value);
    return Ok(sum);
  }

  method CalculateMirrorValue(blocks: seq<Block>) returns (r: Result<int>)
    ensures r == MirrorValue(blocks)
  {
    ghost var ms := MirrorsOfBlocks(blocks);
    var res := 0;
    for k := 0 to |blocks|
      invariant ValuesIn(ms, k) == Ok(res)
    {
      var next := AddBlockValue(res, blocks[k]);
      NextValue(ms, k, BlockMirrors(blocks[k]));
      if next.Err? {
        ValuesInErr(ms, k + 1, |ms|);
        return next;
      }
      res := next.value;
    }
    return Ok(res);
  }

  // ---------------------------------------------------------------- clean mirrors

  /** `new.remove(o)` for each `o` of the first `n` olds that is still in `new`. */
  function RemoveAllIn(news: seq<nat>, olds: seq<nat>, n: nat): seq<nat>
    requires n <= |olds|
  {
    if n == 0 then news
    else
      var cur := RemoveAllIn(news, olds, n - 1);
      if olds[n - 1] in cur then RemoveFirst(cur, olds[n - 1]) else cur
  }

  function RemoveAll(news: seq<nat>, olds: seq<nat>): seq<nat>
  {
    RemoveAllIn(news, olds, |olds|)
  }

  /** `findCleanBlockMirrors`' loop: each mirror of the old block still found in the new one is removed from it. */
  method RemoveMirrors(news: seq<nat>, olds: seq<nat>) returns (r: seq<nat>)
    ensures r == RemoveAll(news, olds)
  {
    r := news;
    for k := 0 to |olds|
      invariant r == RemoveAllIn(news, olds, k)
    {
      if olds[k] in r {
        r := RemoveFirst(r, olds[k]);
      }
    }
  }

  /** Removing an element of an ascending list leaves an ascending list. */
  lemma RemoveFirstIncreasing(s: seq<nat>, x: nat)
    requires x in s && Increasing(s)
    ensures Increasing(RemoveFirst(s, x))
  {
    var r := RemoveFirst(s, x);
    var i := FirstIndex(s, x);
    forall k1, k2 | 0 <= k1 < k2 < |r|
      ensures r[k1] < r[k2]
    {
      var p1 := if k1 < i then k1 else k1 + 1;
      var p2 := if k2 < i then k2 else k2 + 1;
      assert r[k1] == s[p1] && r[k2] == s[p2] && p1 < p2;
    }
  }

  /** Removing an element of a list without repeats leaves exactly the other elements. */
  lemma RemoveFirstMembers(s: seq<nat>, x: nat)
    requires x in s && Increasing(s)
    ensures forall y :: y in RemoveFirst(s, x) <==> y in s && y != x
  {
    forall y
      ensures y in RemoveFirst(s, x) <==> y in s && y != x
    {
      if y in RemoveFirst(s, x) {
        var k :| 0 <= k < |RemoveFirst(s, x)| && RemoveFirst(s, x)[k] == y;
        RemoveFirstDrops(s, x, k);
      }
      if y in s && y != x {
        var k :| 0 <= k < |s| && s[k] == y;
        RemoveFirstKeeps(s, x, k);
      }
    }
  }

  lemma RemoveFirstDrops(s: seq<nat>, x: nat, k: nat)
    requires x in s && Increasing(s) && k < |RemoveFirst(s, x)|
    ensures RemoveFirst(s, x)[k] in s && RemoveFirst(s, x)[k] != x
  {
    var i := FirstIndex(s, x);
    var p := if k < i then k else k + 1;
    assert RemoveFirst(s, x)[k] == s[p];
    assert s[p] < s[i] || s[i] < s[p];
  }

  lemma RemoveFirstKeeps(s: seq<nat>, x: nat, k: nat)
    requires x in s && k < |s| && s[k] != x
    ensures s[k] in RemoveFirst(s, x)
  {
    var i := FirstIndex(s, x);
    assert k != i;
    var q := if k < i then k else k - 1;
    assert RemoveFirst(s, x)[q] == s[k];
  }

  lemma {:induction false} RemoveAllInSpec(news: seq<nat>, olds: seq<nat>, n: nat)
    requires n <= |olds| && Increasing(news)
    ensures Increasing(RemoveAllIn(news, olds, n))
    ensures forall y :: y in RemoveAllIn(news, olds, n) <==> y in news && y !in olds[..n]
  {
    if n > 0 {
      RemoveAllInSpec(news, olds, n - 1);
      assert olds[..n] == olds[..n - 1] + [olds[n - 1]];
      var cur := RemoveAllIn(news, olds, n - 1);
      if olds[n - 1] in cur {
        RemoveFirstIncreasing(cur, olds[n - 1]);
        RemoveFirstMembers(cur, olds[n - 1]);
      }
    }
  }

  /** On ascending mirror lists, the clean mirrors are the new ones that are not old, still ascending. */
  lemma RemoveAllSpec(news: seq<nat>, olds: seq<nat>)
    requires Increasing(news)
    ensures Increasing(RemoveAll(news, olds))
    ensures forall y :: y in RemoveAll(news, olds) <==> y in news && y !in olds
  {
    RemoveAllInSpec(news, olds, |olds|);
    assert olds[..|olds|] == olds;
  }

  /** `findCleanBlockMirrors`: the mirrors of the new block that the old block does not have. */
  function CleanMirrors(oldBlock: Block, newBlock: Block): Result<Mirrors>
  {
    match BlockMirrors(oldBlock)
    case Err(e) => Err(e)
    case Ok(o) =>
      match BlockMirrors(newBlock)
      case Err(e) => Err(e)
      case Ok(n) => Ok((RemoveAll(n.0, o.0), RemoveAll(n.1, o.1)))
  }

  method FindCleanBlockMirrors(oldBlock: Block, newBlock: Block) returns (r: Result<Mirrors>)
    ensures r == CleanMirrors(oldBlock, newBlock)
  {
    var o := FindBlockMirrors(oldBlock);
    if o.Err? {
      return Err(o.error);
    }
    var n := FindBlockMirrors(newBlock);
    if n.Err? {
      return Err(n.error);
    }
    var rows := RemoveMirrors(n.value.0, o.value.0);
    var cols := RemoveMirrors(n.value.1, o.value.1);
    return Ok((rows, cols));
  }

  /** A clean mirror is a mirror of the new block that the old block does not have. */
  lemma CleanMirrorsSpec(oldBlock: Block, newBlock: Block)
    requires CleanMirrors(oldBlock, newBlock).Ok?
    ensures var o, n, c := BlockMirrors(oldBlock).value, BlockMirrors(newBlock).value, CleanMirrors(oldBlock, newBlock).value;
      (forall y :: y in c.0 <==> y in n.0 && y !in o.0) && (forall y :: y in c.1 <==> y in n.1 && y !in o.1)
      && Increasing(c.0) && Increasing(c.1)
  {
    BlockRowMirrorsSpec(newBlock);
    BlockColumnMirrorsSpec(newBlock);
    var n := BlockMirrors(newBlock).value;
    var o := BlockMirrors(oldBlock).value;
    RemoveAllSpec(n.0, o.0);
    RemoveAllSpec(n.1, o.1);
  }

  /** The clean mirrors of each pair of blocks, in order. */
  function CleanMirrorsOf(pairs: seq<(Block, Block)>): seq<Result<Mirrors>>
  {
    seq(|pairs|, k requires 0 <= k < |pairs| => CleanMirrors(pairs[k].0, pairs[k].1))
  }

  /** `calculateCleanMirrorValue`. */
  function CleanMirrorValue(pairs: seq<(Block, Block)>): Result<int>
  {
    TotalValue(CleanMirrorsOf(pairs))
  }

  /** One pass of `calculateCleanMirrorValue`'s loop. */
  method AddCleanValue(res: int, pair: (Block, Block)) returns (r: Result<int>)
    ensures r == AddValue(Ok(res), CleanMirrors(pair.0, pair.1))
  {
    var m := FindCleanBlockMirrors(pair.0, pair.1);
    if m.Err? {
      AddValueErr(res, m);
      return Err(m.error);
    }
    var sum := AddMirrors(res, m.value);
    AddValueOk(res, m, sum);
    return Ok(sum);
  }

  /** A block whose mirrors fail stops the sum with their error. */
  lemma AddValueErr(res: int, m: Result<Mirrors>)
    requires m.Err?
    ensures AddValue(Ok(res), m) == Err(m.error)
  {
  }

  /** A block's mirrors add their value to the sum. */
  lemma AddValueOk(res: int, m: Result<Mirrors>, sum: int)
    requires m.Ok? && sum == res + MirrorsValue(m.value)
    ensures AddValue(Ok(res), m) == Ok(sum)
  {
  }

  method CalculateCleanMirrorValue(pairs: seq<(Block, Block)>) returns (r: Result<int>)
    ensures r == CleanMirrorValue(pairs)
  {
    ghost var ms := CleanMirrorsOf(pairs);
    var res := 0;
    for k := 0 to |pairs|
      invariant ValuesIn(ms, k) == Ok(res)
    {
      var next := AddCleanValue(res, pairs[k]);
      NextValue(ms, k, CleanMirrors(pairs[k].0, pairs[k].1));
      if next.Err? {
        ValuesInErr(ms, k + 1, |ms|);
        return next;
      }
      res := next.value;
    }
    return Ok(res);
  }

  // ---------------------------------------------------------------- smudges

  /** The character a smudge flips to: `#` becomes `.`, anything else `#`. */
  function Flipped(c: char): char
  {
    if c == '#' then '.' else '#'
  }

  /** The block with the one character at row `r`, column `c` flipped. */
  function Flip(block: Block, r: nat, c: nat): (b: Block)
    requires r < |block| && c < |block[r]|
  {
    block[r := block[r][..c] + [Flipped(block[r][c])] + block[r][c + 1..]]
  }

  /** Flipping changes one character and nothing else. */
  lemma FlipSpec(block: Block, r: nat, c: nat)
    requires r < |block| && c < |block[r]|
    ensures var b := Flip(block, r, c);
      |b| == |block| && (forall k :: 0 <= k < |b| ==> |b[k]| == |block[k]|)
      && (forall k, i :: 0 <= k < |b| && 0 <= i < |b[k]| ==> b[k][i] == if k == r && i == c then Flipped(block[k][i]) else block[k][i])
      && b[r][c] != block[r][c]
  {
  }

  /** A flip keeps the shape, so a block with mirrors still has mirrors after it. */
  lemma FlipKeepsMirrors(block: Block, r: nat, c: nat)
    requires r < |block| && c < |block[r]| && BlockMirrors(block).Ok?
    ensures BlockMirrors(Flip(block, r, c)).Ok?
  {
    BlockMirrorsSpec(block);
    BlockMirrorsSpec(Flip(block, r, c));
  }

  /** The smudge test of `clearSmudge`: the flipped block has a mirror, and not the same ones as before. */
  predicate SmudgeAt(block: Block, orig: Mirrors, r: nat, c: nat)
    requires r < |block| && c < |block[r]|
  {
    var m := BlockMirrors(Flip(block, r, c));
    m.Ok? && (|m.value.0| > 0 || |m.value.1| > 0) && m.value != orig
  }

  /** `(r1, c1)` comes before `(r2, c2)` in the row-by-row scan. */
  predicate ScanBefore(r1: nat, c1: nat, r2: nat, c2: nat)
  {
    r1 < r2 || (r1 == r2 && c1 < c2)
  }

  ghost predicate NoSmudgeBefore(block: Block, orig: Mirrors, r: nat, c: nat)
  {
    forall r1: nat, c1: nat :: r1 < |block| && c1 < |block[r1]| && ScanBefore(r1, c1, r, c) ==> !SmudgeAt(block, orig, r1, c1)
  }

  /** No flip before `(r, c)` passes, and `(r, c)` does not either: none before the next position does. */
  lemma NoSmudgeNextColumn(block: Block, orig: Mirrors, r: nat, c: nat)
    requires r < |block| && c < |block[r]| && NoSmudgeBefore(block, orig, r, c) && !SmudgeAt(block, orig, r, c)
    ensures NoSmudgeBefore(block, orig, r, c + 1)
  {
  }

  /** No flip in rows before `r` passes, nor in row `r`: none in rows before `r + 1` does. */
  lemma NoSmudgeNextRow(block: Block, orig: Mirrors, r: nat)
    requires r < |block| && NoSmudgeBefore(block, orig, r, |block[r]|)
    ensures NoSmudgeBefore(block, orig, r + 1, 0)
  {
  }

  /**
   * The inner loop of `clearSmudge` over row `r`: each character is flipped in turn, the mirrors of
   * the flipped block are found, and the row is restored unless the flip passes the smudge test.
   */
  method SmudgeInRow(block: Block, orig: Mirrors, r: nat) returns (found: Option<Block>)
    requires r < |block| && BlockMirrors(block) == Ok(orig) && NoSmudgeBefore(block, orig, r, 0)
    ensures found.Some? ==>
      exists c: nat :: c < |block[r]| && found.value == Flip(block, r, c) && SmudgeAt(block, orig, r, c) && NoSmudgeBefore(block, orig, r, c)
    ensures found.None? ==> NoSmudgeBefore(block, orig, r + 1, 0)
  {
    var newBlock := block;
    var row := newBlock[r];
    for c := 0 to |row|
      invariant newBlock == block
      invariant NoSmudgeBefore(block, orig, r, c)
    {
      var oldRow := row;
      if row[c] == '#' {
        newBlock := newBlock[r := row[..c] + "." + row[c + 1..]];
      } else {
        newBlock := newBlock[r := row[..c] + "#" + row[c + 1..]];
      }
      assert newBlock == Flip(block, r, c);
      FlipKeepsMirrors(block, r, c);
      var m := FindBlockMirrors(newBlock);
      if (|m.value.0| > 0 || |m.value.1| > 0) && m.value != orig {
        return Some(newBlock);
      }
      NoSmudgeNextColumn(block, orig, r, c);
      newBlock := newBlock[r := oldRow];
    }
    NoSmudgeNextRow(block, orig, r);
    return None;
  }

  /**
   * `clearSmudge`: tries every single flip, row by row, left to right, restoring the row after each
   * try; returns the first one that passes the smudge test, raises IndexError when the block has no
   * mirrors to compare with, and raises "No smudge found" when no flip passes.
   */
  method ClearSmudge(block: Block) returns (res: Result<(Block, Block)>)
    ensures BlockMirrors(block).Err? ==> res == Err("IndexError")
    ensures BlockMirrors(block).Ok? && res.Ok? ==>
      res.value.0 == block
      && exists r: nat, c: nat :: r < |block| && c < |block[r]| && res.value.1 == Flip(block, r, c)
           && SmudgeAt(block, BlockMirrors(block).value, r, c) && NoSmudgeBefore(block, BlockMirrors(block).value, r, c)
    ensures BlockMirrors(block).Ok? && res.Err? ==>
      res == Err("No smudge found")
      && forall r: nat, c: nat :: r < |block| && c < |block[r]| ==> !SmudgeAt(block, BlockMirrors(block).value, r, c)
  {
    BlockMirrorsSpec(block);
    var mirrors := FindBlockMirrors(block);
    if mirrors.Err? {
      return Err(mirrors.error);
    }
    var orig := mirrors.value;
    for r := 0 to |block|
      invariant NoSmudgeBefore(block, orig, r, 0)
    {
      var found := SmudgeInRow(block, orig, r);
      if found.Some? {
        return Ok((block, found.value));
      }
    }
    return Err("No smudge found");
  }

  // ---------------------------------------------------------------- reading blocks

  /** The blocks of a list of lines: an empty line ends a block, so there is always one more block than empty lines. */
  function Blocks(lines: seq<string>): (bs: seq<Block>)
    ensures |bs| >= 1
  {
    if lines == [] then [[]]
    else
      var rest := Blocks(lines[1..]);
      if lines[0] == "" then [[]] + rest else [[lines[0]] + rest[0]] + rest[1..]
  }

  /** The lines of blocks, with an empty line between neighbours. */
  function Unblock(bs: seq<Block>): seq<string>
    requires |bs| >= 1
  {
    if |bs| == 1 then bs[0] else bs[0] + [""] + Unblock(bs[1..])
  }

  ghost predicate NoEmptyLine(bs: seq<Block>)
  {
    forall k, i :: 0 <= k < |bs| && 0 <= i < |bs[k]| ==> bs[k][i] != ""
  }

  /** Lines without an empty one join the first block of whatever follows. */
  lemma {:induction false} BlocksPrefix(b: Block, rest: seq<string>)
    requires forall i :: 0 <= i < |b| ==> b[i] != ""
    ensures Blocks(b + rest) == [b + Blocks(rest)[0]] + Blocks(rest)[1..]
  {
    if b != [] {
      var br := Blocks(rest);
      assert (b + rest)[0] == b[0] && (b + rest)[1..] == b[1..] + rest;
      BlocksPrefix(b[1..], rest);
      var tail := Blocks(b[1..] + rest);
      assert tail[0] == b[1..] + br[0] && tail[1..] == br[1..];
      assert [b[0]] + (b[1..] + br[0]) == b + br[0];
    } else {
      assert b + rest == rest;
      assert b + Blocks(rest)[0] == Blocks(rest)[0];
      assert Blocks(rest) == [Blocks(rest)[0]] + Blocks(rest)[1..];
    }
  }

  /** Reading the lines of blocks gives the blocks back. */
  lemma {:induction false} BlocksUnblock(bs: seq<Block>)
    requires |bs| >= 1 && NoEmptyLine(bs)
    ensures Blocks(Unblock(bs)) == bs
  {
    if |bs| == 1 {
      BlocksPrefix(bs[0], []);
      assert bs[0] + [] == bs[0];
      assert Blocks([]) == [[]];
      assert bs[0] + [] == bs[0];
      assert bs == [bs[0]];
    } else {
      var u := Unblock(bs[1..]);
      BlocksUnblock(bs[1..]);
      assert bs[0] + [""] + u == bs[0] + ([""] + u);
      BlocksPrefix(bs[0], [""] + u);
      assert ([""] + u)[0] == "" && ([""] + u)[1..] == u;
      assert Blocks([""] + u) == [[]] + bs[1..];
      assert bs[0] + [] == bs[0];
      assert bs == [bs[0]] + bs[1..];
    }
  }

  /** Writing the blocks of lines back out gives the lines. */
  lemma {:induction false} UnblockBlocks(lines: seq<string>)
    ensures Unblock(Blocks(lines)) == lines
  {
    if lines != [] {
      var rest := Blocks(lines[1..]);
      UnblockBlocks(lines[1..]);
      if lines[0] == "" {
        assert ([[]] + rest)[1..] == rest;
      } else {
        var bs := [[lines[0]] + rest[0]] + rest[1..];
        if |rest| == 1 {
          assert rest == [rest[0]];
        } else {
          assert bs[1..] == rest[1..];
          assert Unblock(rest) == rest[0] + [""] + Unblock(rest[1..]);
        }
      }
      assert lines == [lines[0]] + lines[1..];
    }
  }

  /** The block being read continues into the first block of what follows. */
  function Continue(block: Block, bs: seq<Block>): seq<Block>
    requires |bs| >= 1
  {
    [block + bs[0]] + bs[1..]
  }

  lemma ContinueEmpty(bs: seq<Block>)
    requires |bs| >= 1
    ensures Continue([], bs) == bs
  {
    assert [] + bs[0] == bs[0];
  }

  lemma ContinueClose(block: Block, rest: seq<Block>)
    requires |rest| >= 1
    ensures Continue(block, [[]] + rest) == [block] + rest
  {
    assert block + [] == block;
  }

  lemma ContinueExtend(block: Block, line: string, rest: seq<Block>)
    requires |rest| >= 1
    ensures Continue(block, Continue([line], rest)) == Continue(block + [line], rest)
  {
    assert block + ([line] + rest[0]) == (block + [line]) + rest[0];
  }

  lemma BlocksUnfold(lines: seq<string>)
    requires lines != []
    ensures Blocks(lines) == if lines[0] == "" then [[]] + Blocks(lines[1..]) else Continue([lines[0]], Blocks(lines[1..]))
  {
  }

  /** The blocks from line `i` on start with line `i`. */
  lemma BlocksFrom(lines: seq<string>, i: nat)
    requires i < |lines|
    ensures Blocks(lines[i..]) == if lines[i] == "" then [[]] + Blocks(lines[i + 1..]) else Continue([lines[i]], Blocks(lines[i + 1..]))
  {
    assert lines[i..][0] == lines[i] && lines[i..][1..] == lines[i + 1..];
    BlocksUnfold(lines[i..]);
  }

  /** An empty line closes the block being read. */
  lemma ReadEmptyLine(all: seq<Block>, blocks: seq<Block>, block: Block, rest: seq<Block>)
    requires |rest| >= 1 && all == blocks + Continue(block, [[]] + rest)
    ensures all == (blocks + [block]) + Continue([], rest)
  {
    ContinueClose(block, rest);
    ContinueEmpty(rest);
  }

  /** Any other line extends the block being read. */
  lemma ReadOtherLine(all: seq<Block>, blocks: seq<Block>, block: Block, line: string, rest: seq<Block>)
    requires |rest| >= 1 && all == blocks + Continue(block, Continue([line], rest))
    ensures all == blocks + Continue(block + [line], rest)
  {
    ContinueExtend(block, line, rest);
  }

  /** `readBlocks`' loop over the lines: an empty line closes the block being read, any other extends it. */
  method GroupBlocks(lines: seq<string>) returns (blocks: seq<Block>)
    ensures blocks == Blocks(lines)
  {
    blocks := [];
    var block: Block := [];
    assert lines[0..] == lines;
    ContinueEmpty(Blocks(lines));
    for i := 0 to |lines|
      invariant Blocks(lines) == blocks + Continue(block, Blocks(lines[i..]))
    {
      BlocksFrom(lines, i);
      if lines[i] == "" {
        ReadEmptyLine(Blocks(lines), blocks, block, Blocks(lines[i + 1..]));
        blocks := blocks + [block];
        block := [];
      } else {
        ReadOtherLine(Blocks(lines), blocks, block, lines[i], Blocks(lines[i + 1..]));
        block := block + [lines[i]];
      }
    }
    assert lines[|lines|..] == [];
    assert Blocks([]) == [[]];
    assert block + [] == block;
    assert Continue(block, [[]]) == [block];
    blocks := blocks + [block];
  }

  /** `readBlocks`: the stripped text is split at newlines and cut into blocks at empty lines. */
  method ReadBlocks(txt: string) returns (blocks: seq<Block>)
    ensures blocks == Blocks(SplitOn(Strip(txt), '\n'))
  {
    var lines := SplitOn(Strip(txt), '\n');
    blocks := GroupBlocks(lines);
  }

  // ---------------------------------------------------------------- the source's assertions

  /** `splitAt("abba", 2)`. */
  lemma SplitAtExample()
    ensures SplitAt("abba", 2) == ("ab", "ba")
  {
    assert "abba"[..2] == "ab" && "abba"[2..] == "ba";
  }

  /** `isRowMirror` on "abba" holds at the middle and not at the first cut. */
  lemma IsRowMirrorExamples()
    ensures IsRowMirror("abba", 2) && !IsRowMirror("abba", 1)
  {
  }

  lemma FindRowMirrorsExamples()
    ensures FindRowMirrors("abba") == [2]
    ensures FindRowMirrors("abccba") == [3]
  {
    assert MirrorsIn("abba", 2) == [];
    assert MirrorsIn("abba", 3) == [2];
    assert MirrorsIn("abccba", 3) == [];
    assert MirrorsIn("abccba", 4) == [3];
    assert MirrorsIn("abccba", 5) == [3];
  }

  lemma BlockRowMirrorsExample()
    ensures BlockRowMirrors(["abba", "baab"]) == Ok([2])
  {
    FindRowMirrorsExamples();
    assert KeepIn([2], "baab", 1) == [2];
  }

  lemma TransposedExample()
    ensures Transposed(["ab", "ba", "ba", "ab"]) == Ok(["abba", "baab"])
  {
    var b := ["ab", "ba", "ba", "ab"];
    assert Transposable(b);
    assert ColumnIn(b, 0, 4) == "abba";
    assert ColumnIn(b, 1, 4) == "baab";
    assert TransposeIn(b, 1) == ["abba"];
    assert TransposeIn(b, 2) == ["abba", "baab"];
  }

  lemma BlockColumnMirrorsExample()
    ensures BlockColumnMirrors(["ab", "ba", "ba", "ab"]) == Ok([2])
  {
    TransposedExample();
    BlockRowMirrorsExample();
  }
}
