/**
 * The packed bit grid of the day 21 C++ solver: one bit per cell, eight cells to a byte,
 * with a popcount over the bytes, cell-wise `&` and `|`, and the extreme-pair bookkeeping.
 */
module Day21Bits {
  import opened Wrappers
  import opened Geometry
  import Lists

  /**
   * A `char` of the element vector, read as an unsigned number. The bitwise operators the map
   * applies to it are defined digit by digit below.
   */
  type byte = b: int | 0 <= b < 256

  /* ---------------------------------------------------------------- C++ integer division */

  /** C++ `a / 8`: the quotient truncated toward zero. */
  function Div8(a: int): int
  {
    if a >= 0 then a / 8 else -((-a) / 8)
  }

  /** C++ `a % 8`: the remainder takes the sign of `a`. */
  function Rem8(a: int): (r: int)
    ensures a == 8 * Div8(a) + r
    ensures a >= 0 ==> r == a % 8
    ensures a < 0 ==> -8 < r <= 0
  {
    a - 8 * Div8(a)
  }

  /* ---------------------------------------------------------------- bits and bitwise operators */

  /** Binary digit `i` of `n`. */
  predicate BitSet(n: nat, i: nat)
  {
    if i == 0 then n % 2 == 1 else BitSet(n / 2, i - 1)
  }

  /** `1 << k` as a number. */
  function Pow2(k: nat): (p: nat)
    ensures p >= 1
  {
    if k == 0 then 1 else 2 * Pow2(k - 1)
  }

  lemma Pow2Eight()
    ensures Pow2(8) == 256
  {
    assert Pow2(4) == 16;
  }

  /** `a & b` on `n`-digit values. */
  function AndBits(a: nat, b: nat, n: nat): (r: nat)
    ensures r < Pow2(n)
  {
    if n == 0 then 0 else (if a % 2 == 1 && b % 2 == 1 then 1 else 0) + 2 * AndBits(a / 2, b / 2, n - 1)
  }

  /** `a | b` on `n`-digit values. */
  function OrBits(a: nat, b: nat, n: nat): (r: nat)
    ensures r < Pow2(n)
  {
    if n == 0 then 0 else (if a % 2 == 1 || b % 2 == 1 then 1 else 0) + 2 * OrBits(a / 2, b / 2, n - 1)
  }

  /** `~a` on `n`-digit values. */
  function NotBits(a: nat, n: nat): (r: nat)
    ensures r < Pow2(n)
  {
    if n == 0 then 0 else (if a % 2 == 1 then 0 else 1) + 2 * NotBits(a / 2, n - 1)
  }

  /** Digit `i` of `a & b` is set exactly when it is set in both. */
  lemma {:induction false} BitSetAnd(a: nat, b: nat, n: nat, i: nat)
    requires i < n
    ensures BitSet(AndBits(a, b, n), i) == (BitSet(a, i) && BitSet(b, i))
  {
    if i > 0 {
      BitSetAnd(a / 2, b / 2, n - 1, i - 1);
    }
  }

  /** Digit `i` of `a | b` is set exactly when it is set in either. */
  lemma {:induction false} BitSetOr(a: nat, b: nat, n: nat, i: nat)
    requires i < n
    ensures BitSet(OrBits(a, b, n), i) == (BitSet(a, i) || BitSet(b, i))
  {
    if i > 0 {
      BitSetOr(a / 2, b / 2, n - 1, i - 1);
    }
  }

  /** Digit `i` of `~a` is set exactly when it is clear in `a`. */
  lemma {:induction false} BitSetNot(a: nat, n: nat, i: nat)
    requires i < n
    ensures BitSet(NotBits(a, n), i) == !BitSet(a, i)
  {
    if i > 0 {
      BitSetNot(a / 2, n - 1, i - 1);
    }
  }

  /** `1 << k` has digit `k` and no other. */
  lemma {:induction false} BitSetPow2(k: nat, i: nat)
    ensures BitSet(Pow2(k), i) == (i == k)
  {
    if k == 0 {
      if i > 0 {
        BitSetZero(i - 1);
      }
    } else if i > 0 {
      BitSetPow2(k - 1, i - 1);
    }
  }

  /** Zero has no digit set. */
  lemma {:induction false} BitSetZero(i: nat)
    ensures !BitSet(0, i)
  {
    if i > 0 {
      BitSetZero(i - 1);
    }
  }

  /** The byte operators `&`, `|` and `~`. */
  function AndByte(a: byte, b: byte): byte
  {
    Pow2Eight();
    AndBits(a, b, 8)
  }

  function OrByte(a: byte, b: byte): byte
  {
    Pow2Eight();
    OrBits(a, b, 8)
  }

  function NotByte(a: byte): byte
  {
    Pow2Eight();
    NotBits(a, 8)
  }

  /** `1 << k` for a bit position of a byte. */
  function Mask(k: nat): (m: byte)
    requires k < 8
  {
    Pow2Eight();
    Pow2Mono(k, 8);
    Pow2(k)
  }

  lemma {:induction false} Pow2Mono(k: nat, n: nat)
    requires k < n
    ensures Pow2(k) < Pow2(n)
  {
    if k < n - 1 {
      Pow2Mono(k, n - 1);
    }
  }

  /** The byte with bit `k` set to `v`: `b | (1 << k)` to set it, `b & ~(1 << k)` to clear it. */
  function WithBit(b: byte, k: nat, v: bool): byte
    requires k < 8
  {
    if v then OrByte(b, Mask(k)) else AndByte(b, NotByte(Mask(k)))
  }

  /** Setting or clearing bit `k` leaves the other seven bits alone. */
  lemma WithBitSpec(b: byte, k: nat, v: bool)
    requires k < 8
    ensures BitSet(WithBit(b, k, v), k) == v
    ensures forall i :: 0 <= i < 8 && i != k ==> BitSet(WithBit(b, k, v), i) == BitSet(b, i)
  {
    forall i | 0 <= i < 8
      ensures BitSet(WithBit(b, k, v), i) == if i == k then v else BitSet(b, i)
    {
      BitSetPow2(k, i);
      if v {
        BitSetOr(b, Mask(k), 8, i);
      } else {
        BitSetAnd(b, NotByte(Mask(k)), 8, i);
        BitSetNot(Mask(k), 8, i);
      }
    }
  }

  /* ---------------------------------------------------------------- counting bits */

  /** Bit `i` of `b` as a number. */
  function Bit(b: nat, i: nat): nat
  {
    if BitSet(b, i) then 1 else 0
  }

  /** The number of set bits among the lowest `n` bits of `b`. */
  function Ones(b: nat, n: nat): nat
  {
    if n == 0 then 0 else Ones(b, n - 1) + Bit(b, n - 1)
  }

  /** The number of set bits of a byte, bit by bit. */
  function PopCount(b: byte): nat
  {
    Ones(b, 8)
  }

  /** The number of set bits of each four-bit value. */
  const NibbleLookup: seq<nat> := [0, 1, 1, 2, 1, 2, 2, 3, 1, 2, 2, 3, 2, 3, 3, 4]

  /** Each entry of the nibble table is the popcount of its index. */
  lemma NibbleLookupCounts(n: nat)
    requires n < 16
    ensures NibbleLookup[n] == Ones(n, 4)
  {
    OnesUnfold(n);
    if n < 8 {
      LowerNibbles(n);
    } else {
      UpperNibbles(n);
    }
  }

  lemma LowerNibbles(n: nat)
    requires n < 8
    ensures NibbleLookup[n] == Bit(n, 0) + Bit(n, 1) + Bit(n, 2) + Bit(n, 3)
  {
    if n < 4 {
      if n < 2 { assert n == 0 || n == 1; } else { assert n == 2 || n == 3; }
    } else {
      if n < 6 { assert n == 4 || n == 5; } else { assert n == 6 || n == 7; }
    }
  }

  lemma UpperNibbles(n: nat)
    requires 8 <= n < 16
    ensures NibbleLookup[n] == Bit(n, 0) + Bit(n, 1) + Bit(n, 2) + Bit(n, 3)
  {
    if n < 12 {
      if n < 10 { assert n == 8 || n == 9; } else { assert n == 10 || n == 11; }
    } else {
      if n < 14 { assert n == 12 || n == 13; } else { assert n == 14 || n == 15; }
    }
  }

  /** `Ones` written out bit by bit. */
  lemma OnesUnfold(b: nat)
    ensures Ones(b, 4) == Bit(b, 0) + Bit(b, 1) + Bit(b, 2) + Bit(b, 3)
    ensures Ones(b, 8) == Ones(b, 4) + Bit(b, 4) + Bit(b, 5) + Bit(b, 6) + Bit(b, 7)
  {
    assert Ones(b, 1) == Bit(b, 0);
    assert Ones(b, 2) == Bit(b, 0) + Bit(b, 1);
    assert Ones(b, 4) == Ones(b, 2) + Bit(b, 2) + Bit(b, 3);
    assert Ones(b, 6) == Ones(b, 4) + Bit(b, 4) + Bit(b, 5);
  }

  /** Halving commutes with taking the low `k` digits. */
  lemma Halve(n: nat, k: nat)
    requires 1 <= k <= 4
    ensures (n % Pow2(k)) % 2 == n % 2
    ensures k > 1 ==> (n % Pow2(k)) / 2 == (n / 2) % Pow2(k - 1)
  {
    assert Pow2(1) == 2 && Pow2(2) == 4;
    assert Pow2(3) == 8 && Pow2(4) == 16;
    if k == 4 {
      Halve16(n);
    } else if k == 3 {
      Halve8(n);
    } else if k == 2 {
      Halve4(n);
    }
  }

  lemma Halve16(n: nat)
    ensures (n % 16) % 2 == n % 2 && (n % 16) / 2 == (n / 2) % 8
  {
  }

  lemma Halve8(n: nat)
    ensures (n % 8) % 2 == n % 2 && (n % 8) / 2 == (n / 2) % 4
  {
  }

  lemma Halve4(n: nat)
    ensures (n % 4) % 2 == n % 2 && (n % 4) / 2 == (n / 2) % 2
  {
  }

  /** The low `k` digits of `n` are those of `n % 2^k`. */
  lemma {:induction false} LowDigits(n: nat, i: nat, k: nat)
    requires i < k <= 4
    ensures BitSet(n % Pow2(k), i) == BitSet(n, i)
  {
    Halve(n, k);
    if i > 0 {
      LowDigits(n / 2, i - 1, k - 1);
    }
  }

  /** The low four digits of `n` are those of `n % 16`. */
  lemma LowNibble(n: nat, i: nat)
    requires i < 4
    ensures BitSet(n % 16, i) == BitSet(n, i)
  {
    assert Pow2(4) == 16;
    LowDigits(n, i, 4);
  }

  /** Digit `i + 4` of `n` is digit `i` of `n / 16`. */
  lemma HighNibble(n: nat, i: nat)
    ensures BitSet(n / 16, i) == BitSet(n, i + 4)
  {
    assert n / 16 == n / 2 / 2 / 2 / 2;
    assert BitSet(n, i + 4) == BitSet(n / 2, i + 3);
    assert BitSet(n / 2, i + 3) == BitSet(n / 2 / 2, i + 2);
    assert BitSet(n / 2 / 2, i + 2) == BitSet(n / 2 / 2 / 2, i + 1);
  }

  /** A byte's set bits are those of its low nibble and those of its high nibble. */
  lemma OnesSplit(b: byte)
    ensures Ones(b, 8) == Ones(b % 16, 4) + Ones(b / 16, 4)
  {
    OnesUnfold(b);
    OnesUnfold(b % 16);
    OnesUnfold(b / 16);
    LowNibble(b, 0);
    LowNibble(b, 1);
    LowNibble(b, 2);
    LowNibble(b, 3);
    HighNibble(b, 0);
    HighNibble(b, 1);
    HighNibble(b, 2);
    HighNibble(b, 3);
  }

  /** `countBits`: two nibble lookups, `byte & 0x0F` (the low four digits) and `byte >> 4` (the high four), give the number of set bits. */
  function CountBits(b: byte): (r: nat)
    ensures r == PopCount(b)
    ensures r <= 8
  {
    NibbleLookupCounts(b % 16);
    NibbleLookupCounts(b / 16);
    OnesSplit(b);
    OnesAtMost(b, 8);
    NibbleLookup[b % 16] + NibbleLookup[b / 16]
  }

  lemma {:induction false} OnesAtMost(b: nat, n: nat)
    ensures Ones(b, n) <= n
  {
    if n > 0 {
      OnesAtMost(b, n - 1);
    }
  }

  /** Changing one bit changes the popcount by exactly that bit. */
  lemma {:induction false} OnesWithBit(b: byte, k: nat, v: bool, n: nat)
    requires k < 8 && n <= 8
    ensures Ones(WithBit(b, k, v), n) + (if k < n && BitSet(b, k) then 1 else 0)
         == Ones(b, n) + (if k < n && v then 1 else 0)
  {
    if n > 0 {
      WithBitSpec(b, k, v);
      OnesWithBit(b, k, v, n - 1);
    }
  }

  lemma PopCountWithBit(b: byte, k: nat, v: bool)
    requires k < 8
    ensures PopCount(WithBit(b, k, v)) + (if BitSet(b, k) then 1 else 0)
         == PopCount(b) + (if v then 1 else 0)
  {
    OnesWithBit(b, k, v, 8);
  }

  /* ---------------------------------------------------------------- the byte layout */

  /** A cell inside a `w` by `h` map. */
  predicate Inside(w: int, h: int, q: Vec2)
  {
    0 <= q.x < w && 0 <= q.y < h
  }

  /** The bytes the constructor allocates for a `w` by `h` map: `w / 8 + 1` per row. */
  function Size(w: nat, h: nat): nat
  {
    (w / 8 + 1) * h
  }

  /** `byteIndex` as written: `y * w / 8 + x / 8`, that is `(y * w) / 8 + x / 8`. */
  function ByteIndexAsWritten(w: int, x: int, y: int): int
  {
    Div8(y * w) + Div8(x)
  }

  /** The byte holding cell (x, y) when every row starts on a byte of its own, as the allocation lays rows out. */
  function ByteIndex(w: nat, x: int, y: int): int
  {
    y * (w / 8 + 1) + Div8(x)
  }

  /** `bitIndex`: `x % 8`. */
  function BitIndex(x: int): int
  {
    Rem8(x)
  }

  /** Within a `w` by `h` map every cell has its own byte and bit, and that byte is allocated. */
  lemma ByteIndexSound(w: nat, h: nat, x: int, y: int, x': int, y': int)
    requires 0 <= x < w && 0 <= y < h && 0 <= x' < w && 0 <= y' < h
    ensures 0 <= ByteIndex(w, x, y) < Size(w, h)
    ensures 0 <= BitIndex(x) < 8
    ensures (ByteIndex(w, x, y), BitIndex(x)) == (ByteIndex(w, x', y'), BitIndex(x')) ==> x == x' && y == y'
  {
    var s := w / 8 + 1;
    DivMono(x, w);
    DivMono(x', w);
    RowInside(y, h, s, x / 8);
    if ByteIndex(w, x, y) == ByteIndex(w, x', y') && BitIndex(x) == BitIndex(x') {
      RowsApart(y, y', s, x / 8, x' / 8);
      assert x == 8 * (x / 8) + x % 8 && x' == 8 * (x' / 8) + x' % 8;
    }
  }

  lemma DivMono(x: nat, w: nat)
    requires x <= w
    ensures x / 8 <= w / 8
  {
  }

  /** A byte `a` of row `y` lies inside `h` rows of `s` bytes. */
  lemma RowInside(y: int, h: int, s: nat, a: int)
    requires 0 <= y < h && 0 <= a < s
    ensures 0 <= y * s + a < h * s
  {
    MulMono(y + 1, h, s);
  }

  /** Row starts `s` bytes apart never meet within a row. */
  lemma RowsApart(y: int, y': int, s: nat, a: int, a': int)
    requires 0 <= a < s && 0 <= a' < s
    requires y * s + a == y' * s + a'
    ensures y == y' && a == a'
  {
    if y < y' {
      MulMono(y + 1, y', s);
    } else if y' < y {
      MulMono(y' + 1, y, s);
    }
  }

  lemma MulMono(a: int, b: int, s: nat)
    requires a <= b
    ensures a * s <= b * s
  {
  }

  /* ---------------------------------------------------------------- get and set on the bytes */

  /** `get(x, y)` on the bytes of a map `w` cells wide, reading byte `idx`. */
  function LookupAt(bytes: seq<byte>, idx: int, x: int): (r: Result<bool>)
    ensures r.Ok? <==> 0 <= idx < |bytes| && BitIndex(x) >= 0
    ensures r.Ok? ==> r.value == BitSet(bytes[idx], BitIndex(x))
    ensures r.Err? && !(0 <= idx < |bytes|) ==> r.error == "out of bounds"
  {
    // A negative index compares as a huge unsigned value, so it is out of bounds too.
    if idx < 0 || idx >= |bytes| then Err("out of bounds")
    // `1 << (x % 8)` with a negative remainder is undefined behaviour in C++.
    else if BitIndex(x) < 0 then Err("negative shift")
    else Ok(BitSet(bytes[idx], BitIndex(x)))
  }

  /** `set(x, y, value)` on the bytes, writing byte `idx`: only bit `x % 8` of that byte changes. */
  function StoreAt(bytes: seq<byte>, idx: int, x: int, value: bool): (r: Result<seq<byte>>)
    ensures r.Ok? <==> LookupAt(bytes, idx, x).Ok?
    ensures r.Err? ==> LookupAt(bytes, idx, x) == Err(r.error)
    ensures r.Ok? ==> |r.value| == |bytes|
    ensures r.Ok? ==> forall i :: 0 <= i < |bytes| && i != idx ==> r.value[i] == bytes[i]
    ensures r.Ok? ==> BitSet(r.value[idx], BitIndex(x)) == value
    ensures r.Ok? ==> forall k :: 0 <= k < 8 && k != BitIndex(x) ==> BitSet(r.value[idx], k) == BitSet(bytes[idx], k)
  {
    if idx < 0 || idx >= |bytes| then Err("out of bounds")
    else if BitIndex(x) < 0 then Err("negative shift")
    else
      WithBitSpec(bytes[idx], BitIndex(x), value);
      Ok(bytes[idx := WithBit(bytes[idx], BitIndex(x), value)])
  }

  /** `get(x, y)`: the bit of cell (x, y). */
  function Lookup(bytes: seq<byte>, w: nat, x: int, y: int): Result<bool>
  {
    LookupAt(bytes, ByteIndex(w, x, y), x)
  }

  /** `set(x, y, value)`. */
  function Store(bytes: seq<byte>, w: nat, x: int, y: int, value: bool): Result<seq<byte>>
  {
    StoreAt(bytes, ByteIndex(w, x, y), x, value)
  }

  /** Reading a cell just written gives the value written, and writing succeeds exactly where reading does. */
  lemma LookupStore(bytes: seq<byte>, w: nat, x: int, y: int, value: bool)
    ensures Store(bytes, w, x, y, value).Ok? <==> Lookup(bytes, w, x, y).Ok?
    ensures Store(bytes, w, x, y, value).Ok? ==> Lookup(Store(bytes, w, x, y, value).value, w, x, y) == Ok(value)
  {
  }

  /** Writing a cell of a `w` by `h` map leaves every other cell of the map as it was. */
  lemma LookupStoreOther(bytes: seq<byte>, w: nat, h: nat, x: int, y: int, x': int, y': int, value: bool)
    requires |bytes| == Size(w, h)
    requires 0 <= x < w && 0 <= y < h && 0 <= x' < w && 0 <= y' < h && (x, y) != (x', y')
    ensures Store(bytes, w, x, y, value).Ok?
    ensures Lookup(Store(bytes, w, x, y, value).value, w, x', y') == Lookup(bytes, w, x', y')
  {
    ByteIndexSound(w, h, x, y, x', y');
  }

  /** Writing a cell of a `w` by `h` map leaves all the other cells of the map as they were. */
  lemma StoreKeepsOthers(bytes: seq<byte>, w: nat, h: nat, x: int, y: int, value: bool)
    requires |bytes| == Size(w, h)
    requires Inside(w, h, Vec2(x, y))
    ensures Store(bytes, w, x, y, value).Ok?
    ensures forall q :: Inside(w, h, q) && q != Vec2(x, y) ==>
      Lookup(Store(bytes, w, x, y, value).value, w, q.x, q.y) == Lookup(bytes, w, q.x, q.y)
  {
    LookupInside(bytes, w, h, x, y);
    forall q | Inside(w, h, q) && q != Vec2(x, y)
      ensures Lookup(Store(bytes, w, x, y, value).value, w, q.x, q.y) == Lookup(bytes, w, q.x, q.y)
    {
      LookupStoreOther(bytes, w, h, x, y, q.x, q.y, value);
    }
  }

  /** Every cell of a `w` by `h` map can be read. */
  lemma LookupInside(bytes: seq<byte>, w: nat, h: nat, x: int, y: int)
    requires |bytes| == Size(w, h)
    requires 0 <= x < w && 0 <= y < h
    ensures Lookup(bytes, w, x, y).Ok?
  {
    ByteIndexSound(w, h, x, y, x, y);
  }

  /** `get` with the byte index as written. */
  function LookupAsWritten(bytes: seq<byte>, w: int, x: int, y: int): Result<bool>
  {
    LookupAt(bytes, ByteIndexAsWritten(w, x, y), x)
  }

  /** `set` with the byte index as written. */
  function StoreAsWritten(bytes: seq<byte>, w: int, x: int, y: int, value: bool): Result<seq<byte>>
  {
    StoreAt(bytes, ByteIndexAsWritten(w, x, y), x, value)
  }

  /** All-zero bytes. */
  function Zeros(n: nat): (r: seq<byte>)
    ensures |r| == n && forall i :: 0 <= i < n ==> r[i] == 0
  {
    seq(n, _ => 0)
  }

  /**
   * With the index as written, a 9 by 9 map (the size of the example the program draws) shares a bit
   * between the last cell of row 0 and the first cell of row 1: setting (8, 0) makes (0, 1) read as set.
   */
  lemma AsWrittenCellsCollide()
    ensures ByteIndexAsWritten(9, 8, 0) == ByteIndexAsWritten(9, 0, 1) == 1
    ensures StoreAsWritten(Zeros(Size(9, 9)), 9, 8, 0, true).Ok?
    ensures LookupAsWritten(StoreAsWritten(Zeros(Size(9, 9)), 9, 8, 0, true).value, 9, 0, 1) == Ok(true)
  {
    var blank := Zeros(Size(9, 9));
    assert ByteIndexAsWritten(9, 8, 0) == 1 && BitIndex(8) == 0;
    WithBitSpec(blank[1], 0, true);
  }

  /* ---------------------------------------------------------------- counting and combining */

  /** The number of set bits over all bytes. */
  function Total(bytes: seq<byte>): nat
  {
    if bytes == [] then 0 else Total(bytes[..|bytes| - 1]) + PopCount(bytes[|bytes| - 1])
  }

  lemma {:induction false} TotalZeros(n: nat)
    ensures Total(Zeros(n)) == 0
  {
    if n > 0 {
      assert Zeros(n)[..n - 1] == Zeros(n - 1);
      TotalZeros(n - 1);
      OnesUnfold(0);
    }
  }

  /** Replacing one byte changes the total by the difference of the two popcounts. */
  lemma {:induction false} TotalUpdate(bytes: seq<byte>, i: nat, b: byte)
    requires i < |bytes|
    ensures Total(bytes[i := b]) + PopCount(bytes[i]) == Total(bytes) + PopCount(b)
  {
    var n := |bytes| - 1;
    if i < n {
      TotalUpdate(bytes[..n], i, b);
      assert bytes[i := b][..n] == bytes[..n][i := b];
    } else {
      assert bytes[i := b][..n] == bytes[..n];
    }
  }

  /** `int(m)` after `set`: one more when a clear cell is set, one fewer when a set cell is cleared. */
  lemma TotalStore(bytes: seq<byte>, w: nat, x: int, y: int, value: bool)
    requires Store(bytes, w, x, y, value).Ok?
    ensures Total(Store(bytes, w, x, y, value).value) + (if Lookup(bytes, w, x, y).value then 1 else 0)
         == Total(bytes) + (if value then 1 else 0)
  {
    var idx := ByteIndex(w, x, y);
    TotalUpdate(bytes, idx, WithBit(bytes[idx], BitIndex(x), value));
    PopCountWithBit(bytes[idx], BitIndex(x), value);
  }

  /** The bytes of `lhs & rhs`: the first `|a|` bytes of each, anded. */
  function AndBytes(a: seq<byte>, b: seq<byte>): (r: seq<byte>)
    requires |a| <= |b|
  {
    seq(|a|, i requires 0 <= i < |a| => AndByte(a[i], b[i]))
  }

  /** The bytes of `lhs | rhs`. */
  function OrBytes(a: seq<byte>, b: seq<byte>): (r: seq<byte>)
    requires |a| <= |b|
  {
    seq(|a|, i requires 0 <= i < |a| => OrByte(a[i], b[i]))
  }

  /** On maps of one layout, `&` is the cell-wise conjunction. */
  lemma LookupAnd(a: seq<byte>, b: seq<byte>, w: nat, x: int, y: int)
    requires |a| == |b|
    requires Lookup(a, w, x, y).Ok?
    ensures Lookup(AndBytes(a, b), w, x, y) == Ok(Lookup(a, w, x, y).value && Lookup(b, w, x, y).value)
  {
    var idx := ByteIndex(w, x, y);
    assert AndBytes(a, b)[idx] == AndByte(a[idx], b[idx]);
    BitSetAnd(a[idx], b[idx], 8, BitIndex(x));
  }

  /** On maps of one layout, `|` is the cell-wise disjunction. */
  lemma LookupOr(a: seq<byte>, b: seq<byte>, w: nat, x: int, y: int)
    requires |a| == |b|
    requires Lookup(a, w, x, y).Ok?
    ensures Lookup(OrBytes(a, b), w, x, y) == Ok(Lookup(a, w, x, y).value || Lookup(b, w, x, y).value)
  {
    var idx := ByteIndex(w, x, y);
    assert OrBytes(a, b)[idx] == OrByte(a[idx], b[idx]);
    BitSetOr(a[idx], b[idx], 8, BitIndex(x));
  }

  /* ---------------------------------------------------------------- the map object */

  /** Column-major order, the order `neighbors` lists cells in. */
  predicate Before(a: Vec2, b: Vec2)
  {
    a.x < b.x || (a.x == b.x && a.y < b.y)
  }

  /** `Map`: a `w` by `h` grid of bits, eight cells to a byte. */
  class Map {
    const w: nat
    const h: nat
    const elems: array<byte>

    ghost predicate Valid()
      reads this
    {
      elems.Length == Size(w, h)
    }

    /** `Map(w, h)`: all cells clear. */
    constructor (w: nat, h: nat)
      ensures Valid() && this.w == w && this.h == h
      ensures fresh(elems) && elems[..] == Zeros(Size(w, h))
    {
      this.w := w;
      this.h := h;
      elems := new byte[Size(w, h)](_ => 0);
    }

    /** `get(x, y)`. */
    function Get(x: int, y: int): Result<bool>
      reads this, elems
    {
      Lookup(elems[..], w, x, y)
    }

    /** `set(x, y, value)`: afterwards (x, y) reads `value` and no other cell of the map has changed. */
    method Set(x: int, y: int, value: bool) returns (r: Result<()>)
      modifies elems
      ensures match Store(old(elems[..]), w, x, y, value)
        case Ok(bytes) => r.Ok? && elems[..] == bytes
        case Err(e) => r == Err(e) && elems[..] == old(elems[..])
      ensures r.Ok? ==> Get(x, y) == Ok(value)
      ensures Valid() && Inside(w, h, Vec2(x, y)) ==> r.Ok?
      ensures Valid() && Inside(w, h, Vec2(x, y)) ==>
        forall q :: Inside(w, h, q) && q != Vec2(x, y) ==> Get(q.x, q.y) == old(Get(q.x, q.y))
    {
      ghost var before := elems[..];
      if Valid() && Inside(w, h, Vec2(x, y)) {
        ByteIndexSound(w, h, x, y, x, y);
      }
      var idx := ByteIndex(w, x, y);
      if idx < 0 || idx >= elems.Length {
        return Err("out of bounds");
      }
      var bit := BitIndex(x);
      if bit < 0 {
        return Err("negative shift");
      }
      if value {
        elems[idx] := OrByte(elems[idx], Mask(bit));
      } else {
        elems[idx] := AndByte(elems[idx], NotByte(Mask(bit)));
      }
      r := Ok(());
      assert elems[..] == Store(before, w, x, y, value).value;
      LookupStore(before, w, x, y, value);
      if Valid() && Inside(w, h, Vec2(x, y)) {
        StoreKeepsOthers(before, w, h, x, y, value);
      }
    }

    /** `neighbors(x, y)`: the cells of the map next to (x, y), in column-major order. */
    method Neighbors(x: int, y: int) returns (res: seq<Vec2>)
      ensures forall q :: q in res <==> Inside(w, h, q) && Adjacent(Vec2(x, y), q)
      ensures Ascending(res)
      ensures |res| <= 4
    {
      var p := Vec2(x, y);
      var minx, miny := Lo(x), Lo(y);
      var maxx, maxy := Hi(x, w), Hi(y, h);
      res := [];
      var i := minx;
      while i <= maxx
        invariant minx <= i && (i <= maxx + 1 || i == minx)
        invariant Listed(res, w, h, p, Vec2(i, miny))
        invariant Ascending(res) && Below(res, Vec2(i, miny))
      {
        var j := miny;
        while j <= maxy
          invariant miny <= j && (j <= maxy + 1 || j == miny)
          invariant Listed(res, w, h, p, Vec2(i, j))
          invariant Ascending(res) && Below(res, Vec2(i, j))
        {
          ghost var before := res;
          if i == x && j == y {
          } else if i != x && j != y {
          } else {
            res := res + [Vec2(i, j)];
          }
          ListedStep(before, res, w, h, p, i, j);
          j := j + 1;
        }
        ListedNextColumn(res, w, h, p, i, j);
        i := i + 1;
      }
      ListedAll(res, w, h, p, i);
      Lists.DistinctSize(res);
      var around := {Vec2(x - 1, y), Vec2(x + 1, y), Vec2(x, y - 1), Vec2(x, y + 1)};
      assert (set q | q in res) <= around;
      SubsetSize((set q | q in res), around);
    }
  }

  /** Strictly increasing in column-major order. */
  predicate Ascending(res: seq<Vec2>)
  {
    forall k, l :: 0 <= k < l < |res| ==> Before(res[k], res[l])
  }

  /** Every cell listed comes before `c`. */
  predicate Below(res: seq<Vec2>, c: Vec2)
  {
    forall k :: 0 <= k < |res| ==> Before(res[k], c)
  }

  /** `res` lists the neighbours of `p` inside the map that come before `c`. */
  ghost predicate Listed(res: seq<Vec2>, w: int, h: int, p: Vec2, c: Vec2)
  {
    forall q :: q in res <==> Inside(w, h, q) && Adjacent(p, q) && Before(q, c)
  }

  /** `Lo(x)`..`Hi(x, w)`: the clamped window of coordinates `neighbors` scans around `x`. */
  function Lo(x: int): int
  {
    if x - 1 > 0 then x - 1 else 0
  }

  function Hi(x: int, w: int): int
  {
    if x + 1 < w - 1 then x + 1 else w - 1
  }

  /** Every neighbour inside the map lies in the scanned window. */
  lemma Window(w: int, h: int, p: Vec2, q: Vec2)
    requires Inside(w, h, q) && Adjacent(p, q)
    ensures Lo(p.x) <= q.x <= Hi(p.x, w) && Lo(p.y) <= q.y <= Hi(p.y, h)
  {
  }

  /** A scanned cell is kept exactly when it is a neighbour. */
  lemma ListedStep(before: seq<Vec2>, res: seq<Vec2>, w: int, h: int, p: Vec2, i: int, j: int)
    requires Lo(p.x) <= i <= Hi(p.x, w) && Lo(p.y) <= j <= Hi(p.y, h)
    requires Listed(before, w, h, p, Vec2(i, j)) && Ascending(before) && Below(before, Vec2(i, j))
    requires res == if (i == p.x && j == p.y) || (i != p.x && j != p.y) then before else before + [Vec2(i, j)]
    ensures Listed(res, w, h, p, Vec2(i, j + 1)) && Ascending(res) && Below(res, Vec2(i, j + 1))
  {
    var c := Vec2(i, j);
    assert Inside(w, h, c);
    assert Adjacent(p, c) <==> !((i == p.x && j == p.y) || (i != p.x && j != p.y));
    forall q
      ensures Before(q, Vec2(i, j + 1)) <==> Before(q, c) || q == c
    {
    }
  }

  /** After scanning column `i` of the window, the next column starts. */
  lemma ListedNextColumn(res: seq<Vec2>, w: int, h: int, p: Vec2, i: int, j: int)
    requires Lo(p.y) <= j && (j <= Hi(p.y, h) + 1 || j == Lo(p.y)) && j > Hi(p.y, h)
    requires Listed(res, w, h, p, Vec2(i, j)) && Below(res, Vec2(i, j))
    ensures Listed(res, w, h, p, Vec2(i + 1, Lo(p.y))) && Below(res, Vec2(i + 1, Lo(p.y)))
  {
    forall q | Inside(w, h, q) && Adjacent(p, q)
      ensures Before(q, Vec2(i, j)) <==> Before(q, Vec2(i + 1, Lo(p.y)))
    {
      Window(w, h, p, q);
    }
  }

  /** After the last column every neighbour inside the map is listed. */
  lemma ListedAll(res: seq<Vec2>, w: int, h: int, p: Vec2, i: int)
    requires Lo(p.x) <= i && (i <= Hi(p.x, w) + 1 || i == Lo(p.x)) && i > Hi(p.x, w)
    requires Listed(res, w, h, p, Vec2(i, Lo(p.y)))
    ensures forall q :: q in res <==> Inside(w, h, q) && Adjacent(p, q)
  {
    forall q | Inside(w, h, q) && Adjacent(p, q)
      ensures Before(q, Vec2(i, Lo(p.y)))
    {
      Window(w, h, p, q);
    }
  }

  lemma SubsetSize<T>(a: set<T>, b: set<T>)
    requires a <= b
    ensures |a| <= |b|
  {
    assert b == a + (b - a);
  }

  /** `lhs & rhs`: a new map of `lhs`'s size holding the bytewise and. */
  method And(lhs: Map, rhs: Map) returns (r: Result<Map>)
    requires lhs.Valid()
    ensures r.Ok? <==> lhs.elems.Length <= rhs.elems.Length
    ensures r.Err? ==> r.error == "reads past the right operand"
    ensures r.Ok? ==> fresh(r.value) && fresh(r.value.elems) && r.value.Valid()
    ensures r.Ok? ==> r.value.w == lhs.w && r.value.h == lhs.h
    ensures r.Ok? ==> r.value.elems[..] == AndBytes(lhs.elems[..], rhs.elems[..])
  {
    if rhs.elems.Length < lhs.elems.Length {
      // Indexing past the end of `rhs.elems` is undefined behaviour in C++.
      return Err("reads past the right operand");
    }
    var res := new Map(lhs.w, lhs.h);
    var i := 0;
    while i < lhs.elems.Length
      invariant 0 <= i <= lhs.elems.Length
      invariant res.elems[..i] == AndBytes(lhs.elems[..], rhs.elems[..])[..i]
    {
      res.elems[i] := AndByte(lhs.elems[i], rhs.elems[i]);
      i := i + 1;
    }
    assert res.elems[..] == res.elems[..i];
    return Ok(res);
  }

  /** `lhs | rhs`: a new map of `lhs`'s size holding the bytewise or. */
  method Or(lhs: Map, rhs: Map) returns (r: Result<Map>)
    requires lhs.Valid()
    ensures r.Ok? <==> lhs.elems.Length <= rhs.elems.Length
    ensures r.Err? ==> r.error == "reads past the right operand"
    ensures r.Ok? ==> fresh(r.value) && fresh(r.value.elems) && r.value.Valid()
    ensures r.Ok? ==> r.value.w == lhs.w && r.value.h == lhs.h
    ensures r.Ok? ==> r.value.elems[..] == OrBytes(lhs.elems[..], rhs.elems[..])
  {
    if rhs.elems.Length < lhs.elems.Length {
      return Err("reads past the right operand");
    }
    var res := new Map(lhs.w, lhs.h);
    var i := 0;
    while i < lhs.elems.Length
      invariant 0 <= i <= lhs.elems.Length
      invariant res.elems[..i] == OrBytes(lhs.elems[..], rhs.elems[..])[..i]
    {
      res.elems[i] := OrByte(lhs.elems[i], rhs.elems[i]);
      i := i + 1;
    }
    assert res.elems[..] == res.elems[..i];
    return Ok(res);
  }

  /** `int(m)`: the number of set bits over all bytes, one `countBits` per byte. */
  method CountSet(m: Map) returns (count: nat)
    ensures count == Total(m.elems[..])
  {
    count := 0;
    var i := 0;
    while i < m.elems.Length
      invariant 0 <= i <= m.elems.Length
      invariant count == Total(m.elems[..i])
    {
      assert m.elems[..i + 1][..i] == m.elems[..i];
      count := count + CountBits(m.elems[i]);
      i := i + 1;
    }
    assert m.elems[..] == m.elems[..i];
  }

  /* ---------------------------------------------------------------- extreme rows and columns */

  /** A `std::pair<int, int>` of the least and greatest coordinate seen, `-1` for none yet. */
  class Extreme {
    var first: int
    var second: int

    constructor (first: int, second: int)
      ensures this.first == first && this.second == second
    {
      this.first := first;
      this.second := second;
    }
  }

  /** The pair after seeing `x`: a `-1` end becomes `x`, then the ends move out to cover `x`. */
  function Widen(first: int, second: int, x: int): (r: (int, int))
    ensures r.0 <= x <= r.1
    ensures first != -1 ==> r.0 <= first
    ensures second != -1 ==> second <= r.1
    ensures r.0 == x || (r.0 == first && first != -1)
    ensures r.1 == x || (r.1 == second && second != -1)
  {
    var lo := if first == -1 then x else first;
    var hi := if second == -1 then x else second;
    (if x < lo then x else lo, if x > hi then x else hi)
  }

  /** The pair a sequence of coordinates leads to: `(-1, -1)` for none, otherwise its least and greatest. */
  function Hull(seen: seq<nat>): (int, int)
  {
    if seen == [] then (-1, -1) else (Lists.Min(seen), Lists.Max(seen))
  }

  /** Starting from `(-1, -1)`, the pair is always the least and the greatest coordinate seen so far. */
  lemma WidenHull(seen: seq<nat>, x: nat)
    ensures Widen(Hull(seen).0, Hull(seen).1, x) == Hull(seen + [x])
  {
    var s := seen + [x];
    var r := Widen(Hull(seen).0, Hull(seen).1, x);
    if seen != [] {
      var lo, hi := Lists.Min(seen), Lists.Max(seen);
      assert forall k :: 0 <= k < |s| ==> r.0 <= s[k] <= r.1 by {
        assert forall k :: 0 <= k < |seen| ==> s[k] == seen[k];
      }
      assert r.0 in s && r.1 in s;
      MinUnique(s, r.0);
      MaxUnique(s, r.1);
    } else {
      assert s == [x];
    }
  }

  lemma MinUnique(s: seq<int>, m: int)
    requires m in s && forall k :: 0 <= k < |s| ==> m <= s[k]
    ensures Lists.Min(s) == m
  {
    var t := Lists.Min(s);
    var i :| 0 <= i < |s| && s[i] == t;
  }

  lemma MaxUnique(s: seq<int>, m: int)
    requires m in s && forall k :: 0 <= k < |s| ==> s[k] <= m
    ensures Lists.Max(s) == m
  {
    var t := Lists.Max(s);
    var i :| 0 <= i < |s| && s[i] == t;
  }

  /** `updateExtremeRow(row, x)`: widens the pair to cover `x`. */
  method UpdateExtremeRow(row: Extreme, x: int)
    modifies row
    ensures (row.first, row.second) == Widen(old(row.first), old(row.second), x)
  {
    if row.first == -1 {
      row.first := x;
    }
    if row.second == -1 {
      row.second := x;
    }
    row.first := if row.first < x then row.first else x;
    row.second := if row.second > x then row.second else x;
  }

  /** `updateExtremeColumn(col, y)`: the same widening, for a column's pair of rows. */
  method UpdateExtremeColumn(col: Extreme, y: int)
    modifies col
    ensures (col.first, col.second) == Widen(old(col.first), old(col.second), y)
  {
    UpdateExtremeRow(col, y);
  }
}
