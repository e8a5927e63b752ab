/**
 * Day 8 in C++ (08/cpp/main.cpp): node names packed into integers, the graph kept in an ordered
 * map from hash to node, and the waypoint table stored flat, waypoint (i, j) at index i·n + j.
 *
 * A C++ `char` is a byte: a character of the model is read as its low byte, signed, as on x86.
 * `size_t` is 64 bits wide and `int` 32 bits, and the conversions between them are written out.
 */
module Day08Graph {
  import opened Wrappers
  import opened Strings
  import Chains

  // ---------------------------------------------------------------- machine integers

  const WORD: nat := 0x1_0000_0000_0000_0000

  /** The value a `char` holds: the low byte, read as a signed number. */
  function CharValue(c: char): (v: int)
    ensures -128 <= v < 128 && (c as int < 128 ==> v == c as int)
  {
    var b := c as int % 256;
    if b < 128 then b else b - 256
  }

  /** A conversion to `size_t`: the value modulo 2^64. */
  function SizeT(x: int): (r: nat)
    ensures r < WORD && (0 <= x < WORD ==> r == x)
  {
    x % WORD
  }

  /** A conversion to a 32-bit `int`: the value modulo 2^32, in the signed range. */
  function Int32(x: int): (r: int)
    ensures -0x8000_0000 <= r < 0x8000_0000 && (0 <= x < 0x8000_0000 ==> r == x)
  {
    var m := x % 0x1_0000_0000;
    if m < 0x8000_0000 then m else m - 0x1_0000_0000
  }

  /** The `char` a `size_t` is converted to: its low byte. */
  function ByteChar(x: int): (c: char)
    ensures c as int < 256 && (0 <= x < 256 ==> c as int == x)
  {
    (x % 256) as char
  }

  // ---------------------------------------------------------------- names and hashes

  /**
   * `getNodeNameHash`: the first three characters, less '0', as the three low bytes. The sum is
   * kept in an `int` (`auto res = 0`), so each `+=` wraps it to 32 bits, and the result is
   * sign-extended back to `size_t`.
   */
  function NameHash(s: string): (h: nat)
    requires |s| >= 3
    ensures h < WORD
  {
    var base := '0' as int;
    var res1 := Int32(SizeT(0) + SizeT(SizeT(CharValue(s[0])) - base));
    var res2 := Int32(SizeT(res1) + SizeT(SizeT(SizeT(CharValue(s[1])) - base) * 0x100));
    var res3 := Int32(SizeT(res2) + SizeT(SizeT(SizeT(CharValue(s[2])) - base) * 0x1_0000));
    SizeT(res3)
  }

  /** `getNodeName`: the three low bytes of the hash, each plus '0', as characters. */
  function NodeName(h: nat): (s: string)
    ensures |s| == 3
    ensures forall k :: 0 <= k < 3 ==> s[k] as int < 256
  {
    [ByteChar(48 + h % 0x100), ByteChar(48 + (h / 0x100) % 0x100), ByteChar(48 + (h / 0x1_0000) % 0x100)]
  }

  /** A name the hash packs without loss: three characters from '0' up to 0x7F. */
  predicate PlainName(s: string)
  {
    |s| == 3 && forall k :: 0 <= k < 3 ==> '0' <= s[k] <= 0x7F as char
  }

  /** For a plain name, no `+=` wraps: the hash is the sum of the three bytes. */
  lemma NameHashPlain(s: string)
    requires PlainName(s)
    ensures NameHash(s) == (s[0] as int - 48) + (s[1] as int - 48) * 0x100 + (s[2] as int - 48) * 0x1_0000
  {
    var a, b, c := s[0] as int - 48, s[1] as int - 48, s[2] as int - 48;
    assert 0 <= a < 80 && 0 <= b < 80 && 0 <= c < 80;
    var base := '0' as int;
    var t0 := SizeT(SizeT(CharValue(s[0])) - base);
    assert t0 == a;
    var res1 := Int32(SizeT(0) + t0);
    assert res1 == a;
    var t1 := SizeT(SizeT(SizeT(CharValue(s[1])) - base) * 0x100);
    assert t1 == b * 0x100;
    var res2 := Int32(SizeT(res1) + t1);
    assert res2 == a + b * 0x100;
    var t2 := SizeT(SizeT(SizeT(CharValue(s[2])) - base) * 0x1_0000);
    assert t2 == c * 0x1_0000;
    var res3 := Int32(SizeT(res2) + t2);
    assert res3 == a + b * 0x100 + c * 0x1_0000;
  }

  /** Dividing a number written as `q * 256 + r` with `0 <= r < 256`. */
  lemma DivModByte(x: int, q: int, r: int)
    requires 0 <= r < 0x100 && x == q * 0x100 + r
    ensures x / 0x100 == q && x % 0x100 == r
  {
  }

  /** Dividing a number written as `q * 65536 + r` with `0 <= r < 65536`. */
  lemma DivModTwoBytes(x: int, q: int, r: int)
    requires 0 <= r < 0x1_0000 && x == q * 0x1_0000 + r
    ensures x / 0x1_0000 == q && x % 0x1_0000 == r
  {
  }

  /** `getNodeName(getNodeNameHash(s)) == s` for a plain name, and its hash fits in three bytes. */
  lemma NameRoundTrip(s: string)
    requires PlainName(s)
    ensures NameHash(s) < 0x100_0000
    ensures NodeName(NameHash(s)) == s
  {
    NameHashPlain(s);
    var a, b, c := s[0] as int - 48, s[1] as int - 48, s[2] as int - 48;
    var h := NameHash(s);
    DivModByte(h, b + c * 0x100, a);
    DivModByte(b + c * 0x100, c, b);
    DivModTwoBytes(h, c, a + b * 0x100);
    DivModByte(c, 0, c);
    var r := NodeName(h);
    assert r[0] == s[0] && r[1] == s[1] && r[2] == s[2];
  }

  /** Distinct plain names have distinct hashes. */
  lemma NameHashInjective(s: string, t: string)
    requires PlainName(s) && PlainName(t) && NameHash(s) == NameHash(t)
    ensures s == t
  {
    NameRoundTrip(s);
    NameRoundTrip(t);
  }

  // ---------------------------------------------------------------- trimming and splitting

  /** `ltrim(s, c)`: erases the leading run of `c`. */
  function LTrim(s: string, c: char): string
  {
    if |s| > 0 && s[0] == c then LTrim(s[1..], c) else s
  }

  /** `rtrim(s, c)`: erases the trailing run of `c`. */
  function RTrim(s: string, c: char): string
  {
    if |s| > 0 && s[|s| - 1] == c then RTrim(s[..|s| - 1], c) else s
  }

  /** `trim(s, c)`: `ltrim(rtrim(s, c), c)`. */
  function Trim(s: string, c: char): string
  {
    LTrim(RTrim(s, c), c)
  }

  /** `n` copies of `c`. */
  function Run(c: char, n: nat): (r: string)
    ensures |r| == n && forall i :: 0 <= i < n ==> r[i] == c
  {
    seq(n, i => c)
  }

  /** `ltrim` keeps a suffix, with only `c` before it, that does not start with `c`. */
  lemma {:induction false} LTrimSuffix(s: string, c: char)
    ensures |LTrim(s, c)| <= |s| && LTrim(s, c) == s[|s| - |LTrim(s, c)|..]
    ensures forall i :: 0 <= i < |s| - |LTrim(s, c)| ==> s[i] == c
    ensures LTrim(s, c) == [] || LTrim(s, c)[0] != c
    decreases |s|
  {
    if |s| > 0 && s[0] == c {
      LTrimSuffix(s[1..], c);
    }
  }

  /** `rtrim` keeps a prefix, with only `c` after it, that does not end with `c`. */
  lemma {:induction false} RTrimPrefix(s: string, c: char)
    ensures |RTrim(s, c)| <= |s| && RTrim(s, c) == s[..|RTrim(s, c)|]
    ensures forall i :: |RTrim(s, c)| <= i < |s| ==> s[i] == c
    ensures RTrim(s, c) == [] || RTrim(s, c)[|RTrim(s, c)| - 1] != c
    decreases |s|
  {
    if |s| > 0 && s[|s| - 1] == c {
      RTrimPrefix(s[..|s| - 1], c);
    }
  }

  /** What `trim` keeps: a slice of `s` with only `c` outside it, neither starting nor ending with `c`. */
  lemma TrimSlice(s: string, c: char)
    ensures exists a, b ::
      0 <= a <= b <= |s| && Trim(s, c) == s[a..b] && (forall i :: 0 <= i < a || b <= i < |s| ==> s[i] == c)
    ensures Trim(s, c) == [] || (Trim(s, c)[0] != c && Trim(s, c)[|Trim(s, c)| - 1] != c)
  {
    var e := RTrim(s, c);
    RTrimPrefix(s, c);
    LTrimSuffix(e, c);
    var r := Trim(s, c);
    var a := |e| - |r|;
    assert r == s[a..|e|];
  }

  /** Runs of `c` around a text that neither starts nor ends with `c` are all that `trim` removes. */
  lemma {:induction false} TrimPadded(m: nat, t: string, n: nat, c: char)
    requires |t| > 0 && t[0] != c && t[|t| - 1] != c
    ensures Trim(Run(c, m) + t + Run(c, n), c) == t
  {
    TrimEndPadded(Run(c, m) + t, n, c);
    TrimStartPadded(m, t, c);
  }

  lemma {:induction false} TrimEndPadded(u: string, n: nat, c: char)
    requires |u| > 0 && u[|u| - 1] != c
    ensures RTrim(u + Run(c, n), c) == u
    decreases n
  {
    if n == 0 {
      assert u + Run(c, n) == u;
    } else {
      assert (u + Run(c, n))[..|u| + n - 1] == u + Run(c, n - 1);
      TrimEndPadded(u, n - 1, c);
    }
  }

  lemma {:induction false} TrimStartPadded(m: nat, t: string, c: char)
    requires |t| > 0 && t[0] != c
    ensures LTrim(Run(c, m) + t, c) == t
    decreases m
  {
    if m == 0 {
      assert Run(c, m) + t == t;
    } else {
      assert (Run(c, m) + t)[1..] == Run(c, m - 1) + t;
      TrimStartPadded(m - 1, t, c);
    }
  }

  /** The check at the start of `main`: `trim("  AAA  ", ' ')` is "AAA". */
  lemma TrimExample()
    ensures Trim("  AAA  ", ' ') == "AAA"
  {
    assert "  AAA  " == Run(' ', 2) + "AAA" + Run(' ', 2);
    TrimPadded(2, "AAA", 2, ' ');
  }

  /** `split(s, delim)`: the pieces `std::getline` reads up to each delimiter. */
  function SplitAt(s: string, delim: char): (parts: seq<string>)
    ensures forall k, i :: 0 <= k < |parts| && 0 <= i < |parts[k]| ==> parts[k][i] != delim
  {
    SplitTerminated(s, delim)
  }

  /** A text made of a delimiter-free head, the delimiter, and a non-empty delimiter-free tail splits into the two. */
  lemma SplitTwo(a: string, delim: char, b: string)
    requires forall i :: 0 <= i < |a| ==> a[i] != delim
    requires |b| > 0 && forall i :: 0 <= i < |b| ==> b[i] != delim
    ensures SplitAt(a + [delim] + b, delim) == [a, b]
  {
    var s := a + [delim] + b;
    FindAfter(a, delim, b);
    SplitHead(s, [delim], |a|);
    assert s[..|a|] == a;
    assert s[|a| + 1..] == b;
    FindAbsent(b, delim);
    SplitHead(b, [delim], -1);
    assert SplitOn(s, delim) == [a, b];
  }

  // ---------------------------------------------------------------- reading a node

  datatype Node = Node(hash: nat, lhs: nat, rhs: nat)

  /** The message for an index past the end of a vector, which C++ leaves undefined. */
  const MissingPart := "missing part"

  function TrimEach(parts: seq<string>, c: char): (r: seq<string>)
    ensures |r| == |parts| && forall k :: 0 <= k < |parts| ==> r[k] == Trim(parts[k], c)
  {
    seq(|parts|, k requires 0 <= k < |parts| => Trim(parts[k], c))
  }

  /** The children of a node line: the text after '=', without blanks and parentheses, split at ',' and trimmed. */
  function ChildNames(rhs: string): (names: seq<string>)
  {
    TrimEach(SplitAt(Trim(Trim(rhs, '('), ')'), ','), ' ')
  }

  /**
   * `readNode`: "DRM = (DLQ, BGR)" gives the hashes of DRM, DLQ and BGR. A name or child that is
   * not three characters long after trimming throws; a line without '=' or without two children
   * reads past the end of a vector.
   */
  function ParseNode(line: string): Result<Node>
  {
    var parts := NodeParts(line);
    if |parts| == 0 then Err(MissingPart)
    else if |parts[0]| != 3 then Err("Invalid node name")
    else if |parts| < 2 then Err(MissingPart)
    else
      var children := ChildNames(parts[1]);
      if !AllNames(children) then Err("Invalid child node name")
      else if |children| < 2 then Err(MissingPart)
      else Ok(Node(NameHash(parts[0]), NameHash(children[0]), NameHash(children[1])))
  }

  /** The sides of a node line: split at '=', blanks trimmed. */
  function NodeParts(line: string): seq<string>
  {
    TrimEach(SplitAt(line, '='), ' ')
  }

  /** Every child name is three characters long. */
  predicate AllNames(children: seq<string>)
  {
    forall k :: 0 <= k < |children| ==> |children[k]| == 3
  }

  /** The first loop of `readNode`: every part trimmed in place. */
  method TrimParts(split: seq<string>, c: char) returns (parts: seq<string>)
    ensures parts == TrimEach(split, c)
  {
    parts := split;
    var k := 0;
    while k < |parts|
      invariant 0 <= k <= |parts| == |split|
      invariant forall m :: 0 <= m < k ==> parts[m] == Trim(split[m], c)
      invariant forall m :: k <= m < |parts| ==> parts[m] == split[m]
    {
      parts := parts[k := Trim(parts[k], c)];
      k := k + 1;
    }
  }

  /** The second loop of `readNode`: each child trimmed in place and checked, stopping at the first that is not a name. */
  method TrimChildren(pieces: seq<string>) returns (children: seq<string>, ok: bool)
    ensures ok <==> AllNames(TrimEach(pieces, ' '))
    ensures ok ==> children == TrimEach(pieces, ' ')
  {
    children := pieces;
    var k := 0;
    while k < |children|
      invariant 0 <= k <= |children| == |pieces|
      invariant forall m :: 0 <= m < k ==> children[m] == Trim(pieces[m], ' ')
      invariant forall m :: k <= m < |children| ==> children[m] == pieces[m]
      invariant forall m :: 0 <= m < k ==> |children[m]| == 3
    {
      children := children[k := Trim(children[k], ' ')];
      if |children[k]| != 3 {
        assert TrimEach(pieces, ' ')[k] == children[k];
        return children, false;
      }
      k := k + 1;
    }
    return children, true;
  }

  /** `readNode` as the source writes it: a loop trimming the parts, then one trimming and checking the children. */
  method ReadNode(line: string) returns (r: Result<Node>)
    ensures r == ParseNode(line)
  {
    var parts := TrimParts(SplitAt(line, '='), ' ');
    if |parts| == 0 {
      return Err(MissingPart);
    }
    if |parts[0]| != 3 {
      return Err("Invalid node name");
    }
    if |parts| < 2 {
      return Err(MissingPart);
    }
    var children, ok := TrimChildren(SplitAt(Trim(Trim(parts[1], '('), ')'), ','));
    if !ok {
      return Err("Invalid child node name");
    }
    if |children| < 2 {
      return Err(MissingPart);
    }
    return Ok(Node(NameHash(parts[0]), NameHash(children[0]), NameHash(children[1])));
  }

  /** A name that survives a node line: plain, and not '=' (the other separators are below '0'). */
  predicate LineName(s: string)
  {
    PlainName(s) && forall k :: 0 <= k < 3 ==> s[k] != '='
  }

  /** The children as `operator<<` lists them: "DLQ, BGR". */
  function ChildList(left: string, right: string): string
  {
    left + ", " + right
  }

  /** A text in parentheses. */
  function Parens(s: string): string
  {
    "(" + s + ")"
  }

  /** The line `operator<<` writes for a node with these names. */
  function NodeLine(name: string, left: string, right: string): string
  {
    name + " = " + Parens(ChildList(left, right))
  }

  /** `operator<<` for a node: its name, then its children's names. */
  function RenderNode(n: Node): (line: string)
  {
    NodeLine(NodeName(n.hash), NodeName(n.lhs), NodeName(n.rhs))
  }

  /** `trim` drops one trailing `c` from a text that neither starts nor ends with `c`. */
  lemma TrimOneAfter(t: string, c: char)
    requires |t| > 0 && t[0] != c && t[|t| - 1] != c
    ensures Trim(t + [c], c) == t
  {
    assert t + [c] == Run(c, 0) + t + Run(c, 1);
    TrimPadded(0, t, 1, c);
  }

  /** `trim` drops one leading `c` from a text that neither starts nor ends with `c`. */
  lemma TrimOneBefore(t: string, c: char)
    requires |t| > 0 && t[0] != c && t[|t| - 1] != c
    ensures Trim([c] + t, c) == t
  {
    assert [c] + t == Run(c, 1) + t + Run(c, 0);
    TrimPadded(1, t, 0, c);
  }

  /** `trim` keeps a text that neither starts nor ends with `c`. */
  lemma TrimNone(t: string, c: char)
    requires |t| > 0 && t[0] != c && t[|t| - 1] != c
    ensures Trim(t, c) == t
  {
    assert t == Run(c, 0) + t + Run(c, 0);
    TrimPadded(0, t, 0, c);
  }

  /** A name does not hold `c` when `c` is below '0'. */
  lemma NameAvoids(s: string, c: char)
    requires LineName(s) && c < '0'
    ensures |s| > 0 && s[0] != c && s[|s| - 1] != c
    ensures forall i :: 0 <= i < |s| ==> s[i] != c
  {
  }

  /** A written node line splits at '=' into the name with a blank, and the rest. */
  lemma NodeLineSplit(name: string, left: string, right: string)
    requires LineName(name) && LineName(left) && LineName(right)
    ensures SplitAt(NodeLine(name, left, right), '=') == [name + " ", " " + Parens(ChildList(left, right))]
  {
    var rhs := " " + Parens(ChildList(left, right));
    assert NodeLine(name, left, right) == (name + " ") + ['='] + rhs;
    assert forall i :: 0 <= i < |rhs| ==> rhs[i] != '=';
    SplitTwo(name + " ", '=', rhs);
  }

  /** A parenthesised text begins with '(' and ends with ')'. */
  lemma ParensEnds(s: string)
    ensures |Parens(s)| > 0 && Parens(s)[0] == '(' && Parens(s)[|Parens(s)| - 1] == ')'
  {
  }

  /** Trimming each of two texts. */
  lemma TrimEachPair(a: string, b: string, c: char)
    ensures TrimEach([a, b], c) == [Trim(a, c), Trim(b, c)]
  {
  }

  /** `trim` drops the blank after a name. */
  lemma TrimNameBlank(name: string)
    requires LineName(name)
    ensures Trim(name + " ", ' ') == name
  {
    NameAvoids(name, ' ');
    TrimOneAfter(name, ' ');
  }

  /** `trim` drops the blank before the parenthesised children. */
  lemma TrimChildrenBlank(left: string, right: string)
    ensures Trim(" " + Parens(ChildList(left, right)), ' ') == Parens(ChildList(left, right))
  {
    var inner := Parens(ChildList(left, right));
    ParensEnds(ChildList(left, right));
    assert " " + inner == [' '] + inner;
    TrimOneBefore(inner, ' ');
  }

  /** The two sides of a written node line, split at '=' and trimmed. */
  lemma NodeLineParts(name: string, left: string, right: string)
    requires LineName(name) && LineName(left) && LineName(right)
    ensures NodeParts(NodeLine(name, left, right)) == [name, Parens(ChildList(left, right))]
  {
    NodeLineSplit(name, left, right);
    TrimNameBlank(name);
    TrimChildrenBlank(left, right);
    TrimEachPair(name + " ", " " + Parens(ChildList(left, right)), ' ');
  }

  /** Trimming '(' and then ')' strips one pair of parentheses from a text that starts and ends with neither. */
  lemma TrimParens(listed: string)
    requires |listed| > 0 && listed[0] != '(' && listed[0] != ')'
    requires listed[|listed| - 1] != '(' && listed[|listed| - 1] != ')'
    ensures Trim(Trim(Parens(listed), '('), ')') == listed
  {
    assert Parens(listed) == ['('] + (listed + ")");
    TrimOneBefore(listed + ")", '(');
    assert listed + ")" == listed + [')'];
    TrimOneAfter(listed, ')');
  }

  /** The ends of a children list are the first letter of the left name and the last of the right. */
  lemma ChildListEnds(left: string, right: string)
    requires |left| == 3 && |right| == 3
    ensures |ChildList(left, right)| == 8
    ensures ChildList(left, right)[0] == left[0] && ChildList(left, right)[7] == right[2]
  {
  }

  /** The children inside the parentheses, before trimming them. */
  lemma NodeLineList(left: string, right: string)
    requires LineName(left) && LineName(right)
    ensures Trim(Trim(Parens(ChildList(left, right)), '('), ')') == ChildList(left, right)
  {
    ChildListEnds(left, right);
    NameAvoids(left, '(');
    NameAvoids(left, ')');
    NameAvoids(right, '(');
    NameAvoids(right, ')');
    TrimParens(ChildList(left, right));
  }

  /** `trim` drops the blank a child name follows. */
  lemma TrimBlankName(right: string)
    requires LineName(right)
    ensures Trim(" " + right, ' ') == right
  {
    NameAvoids(right, ' ');
    assert " " + right == [' '] + right;
    TrimOneBefore(right, ' ');
  }

  /** The children list splits at ',' into the left name and the blank-led right one. */
  lemma ChildListSplit(left: string, right: string)
    requires LineName(left) && LineName(right)
    ensures SplitAt(ChildList(left, right), ',') == [left, " " + right]
  {
    NameAvoids(left, ',');
    NameAvoids(right, ',');
    assert ChildList(left, right) == left + [','] + (" " + right);
    SplitTwo(left, ',', " " + right);
  }

  /** Trimming blanks from the two split pieces gives the two names. */
  lemma TrimPieces(left: string, right: string)
    requires LineName(left) && LineName(right)
    ensures TrimEach([left, " " + right], ' ') == [left, right]
  {
    NameAvoids(left, ' ');
    TrimNone(left, ' ');
    TrimBlankName(right);
    TrimEachPair(left, " " + right, ' ');
  }

  /** The parenthesised children of a written node line. */
  lemma NodeLineChildren(left: string, right: string)
    requires LineName(left) && LineName(right)
    ensures ChildNames(Parens(ChildList(left, right))) == [left, right]
  {
    NodeLineList(left, right);
    ChildListSplit(left, right);
    TrimPieces(left, right);
  }

  /** `readNode` on a line whose sides and children come out as three-letter names. */
  lemma ParseFromParts(line: string, name: string, inner: string, left: string, right: string)
    requires NodeParts(line) == [name, inner] && ChildNames(inner) == [left, right]
    requires |name| == 3 && |left| == 3 && |right| == 3
    ensures ParseNode(line) == Ok(Node(NameHash(name), NameHash(left), NameHash(right)))
  {
    assert AllNames(ChildNames(inner));
  }

  /** Reading a written node line gives back the three hashes. */
  lemma ParseNodeLine(name: string, left: string, right: string)
    requires LineName(name) && LineName(left) && LineName(right)
    ensures ParseNode(NodeLine(name, left, right)) == Ok(Node(NameHash(name), NameHash(left), NameHash(right)))
  {
    NodeLineParts(name, left, right);
    NodeLineChildren(left, right);
    ParseFromParts(NodeLine(name, left, right), name, Parens(ChildList(left, right)), left, right);
  }

  /** Writing a node whose hashes come from line names and reading the line back gives the node. */
  lemma ParseRenderNode(name: string, left: string, right: string)
    requires LineName(name) && LineName(left) && LineName(right)
    ensures ParseNode(RenderNode(Node(NameHash(name), NameHash(left), NameHash(right)))) == Ok(Node(NameHash(name), NameHash(left), NameHash(right)))
  {
    NameRoundTrip(name);
    NameRoundTrip(left);
    NameRoundTrip(right);
    ParseNodeLine(name, left, right);
  }

  /** The check at the start of `main`: "DRM = (DLQ, BGR)" reads as DRM with children DLQ and BGR. */
  lemma ReadNodeExample()
    ensures ParseNode("DRM = (DLQ, BGR)") == Ok(Node(NameHash("DRM"), NameHash("DLQ"), NameHash("BGR")))
    ensures NodeName(NameHash("DRM")) == "DRM"
  {
    assert "DRM = (DLQ, BGR)" == NodeLine("DRM", "DLQ", "BGR");
    ParseNodeLine("DRM", "DLQ", "BGR");
    NameRoundTrip("DRM");
  }

  // ---------------------------------------------------------------- the graph

  /** The map `Graph` fills from a node list, in order: each hash to the last node listed with it. */
  function GraphOf(ns: seq<Node>): map<nat, Node>
  {
    if ns == [] then map[] else GraphOf(ns[..|ns| - 1])[ns[|ns| - 1].hash := ns[|ns| - 1]]
  }

  /** Every key of the map is the hash of the node it maps to. */
  predicate Keyed(m: map<nat, Node>)
  {
    forall h :: h in m ==> m[h].hash == h
  }

  /** Every node of the map is stored under its hash and comes from the list. */
  ghost predicate Drawn(m: map<nat, Node>, ns: seq<Node>)
  {
    Keyed(m) && forall h :: h in m ==> m[h] in ns
  }

  /** The graph holds exactly the listed hashes, each mapped to a listed node with that hash. */
  lemma {:induction false} GraphOfNodes(ns: seq<Node>)
    ensures Drawn(GraphOf(ns), ns)
    ensures forall k :: 0 <= k < |ns| ==> ns[k].hash in GraphOf(ns)
    decreases |ns|
  {
    if ns != [] {
      var front := ns[..|ns| - 1];
      GraphOfNodes(front);
      assert forall k :: 0 <= k < |front| ==> front[k] == ns[k];
    }
  }

  /** A later node with the same hash replaces an earlier one: the graph keeps the last. */
  lemma {:induction false} GraphOfLast(ns: seq<Node>, k: nat)
    requires k < |ns| && forall m :: k < m < |ns| ==> ns[m].hash != ns[k].hash
    ensures ns[k].hash in GraphOf(ns) && GraphOf(ns)[ns[k].hash] == ns[k]
    decreases |ns|
  {
    if k < |ns| - 1 {
      var front := ns[..|ns| - 1];
      GraphOfLast(front, k);
    }
  }

  /** `Graph`: the nodes keyed by their hash. */
  class Graph {
    const nodes: map<nat, Node>

    /** Every node is stored under its hash, a later one overwriting an earlier. */
    constructor (ns: seq<Node>)
      ensures nodes == GraphOf(ns)
    {
      var m: map<nat, Node> := map[];
      var k := 0;
      while k < |ns|
        invariant 0 <= k <= |ns| && m == GraphOf(ns[..k])
      {
        assert ns[..k + 1][..k] == ns[..k];
        m := m[ns[k].hash := ns[k]];
        k := k + 1;
      }
      assert ns[..|ns|] == ns;
      nodes := m;
    }

    /** `getNode(hash)`: `nodes.at(hash)`, which throws `out_of_range` for a missing hash. */
    function GetNode(hash: nat): (r: Result<Node>)
      ensures r.Err? <==> hash !in nodes
      ensures r.Err? ==> r.error == "out_of_range"
      ensures r.Ok? && Keyed(nodes) ==> r.value.hash == hash
    {
      if hash in nodes then Ok(nodes[hash]) else Err("out_of_range")
    }

    function GoLeft(current: Node): (r: Result<Node>)
    {
      GetNode(current.lhs)
    }

    function GoRight(current: Node): (r: Result<Node>)
    {
      GetNode(current.rhs)
    }

    /** `step`: 'L' follows the left child, 'R' the right one, and any other instruction throws. */
    function Step(current: Node, instruction: char): (r: Result<Node>)
      ensures instruction != 'L' && instruction != 'R' ==> r == Err("Invalid instruction")
      ensures instruction == 'L' ==> r == GetNode(current.lhs)
      ensures instruction == 'R' ==> r == GetNode(current.rhs)
    {
      if instruction == 'L' then GoLeft(current)
      else if instruction == 'R' then GoRight(current)
      else Err("Invalid instruction")
    }
  }

  /** A step in a graph built from a node list ends at a node of the list with the child's hash. */
  lemma StepInList(g: Graph, ns: seq<Node>, current: Node, instruction: char)
    requires Drawn(g.nodes, ns) && g.Step(current, instruction).Ok?
    ensures g.Step(current, instruction).value in ns
    ensures g.Step(current, instruction).value.hash == if instruction == 'L' then current.lhs else current.rhs
  {
  }

  // ---------------------------------------------------------------- the instruction circle

  /** `InstructionCircle`: the instructions, read round and round from `idx`. */
  class InstructionCircle {
    const instructions: string
    var idx: nat

    /** The remainder `%` needs a non-empty text, and `instructions[idx]` an index up to its length. */
    predicate Valid()
      reads this
    {
      0 < |instructions| && idx <= |instructions|
    }

    constructor (instructions: string, idx: nat)
      requires 0 < |instructions| && idx <= |instructions|
      ensures Valid() && this.instructions == instructions && this.idx == idx
    {
      this.instructions := instructions;
      this.idx := idx;
    }

    /**
     * `next`: the instruction at `idx` (the terminating '\0' of a `std::string` at its length),
     * and `idx` moves on by one modulo the length, so after a call it is always a valid index.
     */
    method Next() returns (c: char)
      requires Valid()
      modifies this`idx
      ensures Valid() && idx < |instructions|
      ensures c == if old(idx) < |instructions| then instructions[old(idx)] else 0 as char
      ensures idx == (old(idx) + 1) % |instructions|
    {
      c := if idx < |instructions| then instructions[idx] else 0 as char;
      idx := (idx + 1) % |instructions|;
    }
  }

  // ---------------------------------------------------------------- the flat waypoint table

  /** A waypoint; `child` and `next` are indices into the table, `None` for a null pointer, and -1 is an unset distance. */
  datatype Waypoint = Waypoint(node: Node, child: Option<nat>, distance: int, next: Option<nat>)

  type Table = seq<Waypoint>

  /** A waypoint as the constructor first resets it. */
  const Fresh := Waypoint(Node(0, 0, 0), None, -1, None)

  /** `node.name()[2] == 'Z'`: the node ends a walk. */
  predicate IsZNode(n: Node)
  {
    NodeName(n.hash)[2] == 'Z'
  }

  /** `std::distance(begin, std::find(begin, end, n))`: the first index of `n`, or the length when it is absent. */
  function FindNode(ns: seq<Node>, n: Node): (k: nat)
    ensures k <= |ns| && (k < |ns| <==> n in ns)
    ensures k < |ns| ==> ns[k] == n
    ensures forall m :: 0 <= m < k ==> ns[m] != n
  {
    if ns == [] then 0 else if ns[0] == n then 0 else 1 + FindNode(ns[1..], n)
  }

  /** The waypoint a link leads to from `k` (indices off the table lead to themselves). */
  function Succ(links: seq<nat>, k: nat): nat
  {
    if k < |links| then links[k] else k
  }

  function SuccOf(links: seq<nat>): nat -> nat
  {
    (k: nat) => Succ(links, k)
  }

  function GoalOf(zs: seq<bool>): nat -> bool
  {
    (k: nat) => if k < |zs| then zs[k] else false
  }

  /** Following the links from `k`, the first Z waypoint is `d` steps away. */
  predicate HitsAt(links: seq<nat>, zs: seq<bool>, k: nat, d: nat)
  {
    Chains.HitsAt(SuccOf(links), GoalOf(zs), k, d)
  }

  /** The waypoint `d` links on from `k`. */
  function Follow(links: seq<nat>, k: nat, d: nat): nat
  {
    Chains.Follow(SuccOf(links), k, d)
  }

  /** Every child is the one its link names, inside the table; `zs` marks the Z waypoints. */
  ghost predicate Linked(t: Table, links: seq<nat>, zs: seq<bool>)
  {
    |links| == |t| && |zs| == |t|
    && forall k :: 0 <= k < |t| ==> links[k] < |t| && t[k].child == Some(links[k]) && zs[k] == IsZNode(t[k].node)
  }

  /** No distance and no destination has been set. */
  ghost predicate Unset(t: Table)
  {
    forall k :: 0 <= k < |t| ==> t[k].distance == -1 && t[k].next == None
  }

  /** Every distance set is the number of steps to the first Z waypoint, and the destination set is that waypoint. */
  ghost predicate Sound(t: Table, links: seq<nat>, zs: seq<bool>)
  {
    forall k :: 0 <= k < |t| && t[k].distance != -1 ==>
      t[k].distance >= 0 && HitsAt(links, zs, k, t[k].distance) && t[k].next == Some(Follow(links, k, t[k].distance))
  }

  /** Every waypoint whose first Z waypoint is fewer than `r` steps away has its distance set. */
  ghost predicate Settled(t: Table, links: seq<nat>, zs: seq<bool>, r: nat)
  {
    forall k, d: nat :: 0 <= k < |t| && d < r && HitsAt(links, zs, k, d) ==> t[k].distance != -1
  }

  /** In the current round, every waypoint before index `m` whose first Z waypoint is at most `r` steps away is set. */
  ghost predicate Swept(t: Table, links: seq<nat>, zs: seq<bool>, r: nat, m: nat)
  {
    forall k, d: nat :: 0 <= k < |t| && k < m && d <= r && HitsAt(links, zs, k, d) ==> t[k].distance != -1
  }

  /** Every waypoint set in `t` is set, the same, in `u`; nodes and children do not change. */
  ghost predicate Grows(t: Table, u: Table)
  {
    |u| == |t|
    && forall k :: 0 <= k < |t| ==>
      u[k].node == t[k].node && u[k].child == t[k].child && (t[k].distance != -1 ==> u[k] == t[k])
  }

  lemma GrowsTrans(t: Table, u: Table, v: Table)
    requires Grows(t, u) && Grows(u, v)
    ensures Grows(t, v)
  {
  }

  /** Row `i` of `rows` rows of `n` ends where row `i + 1` starts, inside the table. */
  lemma RowEnd(i: nat, n: nat, rows: nat)
    requires i < rows
    ensures i * n + n == (i + 1) * n <= rows * n
  {
    MulMono(i + 1, rows, n);
  }

  /** Every waypoint has a child inside the table. */
  ghost predicate ChildrenIn(t: Table)
  {
    forall k :: 0 <= k < |t| ==> t[k].child.Some? && t[k].child.value < |t|
  }

  /** No distance is below -1, the mark of an unset one. */
  ghost predicate NoNegative(t: Table)
  {
    forall k :: 0 <= k < |t| ==> t[k].distance >= -1
  }

  /**
   * The fixpoint's inner loop body on waypoint `k`: an unset Z waypoint gets distance 0 and
   * itself as destination; an unset one whose child is set gets the child's distance plus one
   * and the child's destination.
   */
  function Visited(t: Table, k: nat): (u: Table)
    requires ChildrenIn(t) && k < |t|
    ensures Grows(t, u)
    ensures forall m :: 0 <= m < |t| && m != k ==> u[m] == t[m]
  {
    var wp := t[k];
    var c := wp.child.value;
    if wp.distance != -1 then t
    else if IsZNode(wp.node) then t[k := wp.(distance := 0, next := Some(k))]
    else if t[c].distance != -1 then t[k := wp.(distance := t[c].distance + 1, next := t[c].next)]
    else t
  }

  /** A visit keeps every distance it sets right: the first Z waypoint along the links, and how far it is. */
  lemma VisitSound(t: Table, links: seq<nat>, zs: seq<bool>, k: nat)
    requires Linked(t, links, zs) && Sound(t, links, zs) && k < |t|
    ensures ChildrenIn(t) && Sound(Visited(t, k), links, zs)
  {
    var u := Visited(t, k);
    if t[k].distance == -1 && u[k].distance != -1 {
      if IsZNode(t[k].node) {
        assert GoalOf(zs)(k);
        assert HitsAt(links, zs, k, 0);
      } else {
        var c := links[k];
        var d := t[c].distance;
        assert u[k].distance == d + 1;
        assert SuccOf(links)(k) == c;
        assert !GoalOf(zs)(k);
        assert HitsAt(links, zs, k, d + 1);
        assert Follow(links, k, d + 1) == Follow(links, c, d);
      }
    }
  }

  /** A visit in round `r` sets waypoint `k` when its first Z waypoint is at most `r` links away. */
  lemma VisitProgress(t: Table, links: seq<nat>, zs: seq<bool>, k: nat, r: nat, d: nat)
    requires Linked(t, links, zs) && Settled(t, links, zs, r) && NoNegative(t) && k < |t|
    requires d <= r && HitsAt(links, zs, k, d)
    ensures ChildrenIn(t) && Visited(t, k)[k].distance != -1
  {
    if t[k].distance == -1 {
      if d == 0 {
        assert GoalOf(zs)(k);
      } else {
        var c := links[k];
        assert SuccOf(links)(k) == c;
        assert HitsAt(links, zs, c, d - 1);
      }
    }
  }

  // ---------------------------------------------------------------- counting the set waypoints

  /** The number of waypoints whose distance is set. */
  function CountSet(t: Table): (c: nat)
    ensures c <= |t|
  {
    if t == [] then 0 else CountSet(t[..|t| - 1]) + (if t[|t| - 1].distance != -1 then 1 else 0)
  }

  /** Setting one unset waypoint adds one to the count. */
  lemma {:induction false} CountSetPut(t: Table, k: nat, w: Waypoint)
    requires k < |t| && t[k].distance == -1 && w.distance != -1
    ensures CountSet(t[k := w]) == CountSet(t) + 1
    decreases |t|
  {
    var last := |t| - 1;
    if k < last {
      assert t[k := w][..last] == t[..last][k := w];
      CountSetPut(t[..last], k, w);
    } else {
      assert t[k := w][..last] == t[..last];
    }
  }

  /** The count reaches the table's size exactly when every waypoint is set. */
  lemma {:induction false} CountSetFull(t: Table)
    ensures CountSet(t) == |t| <==> forall k :: 0 <= k < |t| ==> t[k].distance != -1
    decreases |t|
  {
    if t != [] {
      var last := |t| - 1;
      CountSetFull(t[..last]);
      assert forall k :: 0 <= k < last ==> t[..last][k] == t[k];
    }
  }

  /** A table without set waypoints counts none. */
  lemma {:induction false} CountSetUnset(t: Table)
    requires Unset(t)
    ensures CountSet(t) == 0
    decreases |t|
  {
    if t != [] {
      assert Unset(t[..|t| - 1]);
      CountSetUnset(t[..|t| - 1]);
    }
  }

  /** A visit adds one to the count exactly when it sets the waypoint's distance. */
  lemma VisitCount(t: Table, k: nat)
    requires ChildrenIn(t) && NoNegative(t) && k < |t|
    ensures CountSet(Visited(t, k)) == CountSet(t) + (if t[k].distance == -1 && Visited(t, k)[k].distance != -1 then 1 else 0)
  {
    var u := Visited(t, k);
    if t[k].distance == -1 && u[k].distance != -1 {
      CountSetPut(t, k, u[k]);
      assert u == t[k := u[k]];
    } else {
      var wp := t[k];
      if wp.distance == -1 && !IsZNode(wp.node) {
        assert t[wp.child.value].distance >= -1;
      }
    }
  }

  // ---------------------------------------------------------------- the fixpoint's sweeps

  /** The invariant of a sweep that has reached index `m` in round `r`, with `count` distances set. */
  ghost predicate SweepInv(t: Table, links: seq<nat>, zs: seq<bool>, r: nat, m: nat, count: nat)
  {
    Linked(t, links, zs) && Sound(t, links, zs) && Settled(t, links, zs, r) && Swept(t, links, zs, r, m)
    && count == CountSet(t)
  }

  lemma SoundNoNegative(t: Table, links: seq<nat>, zs: seq<bool>)
    requires Sound(t, links, zs)
    ensures NoNegative(t)
  {
  }

  /** A visit moves the sweep on by one waypoint, counting the distance it sets. */
  lemma SweepStep(t: Table, links: seq<nat>, zs: seq<bool>, r: nat, m: nat, count: nat)
    requires SweepInv(t, links, zs, r, m, count) && m < |t|
    ensures ChildrenIn(t) && NoNegative(t)
    ensures SweepInv(Visited(t, m), links, zs, r, m + 1,
      count + if t[m].distance == -1 && Visited(t, m)[m].distance != -1 then 1 else 0)
  {
    SoundNoNegative(t, links, zs);
    var u := Visited(t, m);
    VisitSound(t, links, zs, m);
    forall d: nat | d <= r && HitsAt(links, zs, m, d)
      ensures u[m].distance != -1
    {
      VisitProgress(t, links, zs, m, r, d);
    }
    GrowsKeeps(t, u, links, zs, r, m);
    VisitCount(t, m);
  }

  /** A table that only grows keeps its links and every waypoint already settled or swept. */
  lemma GrowsKeeps(t: Table, u: Table, links: seq<nat>, zs: seq<bool>, r: nat, m: nat)
    requires Grows(t, u) && Linked(t, links, zs) && Settled(t, links, zs, r) && Swept(t, links, zs, r, m)
    requires m < |u| && forall d: nat :: d <= r && HitsAt(links, zs, m, d) ==> u[m].distance != -1
    ensures Linked(u, links, zs) && Settled(u, links, zs, r) && Swept(u, links, zs, r, m + 1)
  {
  }

  /** A round starts with the sweep before the first waypoint. */
  lemma RoundStart(t: Table, links: seq<nat>, zs: seq<bool>, r: nat, count: nat)
    requires Linked(t, links, zs) && Sound(t, links, zs) && Settled(t, links, zs, r) && count == CountSet(t)
    ensures SweepInv(t, links, zs, r, 0, count)
  {
  }

  /** A finished round settles one more step's worth of waypoints. */
  lemma RoundEnd(t: Table, links: seq<nat>, zs: seq<bool>, r: nat, count: nat)
    requires SweepInv(t, links, zs, r, |t|, count)
    ensures Linked(t, links, zs) && Sound(t, links, zs) && Settled(t, links, zs, r + 1) && count == CountSet(t)
  {
  }

  /** A completed table: every waypoint reaches a Z waypoint, and its destination is one. */
  lemma CompleteReaches(t: Table, links: seq<nat>, zs: seq<bool>)
    requires Sound(t, links, zs) && forall k :: 0 <= k < |t| ==> t[k].distance != -1
    ensures forall k: nat :: k < |t| ==> Chains.Reaches(SuccOf(links), GoalOf(zs), k)
    ensures forall k: nat :: k < |t| ==> t[k].next.Some? && GoalOf(zs)(t[k].next.value)
  {
    forall k: nat | k < |t|
      ensures Chains.Reaches(SuccOf(links), GoalOf(zs), k)
      ensures t[k].next.Some? && GoalOf(zs)(t[k].next.value)
    {
      var d: nat := t[k].distance;
      assert HitsAt(links, zs, k, d);
      Chains.HitsAtFollow(SuccOf(links), GoalOf(zs), k, d);
      assert GoalOf(zs)(Follow(links, k, d));
    }
  }

  /** A table the fuel ran out on: some waypoint is unset, and its first Z waypoint, if any, is at least `r` links away. */
  lemma IncompleteFar(t: Table, links: seq<nat>, zs: seq<bool>, r: nat)
    requires Settled(t, links, zs, r) && !forall k :: 0 <= k < |t| ==> t[k].distance != -1
    ensures exists k :: 0 <= k < |t| && t[k].distance == -1 && forall d: nat :: d < r ==> !HitsAt(links, zs, k, d)
  {
    var k :| 0 <= k < |t| && t[k].distance == -1;
    assert forall d: nat :: d < r ==> !HitsAt(links, zs, k, d);
  }

  // ---------------------------------------------------------------- flat indices

  /** `getWaypoint(i, j)`: waypoint (i, j) of a table of `n` waypoints per row lives at index i·n + j. */
  function Index(i: nat, j: nat, n: nat): (k: nat)
    requires j < n
  {
    i * n + j
  }

  /** Row `i` ends where row `i + 1` starts; an index inside a table of `rows` rows is below rows·n. */
  lemma IndexBound(i: nat, j: nat, n: nat, rows: nat)
    requires i < rows && j < n
    ensures Index(i, j, n) < rows * n
    ensures Index(i, j, n) + 1 <= (i + 1) * n
  {
    assert (i + 1) * n == i * n + n;
    assert (i + 1) * n <= rows * n by {
      MulMono(i + 1, rows, n);
    }
  }

  lemma MulMono(a: nat, b: nat, n: nat)
    requires a <= b
    ensures a * n <= b * n
  {
  }

  /** Distinct (row, column) pairs have distinct flat indices. */
  lemma IndexUnique(i: nat, j: nat, i': nat, j': nat, n: nat)
    requires j < n && j' < n && Index(i, j, n) == Index(i', j', n)
    ensures i == i' && j == j'
  {
    if i < i' {
      MulMono(i + 1, i', n);
    } else if i' < i {
      MulMono(i' + 1, i, n);
    }
  }

  /** A waypoint in a row before row `i` lies before that row's first waypoint. */
  lemma RowBefore(i': nat, j': nat, i: nat, n: nat)
    requires i' < i && j' < n
    ensures Index(i', j', n) < i * n
  {
    MulMono(i' + 1, i, n);
  }

  /** The row after `i`, going round to the first after the last. */
  function NextRow(i: nat, rows: nat): (r: nat)
    requires i < rows
    ensures r < rows && (r == 0 <==> i == rows - 1)
  {
    (i + 1) % rows
  }

  // ---------------------------------------------------------------- linking the waypoints

  /**
   * Waypoint (i, j) holds node j, and its child is the waypoint of the next instruction at the
   * node that instruction i leads to from node j.
   */
  ghost predicate LinkedAt(t: Table, instructions: string, nodes: seq<Node>, graph: Graph, i: nat, j: nat)
    requires i < |instructions| && j < |nodes|
  {
    var k := Index(i, j, |nodes|);
    var step := graph.Step(nodes[j], instructions[i]);
    k < |t| && step.Ok? && t[k].node == nodes[j]
    && t[k].child == Some(NextRow(i, |instructions|) * |nodes| + FindNode(nodes, step.value))
  }

  /** A waypoint's link survives any change that leaves that waypoint as it was. */
  lemma LinkedAtKept(t: Table, u: Table, instructions: string, nodes: seq<Node>, graph: Graph, i: nat, j: nat)
    requires i < |instructions| && j < |nodes| && LinkedAt(t, instructions, nodes, graph, i, j)
    requires |u| == |t| && u[Index(i, j, |nodes|)] == t[Index(i, j, |nodes|)]
    ensures LinkedAt(u, instructions, nodes, graph, i, j)
  {
  }

  /** Every waypoint of the first `rows` rows is linked. */
  ghost predicate LinkedRows(t: Table, instructions: string, nodes: seq<Node>, graph: Graph, rows: nat)
  {
    forall i, j :: 0 <= i < rows && i < |instructions| && 0 <= j < |nodes| ==> LinkedAt(t, instructions, nodes, graph, i, j)
  }

  /** Every instruction of the first `rows` succeeds from every node. */
  predicate StepsOk(instructions: string, nodes: seq<Node>, graph: Graph, rows: nat)
  {
    forall i, j :: 0 <= i < rows && i < |instructions| && 0 <= j < |nodes| ==> graph.Step(nodes[j], instructions[i]).Ok?
  }

  /** Every waypoint before index `m` has a child inside the table. */
  ghost predicate ChildrenBelow(t: Table, m: nat)
  {
    forall k :: 0 <= k < m && k < |t| ==> t[k].child.Some? && t[k].child.value < |t|
  }

  /** Links made earlier in row `i` survive linking waypoint (i, j). */
  lemma RowLinkedKept(t: Table, u: Table, instructions: string, nodes: seq<Node>, graph: Graph, i: nat, j: nat)
    requires i < |instructions| && j < |nodes| && |u| == |t|
    requires forall j' :: 0 <= j' < j ==> LinkedAt(t, instructions, nodes, graph, i, j')
    requires forall k :: 0 <= k < |u| && k != Index(i, j, |nodes|) ==> u[k] == t[k]
    ensures forall j' :: 0 <= j' < j ==> LinkedAt(u, instructions, nodes, graph, i, j')
  {
    forall j' | 0 <= j' < j
      ensures LinkedAt(u, instructions, nodes, graph, i, j')
    {
      LinkedAtKept(t, u, instructions, nodes, graph, i, j');
    }
  }

  /** Linking row `i`, and changing nothing outside it, links the first `i + 1` rows. */
  lemma RowsGrow(t: Table, u: Table, instructions: string, nodes: seq<Node>, graph: Graph, i: nat)
    requires i < |instructions| && |u| == |t| && LinkedRows(t, instructions, nodes, graph, i)
    requires forall k :: 0 <= k < |u| && !(i * |nodes| <= k < i * |nodes| + |nodes|) ==> u[k] == t[k]
    requires forall j :: 0 <= j < |nodes| ==> LinkedAt(u, instructions, nodes, graph, i, j)
    ensures LinkedRows(u, instructions, nodes, graph, i + 1)
  {
    forall i', j' | 0 <= i' < i && 0 <= j' < |nodes|
      ensures LinkedAt(u, instructions, nodes, graph, i', j')
    {
      RowBefore(i', j', i, |nodes|);
      assert LinkedAt(t, instructions, nodes, graph, i', j');
      LinkedAtKept(t, u, instructions, nodes, graph, i', j');
    }
  }

  /** Every step from row `i` succeeding extends `StepsOk` by one row. */
  lemma StepsGrow(instructions: string, nodes: seq<Node>, graph: Graph, i: nat)
    requires i < |instructions| && StepsOk(instructions, nodes, graph, i)
    requires forall j :: 0 <= j < |nodes| ==> graph.Step(nodes[j], instructions[i]).Ok?
    ensures StepsOk(instructions, nodes, graph, i + 1)
  {
  }

  /** The child index of each waypoint of a fully linked table. */
  ghost function LinksOf(t: Table): seq<nat>
    requires ChildrenBelow(t, |t|)
  {
    seq(|t|, k requires 0 <= k < |t| => t[k].child.value)
  }

  /** Which waypoints of a table hold a Z node. */
  ghost function ZsOf(t: Table): seq<bool>
  {
    seq(|t|, k requires 0 <= k < |t| => IsZNode(t[k].node))
  }

  /** A table whose every waypoint has a child is linked by its own child indices. */
  lemma LinkTable(t: Table)
    requires ChildrenBelow(t, |t|)
    ensures Linked(t, LinksOf(t), ZsOf(t))
  {
  }

  /** `WaypointGraph`: one waypoint per (instruction position, node), in rows of `|nodes|`. */
  class WaypointGraph {
    const instructions: string
    const nodes: seq<Node>
    const graph: Graph
    var waypoints: Table
    /** The child index of each waypoint, once linked. */
    ghost var links: seq<nat>
    /** Which waypoints hold a Z node, once linked. */
    ghost var zs: seq<bool>

    /** The table is sized to |instructions|·|nodes| and every waypoint reset. */
    constructor (instructions: string, nodes: seq<Node>, graph: Graph)
      ensures this.instructions == instructions && this.nodes == nodes && this.graph == graph
      ensures |waypoints| == |instructions| * |nodes| && Unset(waypoints)
      ensures forall k :: 0 <= k < |waypoints| ==> waypoints[k] == Fresh
    {
      this.instructions := instructions;
      this.nodes := nodes;
      this.graph := graph;
      waypoints := seq(|instructions| * |nodes|, _ => Fresh);
      links := [];
      zs := [];
    }

    /** `getWaypoint(instruction_idx, node_idx)`: a waypoint of the table. */
    function GetWaypoint(i: nat, j: nat): (k: nat)
      requires i < |instructions| && j < |nodes|
      ensures k < |instructions| * |nodes|
      ensures i * |nodes| <= k < i * |nodes| + |nodes|
    {
      IndexBound(i, j, |nodes|, |instructions|);
      Index(i, j, |nodes|)
    }

    /** `getWaypoint(instruction_idx, node)`: for a listed node, its waypoint in row `i`. */
    function GetWaypointOf(i: nat, node: Node): (k: nat)
      requires i < |instructions|
      ensures node in nodes ==> k < |instructions| * |nodes| && i * |nodes| <= k < i * |nodes| + |nodes| && nodes[k - i * |nodes|] == node
      ensures node !in nodes ==> k == i * |nodes| + |nodes|
    {
      var j := FindNode(nodes, node);
      if j < |nodes| then GetWaypoint(i, j) else i * |nodes| + j
    }

    /**
     * The constructor's linking loops: each waypoint gets its node and its child. An instruction
     * that is neither 'L' nor 'R', or a child hash with no node, throws as `step` does.
     */
    method Link() returns (err: Option<string>)
      requires graph.nodes == GraphOf(nodes)
      requires |waypoints| == |instructions| * |nodes| && Unset(waypoints)
      modifies this
      ensures |waypoints| == |instructions| * |nodes| && Unset(waypoints)
      ensures err.None? <==> StepsOk(instructions, nodes, graph, |instructions|)
      ensures err.Some? ==> exists i, j :: 0 <= i < |instructions| && 0 <= j < |nodes| && graph.Step(nodes[j], instructions[i]) == Err(err.value)
      ensures err.None? ==> Linked(waypoints, links, zs) && LinkedRows(waypoints, instructions, nodes, graph, |instructions|)
    {
      GraphOfNodes(nodes);
      var i := 0;
      while i < |instructions|
        invariant 0 <= i <= |instructions|
        invariant |waypoints| == |instructions| * |nodes| && Unset(waypoints)
        invariant ChildrenBelow(waypoints, i * |nodes|)
        invariant LinkedRows(waypoints, instructions, nodes, graph, i)
        invariant StepsOk(instructions, nodes, graph, i)
      {
        ghost var before := waypoints;
        err := LinkRow(i);
        if err.Some? {
          return;
        }
        RowsGrow(before, waypoints, instructions, nodes, graph, i);
        StepsGrow(instructions, nodes, graph, i);
        assert i * |nodes| + |nodes| == (i + 1) * |nodes|;
        i := i + 1;
      }
      LinkTable(waypoints);
      links := LinksOf(waypoints);
      zs := ZsOf(waypoints);
      err := None;
    }

    /** Links row `i`, leaving every other row as it was. */
    method LinkRow(i: nat) returns (err: Option<string>)
      requires i < |instructions| && Drawn(graph.nodes, nodes)
      requires |waypoints| == |instructions| * |nodes| && Unset(waypoints) && ChildrenBelow(waypoints, i * |nodes|)
      modifies this`waypoints
      ensures |waypoints| == |instructions| * |nodes| && Unset(waypoints)
      ensures forall k :: 0 <= k < |waypoints| && !(i * |nodes| <= k < i * |nodes| + |nodes|) ==> waypoints[k] == old(waypoints[k])
      ensures err.None? <==> forall j :: 0 <= j < |nodes| ==> graph.Step(nodes[j], instructions[i]).Ok?
      ensures err.Some? ==> exists j :: 0 <= j < |nodes| && graph.Step(nodes[j], instructions[i]) == Err(err.value)
      ensures err.None? ==> ChildrenBelow(waypoints, i * |nodes| + |nodes|)
      ensures err.None? ==> forall j :: 0 <= j < |nodes| ==> LinkedAt(waypoints, instructions, nodes, graph, i, j)
    {
      ghost var base := i * |nodes|;
      RowEnd(i, |nodes|, |instructions|);
      var j := 0;
      while j < |nodes|
        invariant 0 <= j <= |nodes| && |waypoints| == |instructions| * |nodes| && Unset(waypoints)
        invariant forall k :: 0 <= k < |waypoints| && !(base <= k < base + j) ==> waypoints[k] == old(waypoints[k])
        invariant ChildrenBelow(waypoints, base + j)
        invariant forall j' :: 0 <= j' < j ==> LinkedAt(waypoints, instructions, nodes, graph, i, j')
        invariant forall j' :: 0 <= j' < j ==> graph.Step(nodes[j'], instructions[i]).Ok?
      {
        ghost var before := waypoints;
        assert Index(i, j, |nodes|) == base + j;
        err := LinkOne(i, j);
        if err.Some? {
          return;
        }
        RowLinkedKept(before, waypoints, instructions, nodes, graph, i, j);
        j := j + 1;
      }
      return None;
    }

    /** Links waypoint (i, j) to the waypoint of the next instruction holding the node its step leads to. */
    method LinkOne(i: nat, j: nat) returns (err: Option<string>)
      requires i < |instructions| && j < |nodes| && Drawn(graph.nodes, nodes)
      requires |waypoints| == |instructions| * |nodes| && Unset(waypoints) && ChildrenBelow(waypoints, Index(i, j, |nodes|))
      modifies this`waypoints
      ensures |waypoints| == |instructions| * |nodes| && Unset(waypoints)
      ensures forall k :: 0 <= k < |waypoints| && k != Index(i, j, |nodes|) ==> waypoints[k] == old(waypoints[k])
      ensures err.None? <==> graph.Step(nodes[j], instructions[i]).Ok?
      ensures err.Some? ==> graph.Step(nodes[j], instructions[i]) == Err(err.value)
      ensures err.None? ==> ChildrenBelow(waypoints, Index(i, j, |nodes|) + 1)
      ensures err.None? ==> LinkedAt(waypoints, instructions, nodes, graph, i, j)
    {
      var k := GetWaypoint(i, j);
      var next := graph.Step(nodes[j], instructions[i]);
      if next.Err? {
        return Some(next.error);
      }
      StepInList(graph, nodes, nodes[j], instructions[i]);
      var column := FindNode(nodes, next.value);
      var target := GetWaypoint(NextRow(i, |instructions|), column);
      waypoints := waypoints[k := waypoints[k].(node := nodes[j], child := Some(target))];
      return None;
    }

    /**
     * The constructor's fixpoint: sweeps over the whole table, row by row, until every distance
     * is set. The source loops until then; here at most `fuel` sweeps run, and `complete` says
     * whether the table was finished.
     */
    method SetDistances(fuel: nat) returns (complete: bool)
      requires Linked(waypoints, links, zs) && Unset(waypoints) && |waypoints| == |instructions| * |nodes|
      modifies this`waypoints
      ensures Linked(waypoints, links, zs) && Sound(waypoints, links, zs) && Grows(old(waypoints), waypoints)
      ensures complete <==> forall k :: 0 <= k < |waypoints| ==> waypoints[k].distance != -1
      ensures !complete ==> Settled(waypoints, links, zs, fuel)
    {
      var count: nat := 0;
      CountSetUnset(waypoints);
      var rounds: nat := 0;
      while count < |waypoints|
        invariant Linked(waypoints, links, zs) && Sound(waypoints, links, zs) && Settled(waypoints, links, zs, rounds)
        invariant count == CountSet(waypoints) && rounds <= fuel && |waypoints| == |instructions| * |nodes|
        invariant Grows(old(waypoints), waypoints)
        decreases fuel - rounds
      {
        if rounds == fuel {
          CountSetFull(waypoints);
          return false;
        }
        RoundStart(waypoints, links, zs, rounds, count);
        ghost var before := waypoints;
        count := Sweep(rounds, count);
        GrowsTrans(old(waypoints), before, waypoints);
        RoundEnd(waypoints, links, zs, rounds, count);
        rounds := rounds + 1;
      }
      CountSetFull(waypoints);
      complete := true;
    }

    /** One sweep over the whole table, row by row. */
    method Sweep(ghost rounds: nat, count0: nat) returns (count: nat)
      requires |waypoints| == |instructions| * |nodes| && SweepInv(waypoints, links, zs, rounds, 0, count0)
      modifies this`waypoints
      ensures |waypoints| == |instructions| * |nodes| && Grows(old(waypoints), waypoints)
      ensures SweepInv(waypoints, links, zs, rounds, |waypoints|, count)
    {
      count := count0;
      var i := 0;
      while i < |instructions|
        invariant 0 <= i <= |instructions| && |waypoints| == |instructions| * |nodes|
        invariant SweepInv(waypoints, links, zs, rounds, i * |nodes|, count)
        invariant Grows(old(waypoints), waypoints)
      {
        ghost var before := waypoints;
        count := SweepRow(i, rounds, count);
        GrowsTrans(old(waypoints), before, waypoints);
        i := i + 1;
      }
    }

    /** The sweep's body on waypoint `k`; `changed` says whether it set the distance. */
    method Visit(k: nat) returns (changed: bool)
      requires k < |waypoints| && ChildrenIn(waypoints) && NoNegative(waypoints)
      modifies this`waypoints
      ensures waypoints == Visited(old(waypoints), k)
      ensures changed <==> old(waypoints[k].distance) == -1 && waypoints[k].distance != -1
    {
      var wp := waypoints[k];
      changed := false;
      if wp.distance == -1 {
        if IsZNode(wp.node) {
          waypoints := waypoints[k := wp.(distance := 0, next := Some(k))];
          changed := true;
        } else {
          var child := waypoints[wp.child.value];
          if child.distance != -1 {
            waypoints := waypoints[k := wp.(distance := child.distance + 1, next := child.next)];
            changed := true;
          }
        }
      }
    }

    /** The sweep moved on by waypoint `k`, counting the distance the visit sets. */
    method VisitNext(k: nat, ghost rounds: nat, count0: nat) returns (count: nat)
      requires k < |waypoints| && SweepInv(waypoints, links, zs, rounds, k, count0)
      modifies this`waypoints
      ensures Grows(old(waypoints), waypoints)
      ensures SweepInv(waypoints, links, zs, rounds, k + 1, count)
    {
      SweepStep(waypoints, links, zs, rounds, k, count0);
      var changed := Visit(k);
      count := if changed then count0 + 1 else count0;
    }

    /** One row of a sweep: each waypoint of row `i` visited in turn. */
    method SweepRow(i: nat, ghost rounds: nat, count0: nat) returns (count: nat)
      requires i < |instructions| && |waypoints| == |instructions| * |nodes|
      requires SweepInv(waypoints, links, zs, rounds, i * |nodes|, count0)
      modifies this`waypoints
      ensures |waypoints| == |instructions| * |nodes| && Grows(old(waypoints), waypoints)
      ensures SweepInv(waypoints, links, zs, rounds, (i + 1) * |nodes|, count)
    {
      count := count0;
      ghost var base := i * |nodes|;
      RowEnd(i, |nodes|, |instructions|);
      var j := 0;
      while j < |nodes|
        invariant 0 <= j <= |nodes| && |waypoints| == |instructions| * |nodes|
        invariant SweepInv(waypoints, links, zs, rounds, base + j, count)
        invariant Grows(old(waypoints), waypoints)
      {
        var k := GetWaypoint(i, j);
        ghost var before := waypoints;
        count := VisitNext(k, rounds, count);
        GrowsTrans(old(waypoints), before, waypoints);
        j := j + 1;
      }
    }
  }

  /**
   * In a linked table, the child of waypoint (i, j) is the waypoint of the next instruction
   * holding the node that instruction i leads to from node j.
   */
  lemma ChildIsStep(t: Table, links: seq<nat>, zs: seq<bool>, instructions: string, nodes: seq<Node>, graph: Graph, i: nat, j: nat)
    requires Drawn(graph.nodes, nodes) && Linked(t, links, zs) && LinkedRows(t, instructions, nodes, graph, |instructions|)
    requires i < |instructions| && j < |nodes|
    ensures graph.Step(nodes[j], instructions[i]).Ok?
    ensures Index(i, j, |nodes|) < |links| && var c := links[Index(i, j, |nodes|)];
      var column := FindNode(nodes, graph.Step(nodes[j], instructions[i]).value);
      column < |nodes| && c == Index(NextRow(i, |instructions|), column, |nodes|)
      && t[c].node == graph.Step(nodes[j], instructions[i]).value
  {
    assert LinkedAt(t, instructions, nodes, graph, i, j);
    var step := graph.Step(nodes[j], instructions[i]);
    StepInList(graph, nodes, nodes[j], instructions[i]);
    var column := FindNode(nodes, step.value);
    assert LinkedAt(t, instructions, nodes, graph, NextRow(i, |instructions|), column);
  }
}
