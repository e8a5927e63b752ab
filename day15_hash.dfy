/** Day 15: the HASH algorithm over initialization-sequence steps (15/decode.py). */
module Day15Hash {
  import Strings

  /** One round of the hash: add the code point, multiply by 17, keep the remainder modulo 256. */
  function Round(h: int, c: char): int
  {
    ((h + c as int) * 17) % 256
  }

  /** The hash a run of rounds reaches from `h`, as a left fold over `s`. */
  function HashFrom(h: int, s: string): (r: int)
    ensures 0 <= h < 256 ==> 0 <= r < 256
    ensures s != [] ==> 0 <= r < 256
    decreases s
  {
    if s == [] then h else HashFrom(Round(h, s[0]), s[1..])
  }

  /** The hash of a string: the fold started from 0. */
  function Hash(s: string): int
  {
    HashFrom(0, s)
  }

  /** `decode`: the loop of the source, proved to compute `Hash`. */
  method Decode(s: string) returns (res: int)
    ensures res == Hash(s)
    ensures 0 <= res < 256
  {
    res := 0;
    for i := 0 to |s|
      invariant HashFrom(res, s[i..]) == Hash(s)
      invariant 0 <= res < 256
    {
      assert s[i..][1..] == s[i + 1..];
      res := res + s[i] as int;
      res := res * 17;
      res := res % 256;
    }
  }

  /** Hashing a concatenation resumes from the hash of the first part. */
  lemma {:induction false} HashFromAppend(h: int, a: string, b: string)
    ensures HashFrom(h, a + b) == HashFrom(HashFrom(h, a), b)
    decreases a
  {
    if a == [] {
      assert a + b == b;
    } else {
      assert (a + b)[0] == a[0];
      assert (a + b)[1..] == a[1..] + b;
      HashFromAppend(Round(h, a[0]), a[1..], b);
    }
  }

  /** The three hashes the source asserts. */
  lemma ExampleRn()
    ensures Hash("rn=1") == 30
  {
    assert "rn=1"[1..] == "n=1" && "n=1"[1..] == "=1" && "=1"[1..] == "1" && "1"[1..] == "";
    assert Hash("rn=1") == HashFrom(146, "n=1") == HashFrom(0, "=1") == HashFrom(13, "1") == 30;
  }

  lemma ExampleCm()
    ensures Hash("cm-") == 253
  {
    assert "cm-"[1..] == "m-" && "m-"[1..] == "-" && "-"[1..] == "";
    assert Hash("cm-") == HashFrom(147, "m-") == HashFrom(0, "-") == 253;
  }

  lemma ExampleQp()
    ensures Hash("qp=3") == 97
  {
    assert "qp=3"[1..] == "p=3" && "p=3"[1..] == "=3" && "=3"[1..] == "3" && "3"[1..] == "";
    assert Hash("qp=3") == HashFrom(129, "p=3") == HashFrom(1, "=3") == HashFrom(30, "3") == 97;
  }

  /** `decodeList`: the sum of the step hashes. */
  function DecodeList(ss: seq<string>): (r: int)
    ensures 0 <= r <= 255 * |ss|
  {
    if ss == [] then 0 else Hash(ss[0]) + DecodeList(ss[1..])
  }

  lemma {:induction false} DecodeListAppend(a: seq<string>, b: seq<string>)
    ensures DecodeList(a + b) == DecodeList(a) + DecodeList(b)
  {
    if a == [] {
      assert a + b == b;
    } else {
      assert (a + b)[0] == a[0];
      assert (a + b)[1..] == a[1..] + b;
      DecodeListAppend(a[1..], b);
    }
  }

  /** `readList`: the stripped text cut at each comma; joining the steps with commas gives it back. */
  function ReadList(txt: string): (steps: seq<string>)
    ensures |steps| >= 1
    ensures Strings.Join(steps, ",") == Strings.Strip(txt)
    ensures forall k, i :: 0 <= k < |steps| && 0 <= i < |steps[k]| ==> steps[k][i] != ','
  {
    Strings.SplitOn(Strings.Strip(txt), ',')
  }
}
