/**
 Well-formed UTF-8 as RFC 3629 section 4 defines it, and the two facts about cutting it that the
 runner's output splitter rests on.
 */
module Utf8 {
  import opened Sequences

  /** A UTF8-tail byte: the only bytes that may not start a character. */
  predicate IsTail(c: Byte) { 0x80 <= c < 0xC0 }

  /** The runner tests `c & 0xC0 == 0x80`; on bytes that mask is the tail range. */
  lemma {:induction false} TailMask(c: bv8)
    ensures (c & 0xC0 == 0x80) <==> 0x80 <= c < 0xC0
  {
  }

  /** Length of the well-formed character `s` starts with, 0 when it starts with none. */
  function CharLen(s: seq<Byte>): (n: nat)
    ensures n <= 4 && n <= |s|
    ensures forall k :: 1 <= k < n ==> IsTail(s[k])
    ensures n > 0 ==> !IsTail(s[0])
  {
    if s == [] then 0
    else if s[0] <= 0x7F then 1
    else if 0xC2 <= s[0] <= 0xDF then
      if |s| >= 2 && IsTail(s[1]) then 2 else 0
    else if 0xE0 <= s[0] <= 0xEF then
      if |s| >= 3 && IsTail(s[1]) && IsTail(s[2])
         && (s[0] == 0xE0 ==> s[1] >= 0xA0) && (s[0] == 0xED ==> s[1] <= 0x9F) then 3 else 0
    else if 0xF0 <= s[0] <= 0xF4 then
      if |s| >= 4 && IsTail(s[1]) && IsTail(s[2]) && IsTail(s[3])
         && (s[0] == 0xF0 ==> s[1] >= 0x90) && (s[0] == 0xF4 ==> s[1] <= 0x8F) then 4 else 0
    else 0
  }

  /** `s` is a sequence of whole characters. */
  predicate Valid(s: seq<Byte>)
    decreases |s|
  {
    s == [] || (CharLen(s) > 0 && Valid(s[CharLen(s)..]))
  }

  /** A character's length depends on its own bytes only. */
  lemma {:induction false} CharLenLocal(s: seq<Byte>, t: seq<Byte>)
    requires CharLen(s) > 0 && CharLen(s) <= |t| && s[..CharLen(s)] == t[..CharLen(s)]
    ensures CharLen(t) == CharLen(s)
  {
    var n := CharLen(s);
    forall k | 0 <= k < n ensures s[k] == t[k] {
      assert s[k] == s[..n][k] == t[..n][k];
    }
  }

  /** Valid text may be cut at every index that holds no tail byte, and only there. */
  lemma {:induction false} CutAtBoundary(s: seq<Byte>, k: nat)
    requires Valid(s) && k <= |s|
    ensures (k == |s| || !IsTail(s[k])) <==> (Valid(s[..k]) && Valid(s[k..]))
    decreases |s|
  {
    if k == 0 {
      assert s[..0] == [] && s[0..] == s;
    } else {
      var n := CharLen(s);
      if k < n {
        assert IsTail(s[k]) && s[k..][0] == s[k];
      } else {
        CutAtBoundary(s[n..], k - n);
        assert s[n..][k - n..] == s[k..];
        assert s[..k][n..] == s[n..][..k - n];
        CharLenLocal(s, s[..k]);
      }
    }
  }

  /** At most three tail bytes follow one another in valid text. */
  lemma {:induction false} NoFourTails(s: seq<Byte>, k: nat)
    requires Valid(s) && 3 <= k < |s|
    ensures !IsTail(s[k]) || !IsTail(s[k - 1]) || !IsTail(s[k - 2]) || !IsTail(s[k - 3])
    decreases |s|
  {
    var n := CharLen(s);
    if k - 3 < n {
      if n <= k {
        assert s[n..] != [] && s[n..][0] == s[n];
      }
    } else {
      NoFourTails(s[n..], k - n);
    }
  }

  // ── the definition, checked against the encoding ───────────────────────────

  /** A character: a Unicode scalar value. */
  predicate IsScalar(c: int) {
    0 <= c < 0xD800 || 0xE000 <= c < 0x11_0000
  }

  /** Its UTF-8 bytes: the value's bits, six to a tail byte. */
  function Encode(c: int): (bytes: seq<Byte>)
    requires IsScalar(c)
  {
    if c < 0x80 then [c]
    else if c < 0x800 then [0xC0 + c / 64, 0x80 + c % 64]
    else if c < 0x1_0000 then [0xE0 + c / 4096, 0x80 + c / 64 % 64, 0x80 + c % 64]
    else [0xF0 + c / 262144, 0x80 + c / 4096 % 64, 0x80 + c / 64 % 64, 0x80 + c % 64]
  }

  /** A text starts with a well-formed character if and only if it starts with the encoding of one. */
  lemma {:induction false} StartsWithACharacter(s: seq<Byte>)
    ensures CharLen(s) > 0 <==> exists c :: IsScalar(c) && Encode(c) <= s
    ensures forall c :: IsScalar(c) && Encode(c) <= s ==> CharLen(s) == |Encode(c)|
  {
    hide Encode;
    forall c | IsScalar(c) && Encode(c) <= s ensures CharLen(s) == |Encode(c)| > 0 {
      EncodedLength(s, c);
    }
    if CharLen(s) > 0 {
      var c := Decoded(s);
    }
  }

  lemma {:induction false} EncodedLength(s: seq<Byte>, c: int)
    requires IsScalar(c) && Encode(c) <= s
    ensures CharLen(s) == |Encode(c)| > 0
  {
    EncodedBytes(c);
    var e := Encode(c);
    hide Encode;
    assert forall k :: 0 <= k < |e| ==> s[k] == e[k];
  }

  lemma {:induction false} EncodedBytes(c: int)
    requires IsScalar(c)
    ensures var e := Encode(c);
            && 1 <= |e| <= 4 && (forall k :: 1 <= k < |e| ==> IsTail(e[k]))
            && (|e| == 1 ==> e[0] < 0x80) && (|e| == 2 ==> 0xC2 <= e[0] < 0xE0)
            && (|e| == 3 ==> 0xE0 <= e[0] < 0xF0 && (e[0] == 0xE0 ==> e[1] >= 0xA0) && (e[0] == 0xED ==> e[1] < 0xA0))
            && (|e| == 4 ==> 0xF0 <= e[0] < 0xF5 && (e[0] == 0xF0 ==> e[1] >= 0x90) && (e[0] == 0xF4 ==> e[1] < 0x90))
  {
  }

  lemma {:induction false} Decoded(s: seq<Byte>) returns (c: int)
    requires CharLen(s) > 0
    ensures IsScalar(c) && Encode(c) <= s
  {
    if CharLen(s) == 1 {
      c := s[0];
    } else if CharLen(s) == 2 {
      c := DecodedTwo(s);
    } else if CharLen(s) == 3 {
      c := DecodedThree(s);
    } else {
      c := DecodedFour(s);
    }
  }

  lemma {:induction false} DecodedTwo(s: seq<Byte>) returns (c: int)
    requires CharLen(s) == 2
    ensures IsScalar(c) && Encode(c) <= s
  {
    var a: int, b: int := s[0] - 0xC0, s[1] - 0x80;
    c := a * 64 + b;
    assert c / 64 == a && c % 64 == b;
  }

  lemma {:induction false} DecodedThree(s: seq<Byte>) returns (c: int)
    requires CharLen(s) == 3
    ensures IsScalar(c) && Encode(c) <= s
  {
    var a: int, b: int, d: int := s[0] - 0xE0, s[1] - 0x80, s[2] - 0x80;
    c := a * 4096 + b * 64 + d;
    SixBits(a * 64 + b, d);
    SixBits(a, b);
    assert c == (a * 64 + b) * 64 + d;
    assert 0x800 <= c < 0x1_0000;
  }

  lemma {:induction false} SixBits(high: int, low: int)
    requires high >= 0 && 0 <= low < 64
    ensures (high * 64 + low) / 64 == high && (high * 64 + low) % 64 == low
    ensures (high * 64 + low) / 4096 == high / 64 && (high * 64 + low) / 262144 == high / 4096
  {
  }

  lemma {:induction false} DecodedFour(s: seq<Byte>) returns (c: int)
    requires CharLen(s) == 4
    ensures IsScalar(c) && Encode(c) <= s
  {
    var a: int, b: int, d: int, e: int := s[0] - 0xF0, s[1] - 0x80, s[2] - 0x80, s[3] - 0x80;
    var high := (a * 64 + b) * 64 + d;
    c := high * 64 + e;
    SixBits(high, e);
    SixBits(a * 64 + b, d);
    SixBits(a, b);
    hide CharLen;
    assert 0x1_0000 <= c < 0x11_0000 by {
      FourRange(s);
    }
    assert c / 64 % 64 == d && c / 4096 % 64 == b && c / 262144 == a;
    assert Encode(c) == [0xF0 + a, 0x80 + b, 0x80 + d, 0x80 + e];
  }

  lemma {:induction false} FourRange(s: seq<Byte>)
    requires CharLen(s) == 4
    ensures 0x1_0000 <= (((s[0] - 0xF0) as int * 64 + (s[1] - 0x80) as int) * 64 + (s[2] - 0x80) as int) * 64
                        + (s[3] - 0x80) as int < 0x11_0000
  {
  }
}
