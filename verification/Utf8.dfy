/** Well-formed UTF-8 as section 4 of RFC 3629 defines it, and where it may be cut. */
module Utf8 {
  import opened Numbers

  type Bytes = seq<U8>

  predicate IsTail(b: U8) {
    0x80 <= b <= 0xBF
  }

  /** The length of the character that starts `s`, or 0 when none does. */
  function CharLength(s: Bytes): (n: nat)
    ensures n <= 4 && n <= |s|
  {
    if |s| >= 1 && s[0] <= 0x7F then 1
    else if |s| >= 2 && 0xC2 <= s[0] <= 0xDF && IsTail(s[1]) then 2
    else if |s| >= 3 && ThreeByteLead(s[0], s[1]) && IsTail(s[2]) then 3
    else if |s| >= 4 && FourByteLead(s[0], s[1]) && IsTail(s[2]) && IsTail(s[3]) then 4
    else 0
  }

  predicate ThreeByteLead(a: U8, b: U8) {
    || (a == 0xE0 && 0xA0 <= b <= 0xBF)
    || (0xE1 <= a <= 0xEC && IsTail(b))
    || (a == 0xED && 0x80 <= b <= 0x9F)
    || (0xEE <= a <= 0xEF && IsTail(b))
  }

  predicate FourByteLead(a: U8, b: U8) {
    || (a == 0xF0 && 0x90 <= b <= 0xBF)
    || (0xF1 <= a <= 0xF3 && IsTail(b))
    || (a == 0xF4 && 0x80 <= b <= 0x8F)
  }

  predicate IsUtf8(s: Bytes) {
    s == [] || (CharLength(s) > 0 && IsUtf8(s[CharLength(s)..]))
  }

  /** A string. */
  type Text = s: Bytes | IsUtf8(s) witness []

  /** No character of `s` straddles position `i`. */
  predicate IsCharBoundary(s: Bytes, i: nat)
    requires i <= |s|
  {
    i == |s| || !IsTail(s[i])
  }

  lemma CharShape(s: Bytes, i: nat)
    requires 0 < CharLength(s)
    ensures !IsTail(s[0])
    ensures 0 < i < CharLength(s) ==> IsTail(s[i]) && CharLength(s[..i]) == 0
    ensures CharLength(s) <= i <= |s| ==> CharLength(s[..i]) == CharLength(s)
  {
  }

  /** Cutting well-formed text leaves well-formed text exactly at the character boundaries. */
  lemma {:induction false} CutIsUtf8(s: Bytes, i: nat)
    requires IsUtf8(s) && i <= |s|
    ensures IsUtf8(s[..i]) <==> IsCharBoundary(s, i)
  {
    if s != [] && i > 0 {
      var n := CharLength(s);
      CharShape(s, i);
      if i >= n {
        CutIsUtf8(s[n..], i - n);
        assert s[..i][n..] == s[n..][..i - n];
      }
    } else if s != [] {
      CharShape(s, 0);
    }
  }

  // ---------------------------------------------------------------- characters

  /** A Unicode scalar value: a code point that is no surrogate. */
  predicate IsScalar(c: int) {
    0 <= c <= 0x10FFFF && !(0xD800 <= c <= 0xDFFF)
  }

  /** A scalar value in one to four bytes, as section 3 of RFC 3629 lays it out: six bits in every byte after the first. */
  function CharBytes(c: int): (s: Bytes)
    requires IsScalar(c)
    ensures 1 <= |s| <= 4
  {
    if c < 0x80 then [c]
    else if c < 0x800 then [0xC0 + c / 64, 0x80 + c % 64]
    else if c < 0x1_0000 then [0xE0 + c / 4096, 0x80 + c / 64 % 64, 0x80 + c % 64]
    else [0xF0 + c / 262144, 0x80 + c / 4096 % 64, 0x80 + c / 64 % 64, 0x80 + c % 64]
  }

  /** The scalar value in the first `CharLength` bytes. */
  function CharAt(s: Bytes): int
    requires CharLength(s) > 0
  {
    var a: int := s[0];
    match CharLength(s)
    case 1 => a
    case 2 => (a - 0xC0) * 64 + Six(s, 1)
    case 3 => (a - 0xE0) * 4096 + Six(s, 1) * 64 + Six(s, 2)
    case _ => (a - 0xF0) * 262144 + Six(s, 1) * 4096 + Six(s, 2) * 64 + Six(s, 3)
  }

  function Six(s: Bytes, i: nat): int
    requires i < |s|
  {
    var b: int := s[i];
    b - 0x80
  }

  lemma Digits(a: nat, b: nat, c: nat, d: nat)
    requires b < 64 && c < 64 && d < 64
    ensures var v := a * 262144 + b * 4096 + c * 64 + d;
            v / 262144 == a && v / 4096 % 64 == b && v / 64 % 64 == c && v % 64 == d
  {
    var v := a * 262144 + b * 4096 + c * 64 + d;
    DivisionIsUnique(v, 262144, a, b * 4096 + c * 64 + d);
    DivisionIsUnique(v, 4096, a * 64 + b, c * 64 + d);
    DivisionIsUnique(a * 64 + b, 64, a, b);
    DivisionIsUnique(v, 64, a * 4096 + b * 64 + c, d);
    DivisionIsUnique(a * 4096 + b * 64 + c, 64, a * 64 + b, c);
  }

  lemma TwoBytes(s: Bytes, a: int)
    requires CharLength(s) == 2 && a == s[0]
    ensures IsScalar(CharAt(s)) && CharBytes(CharAt(s)) == s[..2]
  {
    Digits(0, 0, a - 0xC0, Six(s, 1));
  }

  lemma ThreeBytes(s: Bytes, a: int)
    requires CharLength(s) == 3 && a == s[0]
    ensures IsScalar(CharAt(s)) && CharBytes(CharAt(s)) == s[..3]
  {
    Digits(0, a - 0xE0, Six(s, 1), Six(s, 2));
  }

  lemma FourBytes(s: Bytes, a: int)
    requires CharLength(s) == 4 && a == s[0]
    ensures IsScalar(CharAt(s)) && CharBytes(CharAt(s)) == s[..4]
  {
    Digits(a - 0xF0, Six(s, 1), Six(s, 2), Six(s, 3));
  }

  /** A character that can be read is the encoding of a scalar value. */
  lemma CharIsEncoded(s: Bytes)
    requires CharLength(s) > 0
    ensures IsScalar(CharAt(s)) && CharBytes(CharAt(s)) == s[..CharLength(s)]
  {
    match CharLength(s)
    case 2 => TwoBytes(s, s[0]);
    case 3 => ThreeBytes(s, s[0]);
    case 4 => FourBytes(s, s[0]);
    case _ =>
  }

  /** The encoding of a scalar value can be read. */
  lemma EncodedIsChar(c: int, rest: Bytes)
    requires IsScalar(c)
    ensures CharLength(CharBytes(c) + rest) == |CharBytes(c)|
  {
    var s := CharBytes(c) + rest;
    assert s[..|CharBytes(c)|] == CharBytes(c);
  }

  predicate AllScalars(cs: seq<int>) {
    forall i :: 0 <= i < |cs| ==> IsScalar(cs[i])
  }

  /** A sequence of characters as bytes. */
  function TextBytes(cs: seq<int>): Bytes
    requires AllScalars(cs)
  {
    if cs == [] then [] else CharBytes(cs[0]) + TextBytes(cs[1..])
  }

  lemma {:induction false} TextIsUtf8(cs: seq<int>)
    requires AllScalars(cs)
    ensures IsUtf8(TextBytes(cs))
  {
    if cs != [] {
      TextIsUtf8(cs[1..]);
      EncodedIsChar(cs[0], TextBytes(cs[1..]));
      assert TextBytes(cs)[|CharBytes(cs[0])|..] == TextBytes(cs[1..]);
    }
  }

  lemma {:induction false} Utf8IsText(s: Bytes) returns (cs: seq<int>)
    requires IsUtf8(s)
    ensures AllScalars(cs) && TextBytes(cs) == s
  {
    if s == [] {
      cs := [];
    } else {
      var n := CharLength(s);
      var rest := Utf8IsText(s[n..]);
      CharIsEncoded(s);
      cs := [CharAt(s)] + rest;
      assert cs[1..] == rest;
      assert s == s[..n] + s[n..];
    }
  }

  /** Well-formed text is exactly what encodes some sequence of scalar values. */
  lemma Utf8Iff(s: Bytes)
    ensures IsUtf8(s) <==> exists cs :: AllScalars(cs) && TextBytes(cs) == s
  {
    if IsUtf8(s) {
      var cs := Utf8IsText(s);
    } else {
      forall cs | AllScalars(cs) ensures TextBytes(cs) != s {
        TextIsUtf8(cs);
      }
    }
  }
}
