/** JavaScript strings as 16-bit code units, and their UTF-8 form (RFC 3629, section 3). */
module Utf16 {
  import opened Basics

  type Unit = u: int | 0 <= u < 0x1_0000
  type Text = seq<Unit>

  predicate High(u: Unit) { 0xD800 <= u <= 0xDBFF }

  predicate Low(u: Unit) { 0xDC00 <= u <= 0xDFFF }

  predicate Paired(t: Text) { |t| >= 2 && High(t[0]) && Low(t[1]) }

  /** Every surrogate stands in a pair. */
  predicate WellFormed(t: Text) {
    t == [] ||
    if Paired(t) then WellFormed(t[2..]) else !High(t[0]) && !Low(t[0]) && WellFormed(t[1..])
  }

  /** The code point that `t` starts with. */
  function FirstScalar(t: Text): (c: int)
    requires t != [] && WellFormed(t)
    ensures 0 <= c < 0x11_0000
    ensures c < 0x1_0000 <==> !Paired(t)
  {
    var first: int := t[0];
    if Paired(t) then
      var second: int := t[1];
      0x1_0000 + (first - 0xD800) * 0x400 + (second - 0xDC00)
    else first
  }

  /** Units the first code point of a well-formed text takes. */
  function FirstUnits(t: Text): (n: nat)
    requires t != []
    ensures 1 <= n <= |t|
  {
    if Paired(t) then 2 else 1
  }

  /** The table of section 3 of RFC 3629. */
  function Utf8Char(c: int): (bytes: seq<Byte>)
    requires 0 <= c < 0x11_0000
  {
    if c < 0x80 then [c]
    else if c < 0x800 then [0xC0 + c / 0x40, 0x80 + c % 0x40]
    else if c < 0x1_0000 then [0xE0 + c / 0x1000, 0x80 + c / 0x40 % 0x40, 0x80 + c % 0x40]
    else [0xF0 + c / 0x4_0000, 0x80 + c / 0x1000 % 0x40, 0x80 + c / 0x40 % 0x40, 0x80 + c % 0x40]
  }

  /** The UTF-8 bytes of a text; `encodeURIComponent` throws on any other text. */
  function Utf8(t: Text): seq<Byte>
    requires WellFormed(t)
  {
    if t == [] then [] else Utf8Char(FirstScalar(t)) + Utf8(t[FirstUnits(t)..])
  }

  // ── utf8Len ─────────────────────────────────────────────────────────────

  /** Bytes `utf8Len` adds for the text's start: a high surrogate with any
      unit after it counts as a pair. */
  function StepBytes(t: Text): nat
    requires t != []
  {
    if t[0] < 0x80 then 1
    else if t[0] < 0x800 then 2
    else if High(t[0]) && |t| > 1 then 4
    else 3
  }

  function StepUnits(t: Text): (n: nat)
    requires t != []
    ensures 1 <= n <= |t|
  {
    if High(t[0]) && |t| > 1 then 2 else 1
  }

  /** What `utf8Len` adds up over any text, well-formed or not. */
  function Utf8Len(t: Text): nat {
    if t == [] then 0 else StepBytes(t) + Utf8Len(t[StepUnits(t)..])
  }

  method CountUtf8(s: Text) returns (n: nat)
    ensures n == Utf8Len(s)
    ensures WellFormed(s) ==> n == |Utf8(s)|
  {
    n := 0;
    var i := 0;
    while i < |s|
      invariant 0 <= i <= |s|
      invariant n + Utf8Len(s[i..]) == Utf8Len(s)
    {
      var c := s[i];
      assert s[i..][StepUnits(s[i..])..] == s[i + StepUnits(s[i..])..];
      if c < 0x80 {
        n := n + 1;
      } else if c < 0x800 {
        n := n + 2;
      } else if 0xD800 <= c <= 0xDBFF && i + 1 < |s| {
        n := n + 4;
        i := i + 1;
      } else {
        n := n + 3;
      }
      i := i + 1;
    }
    if WellFormed(s) {
      Utf8LenIsUtf8(s);
    }
  }

  /** On well-formed text `utf8Len` is the length of the UTF-8 form. */
  lemma {:induction false} Utf8LenIsUtf8(t: Text)
    requires WellFormed(t)
    ensures Utf8Len(t) == |Utf8(t)|
  {
    if t != [] {
      StepIsFirst(t);
      Utf8LenIsUtf8(t[FirstUnits(t)..]);
    }
  }

  lemma StepIsFirst(t: Text)
    requires t != [] && WellFormed(t)
    ensures StepUnits(t) == FirstUnits(t) && StepBytes(t) == |Utf8Char(FirstScalar(t))|
  {}

  // ── Concatenation ───────────────────────────────────────────────────────

  lemma FirstOfConcatenation(a: Text, b: Text)
    requires a != [] && WellFormed(a)
    ensures Paired(a + b) == Paired(a) && FirstUnits(a + b) == FirstUnits(a)
    ensures (a + b)[0] == a[0] && (a + b)[FirstUnits(a)..] == a[FirstUnits(a)..] + b
    ensures StepUnits(a + b) == FirstUnits(a) && StepBytes(a + b) == StepBytes(a)
    ensures WellFormed(a + b) ==> FirstScalar(a + b) == FirstScalar(a)
  {}

  lemma {:induction false} Concatenation(a: Text, b: Text)
    requires WellFormed(a)
    ensures WellFormed(a + b) <==> WellFormed(b)
    ensures WellFormed(b) ==> Utf8(a + b) == Utf8(a) + Utf8(b)
    ensures Utf8Len(a + b) == Utf8Len(a) + Utf8Len(b)
    decreases |a|
  {
    hide FirstScalar, Utf8Char, StepBytes, StepUnits;
    if a == [] {
      assert a + b == b;
    } else {
      FirstOfConcatenation(a, b);
      StepIsFirst(a);
      Concatenation(a[FirstUnits(a)..], b);
    }
  }

  // ── UTF-8 loses nothing ─────────────────────────────────────────────────

  /** Reads back one code point from its bytes. */
  function Scalar(s: seq<int>): int
    requires 1 <= |s| <= 4
  {
    if |s| == 1 then s[0]
    else if |s| == 2 then (s[0] - 0xC0) * 0x40 + (s[1] - 0x80)
    else if |s| == 3 then (s[0] - 0xE0) * 0x1000 + (s[1] - 0x80) * 0x40 + (s[2] - 0x80)
    else (s[0] - 0xF0) * 0x4_0000 + (s[1] - 0x80) * 0x1000 + (s[2] - 0x80) * 0x40 + (s[3] - 0x80)
  }

  lemma ScalarOfUtf8Char(c: int)
    requires 0 <= c < 0x11_0000
    ensures 1 <= |Utf8Char(c)| <= 4 && Scalar(Utf8Char(c)) == c
  {
    var high := c / 0x40;
    assert c == high * 0x40 + c % 0x40;
    assert high == high / 0x40 * 0x40 + high % 0x40;
    assert c / 0x1000 == high / 0x40;
    var top := c / 0x1000;
    assert top == top / 0x40 * 0x40 + top % 0x40;
    assert c / 0x4_0000 == top / 0x40;
  }

  /** The first byte fixes how many follow. */
  lemma Utf8CharPrefixFree(c: int, d: int, x: seq<Byte>, y: seq<Byte>)
    requires 0 <= c < 0x11_0000 && 0 <= d < 0x11_0000
    requires Utf8Char(c) + x == Utf8Char(d) + y
    ensures c == d && x == y
  {
    var s, r := Utf8Char(c), Utf8Char(d);
    assert |s| == |r| by {
      assert (s + x)[0] == s[0] && (r + y)[0] == r[0];
    }
    assert s == (s + x)[..|s|] == r;
    assert x == (s + x)[|s|..] == y;
    ScalarOfUtf8Char(c);
    ScalarOfUtf8Char(d);
  }

  lemma {:induction false} Utf8Injective(a: Text, b: Text)
    requires WellFormed(a) && WellFormed(b)
    requires Utf8(a) == Utf8(b)
    ensures a == b
    decreases |a|
  {
    if a != [] && b != [] {
      var m, n := FirstUnits(a), FirstUnits(b);
      Utf8CharPrefixFree(FirstScalar(a), FirstScalar(b), Utf8(a[m..]), Utf8(b[n..]));
      Utf8Injective(a[m..], b[n..]);
      assert a == a[..m] + a[m..] && b == b[..n] + b[n..];
      assert a[..m] == b[..n];
    }
  }

  // ── Well-formed texts are the encoded ones ──────────────────────────────

  /** The Unicode scalar values: every code point but the surrogates. */
  predicate ScalarValue(c: int) { 0 <= c < 0xD800 || 0xE000 <= c < 0x11_0000 }

  predicate ScalarValues(cs: seq<int>) {
    forall i | 0 <= i < |cs| :: ScalarValue(cs[i])
  }

  /** UTF-16 (RFC 2781, section 2.1). */
  function Units(c: int): Text
    requires ScalarValue(c)
  {
    if c < 0x1_0000 then [c] else [0xD800 + (c - 0x1_0000) / 0x400, 0xDC00 + (c - 0x1_0000) % 0x400]
  }

  function Encoded(cs: seq<int>): Text
    requires ScalarValues(cs)
  {
    if cs == [] then [] else Units(cs[0]) + Encoded(cs[1..])
  }

  function EncodedUtf8(cs: seq<int>): seq<Byte>
    requires ScalarValues(cs)
  {
    if cs == [] then [] else Utf8Char(cs[0]) + EncodedUtf8(cs[1..])
  }

  lemma UnitsAre(c: int, rest: Text)
    requires ScalarValue(c)
    ensures var t := Units(c) + rest;
            && t != [] && FirstUnits(t) == |Units(c)| && t[FirstUnits(t)..] == rest
            && (WellFormed(t) <==> WellFormed(rest)) && (WellFormed(t) ==> FirstScalar(t) == c)
  {
    var u, t := Units(c), Units(c) + rest;
    assert t[0] == u[0] && t[|u|..] == rest;
    if c >= 0x1_0000 {
      assert t[1] == u[1];
    }
  }

  lemma FirstIsEncoded(t: Text)
    requires t != [] && WellFormed(t)
    ensures ScalarValue(FirstScalar(t)) && Units(FirstScalar(t)) == t[..FirstUnits(t)]
  {}

  /** A text of scalar values is well-formed, and its UTF-8 form is theirs. */
  lemma {:induction false} EncodedIs(cs: seq<int>)
    requires ScalarValues(cs)
    ensures WellFormed(Encoded(cs)) && Utf8(Encoded(cs)) == EncodedUtf8(cs)
  {
    hide Units, FirstUnits, Utf8Char, FirstScalar;
    if cs != [] {
      EncodedIs(cs[1..]);
      UnitsAre(cs[0], Encoded(cs[1..]));
    }
  }

  lemma {:induction false} ScalarsOf(t: Text) returns (cs: seq<int>)
    requires WellFormed(t)
    ensures ScalarValues(cs) && Encoded(cs) == t
    decreases |t|
  {
    hide Units, FirstScalar;
    if t == [] {
      cs := [];
    } else {
      FirstIsEncoded(t);
      var rest := ScalarsOf(t[FirstUnits(t)..]);
      cs := [FirstScalar(t)] + rest;
      assert cs[1..] == rest && t == t[..FirstUnits(t)] + t[FirstUnits(t)..];
    }
  }

  /** The well-formed texts are exactly the encodings of scalar values. */
  lemma WellFormedExactly(t: Text)
    ensures WellFormed(t) <==> exists cs: seq<int> :: ScalarValues(cs) && Encoded(cs) == t
  {
    hide WellFormed, Encoded;
    if WellFormed(t) {
      var cs := ScalarsOf(t);
    }
    if cs: seq<int> :| ScalarValues(cs) && Encoded(cs) == t {
      EncodedIs(cs);
    }
  }
}
