/** The query of a daemon request: built percent-encoded, split and decoded again. */
module Query {
  import opened Basics

  type Bytes = seq<Byte>

  datatype Pair = Pair(name: Bytes, value: Bytes)

  const AMPERSAND: Byte := 0x26
  const EQUALS: Byte := 0x3d
  const PERCENT: Byte := 0x25
  const QUESTION: Byte := 0x3f
  const TOKEN: Bytes := [0x74, 0x6f, 0x6b, 0x65, 0x6e]

  lemma CharactersAre()
    ensures AMPERSAND as char == '&' && EQUALS as char == '=' && PERCENT as char == '%' && QUESTION as char == '?'
    ensures |TOKEN| == |"token"| && forall i | 0 <= i < |TOKEN| :: TOKEN[i] as char == "token"[i]
  {
    assert TOKEN[0] as char == 't' && TOKEN[1] as char == 'o' && TOKEN[2] as char == 'k' && TOKEN[3] as char == 'e';
  }

  // ── Encoding ────────────────────────────────────────────────────────────

  /** The unreserved characters of RFC 3986, section 2.3. */
  predicate Unreserved(b: Byte) {
    0x41 <= b <= 0x5a || 0x61 <= b <= 0x7a || 0x30 <= b <= 0x39 || b == 0x2d || b == 0x5f || b == 0x2e || b == 0x7e
  }

  function UpperHex(n: int): (b: Byte)
    requires 0 <= n < 16
  {
    if n < 10 then 0x30 + n else 0x37 + n
  }

  function EncodeByte(b: Byte): Bytes {
    if Unreserved(b) then [b] else [PERCENT, UpperHex(b / 16), UpperHex(b % 16)]
  }

  /** Section 2.1 of RFC 3986, every byte outside the unreserved set escaped. */
  function Encode(s: Bytes): Bytes {
    if s == [] then [] else EncodeByte(s[0]) + Encode(s[1..])
  }

  const UPPER := "ABCDEFGHIJKLMNOPQRSTUVWXYZ"
  const LOWER := "abcdefghijklmnopqrstuvwxyz"
  const DIGITS := "0123456789"
  const MARKS := "-_.~"
  const HEX_DIGITS := "0123456789ABCDEF"

  /** The characters left as they are, one by one, and the escape of any other. */
  lemma EncodedByteIs(b: Byte)
    ensures EncodeByte(b) == if (b as char) in UPPER + LOWER + DIGITS + MARKS then [b]
                             else [0x25, HEX_DIGITS[b / 16] as int, HEX_DIGITS[b % 16] as int]
  {
    hide Unreserved, UpperHex;
    UnreservedIs(b);
    UpperHexIs(b / 16);
    UpperHexIs(b % 16);
  }

  lemma UpperHexIs(n: int)
    requires 0 <= n < 16
    ensures UpperHex(n) == HEX_DIGITS[n] as int
  {}

  lemma UnreservedIs(b: Byte)
    ensures Unreserved(b) <==> (b as char) in UPPER + LOWER + DIGITS + MARKS
  {
    var c := b as char;
    UpperIs(c);
    LowerIs(c);
    DigitIs(c);
    assert c in MARKS <==> c == '-' || c == '_' || c == '.' || c == '~';
    hide *;
    assert c in UPPER + LOWER + DIGITS + MARKS <==> c in UPPER || c in LOWER || c in DIGITS || c in MARKS;
  }

  lemma UpperIs(c: char)
    ensures c in UPPER <==> 'A' <= c <= 'Z'
  {
    if 'A' <= c <= 'Z' {
      assert UPPER[c as int - 0x41] == c;
    }
  }

  lemma LowerIs(c: char)
    ensures c in LOWER <==> 'a' <= c <= 'z'
  {
    if 'a' <= c <= 'z' {
      assert LOWER[c as int - 0x61] == c;
    }
  }

  lemma DigitIs(c: char)
    ensures c in DIGITS <==> '0' <= c <= '9'
  {
    if '0' <= c <= '9' {
      assert DIGITS[c as int - 0x30] == c;
    }
  }

  lemma {:induction false} EncodeOn(a: Bytes, b: Byte)
    ensures Encode(a + [b]) == Encode(a) + EncodeByte(b)
  {
    hide EncodeByte;
    if a == [] {
      assert (a + [b])[1..] == [] && Encode([]) == [];
    } else {
      assert (a + [b])[1..] == a[1..] + [b];
      EncodeOn(a[1..], b);
    }
  }

  method PctEncode(s: Bytes) returns (out: Bytes)
    ensures out == Encode(s)
  {
    hide Encode;
    out := [];
    assert out == Encode(s[..0]) by { EncodeNothing(); }
    for i := 0 to |s|
      invariant out == Encode(s[..i])
    {
      var b: int := s[i];
      EncodeOn(s[..i], b);
      assert s[..i + 1] == s[..i] + [s[i]];
      if Unreserved(b) {
        out := out + [b];
      } else {
        out := out + [PERCENT, UpperHex(b / 16), UpperHex(b % 16)];
      }
    }
    assert s[..|s|] == s;
  }

  lemma EncodeNothing()
    ensures Encode([]) == []
  {}

  /** One `name=value`, encoded. */
  function Field(p: Pair): Bytes {
    Encode(p.name) + [EQUALS] + Encode(p.value)
  }

  function Tail(params: seq<Pair>): Bytes {
    if params == [] then []
    else [AMPERSAND] + Field(params[0]) + Tail(params[1..])
  }

  /** What `cli_query` asks for, after the daemon's base address. */
  function Target(path: Bytes, token: Bytes, params: seq<Pair>): Bytes {
    path + [QUESTION] + (TOKEN + [EQUALS] + token + Tail(params))
  }

  lemma {:induction false} TailOn(a: seq<Pair>, p: Pair)
    ensures Tail(a + [p]) == Tail(a) + ([AMPERSAND] + Field(p))
  {
    hide Field;
    if a == [] {
      assert (a + [p])[1..] == [];
    } else {
      assert (a + [p])[1..] == a[1..] + [p];
      TailOn(a[1..], p);
    }
  }

  lemma Pushed(url: Bytes, a: Bytes, b: Bytes)
    ensures url + [AMPERSAND] + a + [EQUALS] + b == url + ([AMPERSAND] + (a + [EQUALS] + b))
    ensures url + a + b == url + (a + b)
  {}

  method CliTarget(path: Bytes, token: Bytes, params: seq<Pair>) returns (url: Bytes)
    ensures url == Target(path, token, params)
  {
    hide Encode, Tail;
    var start := path + [QUESTION] + TOKEN + [EQUALS] + token;
    url := start;
    assert url == start + Tail(params[..0]) by { TailOfNothing(); }
    for i := 0 to |params|
      invariant url == start + Tail(params[..i])
    {
      TailOn(params[..i], params[i]);
      assert params[..i + 1] == params[..i] + [params[i]];
      ghost var before := url;
      url := url + [AMPERSAND];
      var name := PctEncode(params[i].name);
      url := url + name;
      url := url + [EQUALS];
      var value := PctEncode(params[i].value);
      url := url + value;
      Pushed(before, name, value);
      Pushed(start, Tail(params[..i]), [AMPERSAND] + Field(params[i]));
    }
    assert params[..|params|] == params;
  }

  lemma TailOfNothing()
    ensures Tail([]) == []
  {}

  // ── Decoding ────────────────────────────────────────────────────────────

  function HexValue(b: Byte): (v: Option<int>)
    ensures v.Some? ==> 0 <= v.value < 16
  {
    if 0x30 <= b <= 0x39 then Some(b - 0x30)
    else if 0x41 <= b <= 0x46 then Some(b - 0x37)
    else if 0x61 <= b <= 0x66 then Some(b - 0x57)
    else None
  }

  /** `u8::from_str_radix` on two characters: a leading plus sign is allowed. */
  function HexPair(a: Byte, b: Byte): (v: Option<Byte>) {
    var low := HexValue(b);
    if low.None? then None
    else if a == 0x2b then Some(low.value)
    else
      var high := HexValue(a);
      if high.None? then None else Some(high.value * 16 + low.value)
  }

  /** `pct_decode`; None where it stops the program. */
  function Decode(s: Bytes): (r: Option<Bytes>)
    ensures r.Some? ==> |r.value| <= |s|
  {
    if s == [] then Some([])
    else if s[0] == PERCENT && |s| > 2 then
      var b := HexPair(s[1], s[2]);
      var rest := Decode(s[3..]);
      if b.None? || rest.None? then None else Some([b.value] + rest.value)
    else
      var rest := Decode(s[1..]);
      if rest.None? then None else Some([s[0]] + rest.value)
  }

  const LOWER_HEX := "0123456789abcdef"

  /** `c` is the hex digit of value `v`, in either case. */
  predicate IsHex(c: Byte, v: int) {
    0 <= v < 16 && (c as char == HEX_DIGITS[v] || c as char == LOWER_HEX[v])
  }

  /** Two hex digits of either case, or a plus sign and one; nothing else is read. */
  lemma HexPairIs(a: Byte, b: Byte, v: Byte)
    ensures HexPair(a, b) == Some(v)
       <==> exists i, j :: (IsHex(a, i) || (a as char == '+' && i == 0)) && IsHex(b, j) && v == 16 * i + j
  {
    hide IsHex;
    HexValueIs(a);
    HexValueIs(b);
    if HexPair(a, b) == Some(v) {
      var i := if a == 0x2b then 0 else HexValue(a).value;
      assert (IsHex(a, i) || (a as char == '+' && i == 0)) && IsHex(b, HexValue(b).value);
    }
  }

  lemma HexValueIs(c: Byte)
    ensures forall v :: IsHex(c, v) <==> HexValue(c) == Some(v)
    ensures c as char == '+' <==> c == 0x2b
    ensures HexValue(0x2b) == None
  {
    forall v: int ensures IsHex(c, v) <==> HexValue(c) == Some(v) {
      if 0 <= v < 16 {
        UpperHexIs(v);
        assert LOWER_HEX[v] as int == if v < 10 then 0x30 + v else 0x57 + v;
      }
    }
  }

  /** A piece of an encoded text as the decoder takes it. */
  datatype Piece = Raw(b: Byte) | Escape(high: Byte, low: Byte)

  function Written(ps: seq<Piece>): Bytes {
    if ps == [] then []
    else (if ps[0].Raw? then [ps[0].b] else [PERCENT, ps[0].high, ps[0].low]) + Written(ps[1..])
  }

  /** A percent sign stands for itself only with fewer than two characters after it. */
  predicate Taken(ps: seq<Piece>) {
    ps == [] ||
    (&& Taken(ps[1..])
     && match ps[0]
        case Raw(b) => b == PERCENT ==> |Written(ps[1..])| < 2
        case Escape(high, low) => HexPair(high, low).Some?)
  }

  function Values(ps: seq<Piece>): Bytes
    requires Taken(ps)
  {
    if ps == [] then []
    else [if ps[0].Raw? then ps[0].b else HexPair(ps[0].high, ps[0].low).value] + Values(ps[1..])
  }

  /** What the decoder makes of a text cut into pieces it can take. */
  lemma {:induction false} DecodesPieces(ps: seq<Piece>)
    requires Taken(ps)
    ensures Decode(Written(ps)) == Some(Values(ps))
  {
    hide HexPair;
    if ps != [] {
      DecodesPieces(ps[1..]);
      var s, rest := Written(ps), Written(ps[1..]);
      if ps[0].Raw? {
        assert s[1..] == rest;
      } else {
        assert s[3..] == rest;
      }
    }
  }

  /** Every text it decodes is cut that way. */
  lemma {:induction false} Cut(s: Bytes) returns (ps: seq<Piece>)
    requires Decode(s).Some?
    ensures Written(ps) == s && Taken(ps)
  {
    hide HexPair;
    if s == [] {
      ps := [];
    } else if s[0] == PERCENT && |s| > 2 {
      var rest := Cut(s[3..]);
      ps := [Escape(s[1], s[2])] + rest;
      assert ps[1..] == rest && s == [PERCENT, s[1], s[2]] + s[3..];
    } else {
      var rest := Cut(s[1..]);
      ps := [Raw(s[0])] + rest;
      assert ps[1..] == rest && s == [s[0]] + s[1..];
    }
  }

  /** The decoder gives `t` exactly when the text is cut into pieces it can take
      with the values `t`; on any other text it stops the program. */
  lemma DecodesExactly(s: Bytes, t: Bytes)
    ensures Decode(s) == Some(t) <==> exists ps: seq<Piece> :: Written(ps) == s && Taken(ps) && Values(ps) == t
  {
    hide Decode, Written, Taken, Values;
    if Decode(s) == Some(t) {
      var ps := Cut(s);
      DecodesPieces(ps);
    }
    if ps: seq<Piece> :| Written(ps) == s && Taken(ps) && Values(ps) == t {
      DecodesPieces(ps);
    }
  }

  function Prepended(out: Bytes, r: Option<Bytes>): Option<Bytes> {
    if r.None? then None else Some(out + r.value)
  }

  lemma PrependNothing(r: Option<Bytes>)
    ensures Prepended([], r) == r
  {
    assert r.Some? ==> [] + r.value == r.value;
  }

  lemma PrependTo(out: Bytes)
    ensures Prepended(out, Some([])) == Some(out)
  {
    assert out + [] == out;
  }

  lemma DecodeEscape(s: Bytes, i: nat, out: Bytes)
    requires i + 2 < |s| && s[i] == PERCENT
    ensures var b := HexPair(s[i + 1], s[i + 2]);
            Prepended(out, Decode(s[i..])) == if b.None? then None else Prepended(out + [b.value], Decode(s[i + 3..]))
  {
    hide HexPair;
    var b, rest := HexPair(s[i + 1], s[i + 2]), Decode(s[i + 3..]);
    assert s[i..][3..] == s[i + 3..];
    if b.Some? {
      assert Decode(s[i..]) == Prepended([b.value], rest);
      PrependedTwice(out, [b.value], rest);
    }
  }

  lemma PrependedTwice(a: Bytes, b: Bytes, r: Option<Bytes>)
    ensures Prepended(a, Prepended(b, r)) == Prepended(a + b, r)
  {
    if r.Some? {
      assert a + (b + r.value) == a + b + r.value;
    }
  }

  lemma FirstDecodes(t: Bytes)
    requires t != [] && !(t[0] == PERCENT && |t| > 2)
    ensures Decode(t) == Prepended([t[0]], Decode(t[1..]))
  {
    hide HexPair;
  }

  lemma DecodePlain(s: Bytes, i: nat, out: Bytes)
    requires i < |s| && !(s[i] == PERCENT && i + 2 < |s|)
    ensures Prepended(out, Decode(s[i..])) == Prepended(out + [s[i]], Decode(s[i + 1..]))
  {
    hide Decode, Prepended;
    FirstDecodes(s[i..]);
    assert s[i..][1..] == s[i + 1..];
    PrependedTwice(out, [s[i]], Decode(s[i + 1..]));
  }

  method PctDecode(s: Bytes) returns (r: Option<Bytes>)
    ensures r == Decode(s)
  {
    hide HexPair, Decode, Prepended;
    var out := [];
    var i := 0;
    assert Decode(s) == Prepended(out, Decode(s[i..])) by {
      assert s[0..] == s;
      PrependNothing(Decode(s));
    }
    while i < |s|
      invariant 0 <= i <= |s|
      invariant Decode(s) == Prepended(out, Decode(s[i..]))
    {
      if s[i] == PERCENT && i + 2 < |s| {
        var b := HexPair(s[i + 1], s[i + 2]);
        DecodeEscape(s, i, out);
        if b.None? {
          return None;
        }
        out := out + [b.value];
        i := i + 3;
      } else {
        DecodePlain(s, i, out);
        out := out + [s[i]];
        i := i + 1;
      }
    }
    DecodeNothing();
    assert s[|s|..] == [];
    assert Prepended(out, Some([])) == Some(out) by { PrependTo(out); }
    return Some(out);
  }

  /** An escape that `pct_decode` sees: two characters follow the sign. */
  predicate Plain(s: Bytes) {
    forall i | 0 <= i < |s| - 2 :: s[i] != PERCENT
  }

  /** Decoding changes nothing exactly when it sees no escape. */
  lemma {:induction false} DecodeKeeps(s: Bytes)
    ensures Decode(s) == Some(s) <==> Plain(s)
  {
    if s != [] {
      if s[0] == PERCENT && |s| > 2 {
        assert !Plain(s);
      } else {
        DecodeKeeps(s[1..]);
        assert s == [s[0]] + s[1..];
        if Plain(s) {
          assert forall i | 0 <= i < |s| - 3 :: s[1..][i] == s[i + 1];
        }
        if Plain(s[1..]) {
          forall i | 0 <= i < |s| - 2 ensures s[i] != PERCENT {
            assert i > 0 ==> s[1..][i - 1] == s[i];
          }
        }
      }
    }
  }

  lemma EscapeDecodes(b: Byte, rest: Bytes)
    ensures Decode(EncodeByte(b) + rest) == Prepended([b], Decode(rest))
  {
    var t := EncodeByte(b) + rest;
    if Unreserved(b) {
      assert t[1..] == rest && t[0] == b;
    } else {
      assert t[3..] == rest;
      assert HexPair(t[1], t[2]) == Some(b);
    }
  }

  lemma {:induction false} EncodedDecodes(s: Bytes)
    ensures Decode(Encode(s)) == Some(s)
  {
    hide EncodeByte, Decode;
    if s == [] {
      DecodeNothing();
    } else {
      EncodedDecodes(s[1..]);
      EscapeDecodes(s[0], Encode(s[1..]));
      assert s == [s[0]] + s[1..];
    }
  }

  lemma DecodeNothing()
    ensures Decode([]) == Some([])
  {}

  // ── Splitting ───────────────────────────────────────────────────────────

  function Find(s: Bytes, c: Byte): (i: nat)
    ensures i <= |s| && c !in s[..i] && (i < |s| ==> s[i] == c)
  {
    if s == [] || s[0] == c then 0
    else
      var i := Find(s[1..], c);
      assert s[..i + 1] == [s[0]] + s[1..][..i];
      i + 1
  }

  /** `s.split(c)` */
  function SplitAll(s: Bytes, c: Byte): (parts: seq<Bytes>)
    ensures parts != []
    decreases |s|
  {
    var i := Find(s, c);
    if i == |s| then [s] else [s[..i]] + SplitAll(s[i + 1..], c)
  }

  function NonEmpty(parts: seq<Bytes>): seq<Bytes> {
    if parts == [] then [] else (if parts[0] == [] then [] else [parts[0]]) + NonEmpty(parts[1..])
  }

  /** Exactly the parts that are not empty. */
  lemma {:induction false} NonEmptyAre(parts: seq<Bytes>)
    ensures [] !in NonEmpty(parts) && multiset(NonEmpty(parts)) == multiset(parts)[[] := 0]
  {
    if parts != [] {
      NonEmptyAre(parts[1..]);
      assert parts == [parts[0]] + parts[1..];
    }
  }

  /** One `name=value`, cut at the first equals sign. */
  function DecodeField(field: Bytes): Option<Pair> {
    var i := Find(field, EQUALS);
    var name := Decode(field[..i]);
    var value := Decode(if i == |field| then [] else field[i + 1..]);
    if name.None? || value.None? then None else Some(Pair(name.value, value.value))
  }

  function DecodeFields(fields: seq<Bytes>): Option<seq<Pair>> {
    if fields == [] then Some([])
    else
      var first := DecodeField(fields[0]);
      var rest := DecodeFields(fields[1..]);
      if first.None? || rest.None? then None else Some([first.value] + rest.value)
  }

  datatype Seen = Seen(path: Bytes, query: Option<seq<Pair>>)

  /** What the daemon reads from a request target. */
  function ReadTarget(target: Bytes): Seen {
    var i := Find(target, QUESTION);
    var query := if i == |target| then [] else target[i + 1..];
    Seen(target[..i], DecodeFields(NonEmpty(SplitAll(query, AMPERSAND))))
  }

  // ── There and back ──────────────────────────────────────────────────────

  lemma FindAt(a: Bytes, c: Byte, b: Bytes)
    requires c !in a
    ensures Find(a + [c] + b, c) == |a| && (a + [c] + b)[..|a|] == a && (a + [c] + b)[|a| + 1..] == b
  {
    var s := a + [c] + b;
    assert s[..|a|] == a && s[|a|] == c && s[|a| + 1..] == b;
    assert forall i | 0 <= i < |a| :: s[i] == a[i];
  }

  lemma FindNone(a: Bytes, c: Byte)
    requires c !in a
    ensures Find(a, c) == |a|
  {}

  /** Encoded text holds no delimiter. */
  lemma {:induction false} EncodedIsFree(s: Bytes)
    ensures AMPERSAND !in Encode(s) && EQUALS !in Encode(s)
  {
    if s != [] {
      EncodedIsFree(s[1..]);
      assert AMPERSAND !in EncodeByte(s[0]) && EQUALS !in EncodeByte(s[0]);
    }
  }

  function FieldsOf(params: seq<Pair>): seq<Bytes> {
    if params == [] then [] else [Field(params[0])] + FieldsOf(params[1..])
  }

  lemma SplitOne(u: Bytes)
    requires AMPERSAND !in u
    ensures SplitAll(u, AMPERSAND) == [u]
  {
    FindNone(u, AMPERSAND);
  }

  lemma {:induction false} SplitTail(u: Bytes, params: seq<Pair>)
    requires AMPERSAND !in u
    ensures SplitAll(u + Tail(params), AMPERSAND) == [u] + FieldsOf(params)
    decreases |params|
  {
    hide Encode, Find, SplitAll;
    if params == [] {
      assert u + Tail(params) == u;
      SplitOne(u);
    } else {
      var p := params[0];
      EncodedIsFree(p.name);
      EncodedIsFree(p.value);
      SplitTail(Field(p), params[1..]);
      TailFront(u, params);
      SplitFront(u, Field(p) + Tail(params[1..]));
    }
  }

  lemma TailFront(u: Bytes, params: seq<Pair>)
    requires params != []
    ensures u + Tail(params) == u + [AMPERSAND] + (Field(params[0]) + Tail(params[1..]))
  {
    hide *;
    TailIs(params);
    Regrouped(u, [AMPERSAND], Field(params[0]), Tail(params[1..]));
  }

  lemma TailIs(params: seq<Pair>)
    requires params != []
    ensures Tail(params) == [AMPERSAND] + Field(params[0]) + Tail(params[1..])
  {}

  lemma Regrouped(a: Bytes, b: Bytes, c: Bytes, d: Bytes)
    ensures a + (b + c + d) == a + b + (c + d)
  {}

  lemma SplitFront(u: Bytes, rest: Bytes)
    requires AMPERSAND !in u
    ensures SplitAll(u + [AMPERSAND] + rest, AMPERSAND) == [u] + SplitAll(rest, AMPERSAND)
  {
    hide Find;
    FindAt(u, AMPERSAND, rest);
  }

  lemma FieldDecodes(p: Pair)
    ensures DecodeField(Field(p)) == Some(p) && Field(p) != []
  {
    hide Encode, Decode, Find;
    EncodedIsFree(p.name);
    FindAt(Encode(p.name), EQUALS, Encode(p.value));
    EncodedDecodes(p.name);
    EncodedDecodes(p.value);
  }

  lemma {:induction false} FieldsDecode(params: seq<Pair>)
    ensures DecodeFields(NonEmpty(FieldsOf(params))) == Some(params)
  {
    hide DecodeField, Field;
    if params != [] {
      FieldDecodes(params[0]);
      FieldsDecode(params[1..]);
      var f := Field(params[0]);
      assert NonEmpty(FieldsOf(params)) == [f] + NonEmpty(FieldsOf(params[1..]));
      assert params == [params[0]] + params[1..];
    }
  }

  function Token(token: Bytes): Bytes {
    TOKEN + [EQUALS] + token
  }

  lemma TokenDecodes(token: Bytes)
    ensures Token(token) != [] && EQUALS !in TOKEN
    ensures DecodeField(Token(token))
         == if Decode(token).None? then None else Some(Pair(TOKEN, Decode(token).value))
  {
    hide Decode, Find;
    FindAt(TOKEN, EQUALS, token);
    DecodeKeeps(TOKEN);
  }

  /** With no `?` in the path and no `&` in the token, the daemon reads the
      path, the decoded token and then exactly the caller's pairs. */
  lemma PairsComeBack(path: Bytes, token: Bytes, params: seq<Pair>)
    requires QUESTION !in path && AMPERSAND !in token
    ensures var seen := ReadTarget(Target(path, token, params));
            && seen.path == path
            && seen.query == if Decode(token).None? then None else Some([Pair(TOKEN, Decode(token).value)] + params)
  {
    hide Encode, Decode, Find, Tail, SplitAll, DecodeField, FieldsOf;
    var u := Token(token);
    FindAt(path, QUESTION, u + Tail(params));
    SplitTail(u, params);
    TokenDecodes(token);
    FieldsDecode(params);
    assert NonEmpty([u] + FieldsOf(params)) == [u] + NonEmpty(FieldsOf(params)) by {
      assert ([u] + FieldsOf(params))[1..] == FieldsOf(params);
    }
    assert ([u] + NonEmpty(FieldsOf(params)))[1..] == NonEmpty(FieldsOf(params));
  }

  /** The token pair and then the caller's pairs come back exactly when the
      token has no `&` and no percent sign with two characters after it. */
  lemma ComesBackExactly(path: Bytes, token: Bytes, params: seq<Pair>)
    requires QUESTION !in path
    ensures ReadTarget(Target(path, token, params)) == Seen(path, Some([Pair(TOKEN, token)] + params))
        <==> AMPERSAND !in token && Plain(token)
  {
    hide Encode, Decode, Find, Tail, SplitAll, DecodeField, FieldsOf, Target, ReadTarget;
    DecodeKeeps(token);
    if AMPERSAND !in token {
      PairsComeBack(path, token, params);
      if Decode(token).Some? {
        assert ([Pair(TOKEN, Decode(token).value)] + params)[0].value == Decode(token).value;
      }
    } else {
      CutTokenIsShorter(path, token, params);
    }
  }

  lemma CutTokenIsShorter(path: Bytes, token: Bytes, params: seq<Pair>)
    requires QUESTION !in path && AMPERSAND in token
    ensures ReadTarget(Target(path, token, params)) != Seen(path, Some([Pair(TOKEN, token)] + params))
  {
    hide Encode, Decode, Tail;
    var n := Find(token, AMPERSAND);
    assert AMPERSAND !in token[..n] && n < |token|;
    var rest := token[n + 1..] + Tail(params);
    var query := Token(token) + Tail(params);
    var u := Token(token[..n]);
    assert query == u + [AMPERSAND] + rest;
    FindAt(path, QUESTION, query);
    FindAt(u, AMPERSAND, rest);
    TokenDecodes(token[..n]);
    var fields := NonEmpty(SplitAll(query, AMPERSAND));
    assert fields[0] == u;
    if DecodeFields(fields).Some? {
      assert DecodeFields(fields).value[0] == DecodeField(u).value;
      assert |DecodeFields(fields).value[0].value| < |token|;
    }
  }
}
