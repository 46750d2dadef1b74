/** JSON values and their text as `JSON.stringify` writes it. */
module Json {
  import opened Basics
  import opened Utf16

  datatype Value =
    | Null
    | Bool(b: bool)
    | Number(n: int)
    | String(t: Text)
    | Array(items: seq<Value>)
    | Object(fields: seq<Field>)

  datatype Field = Field(name: Text, value: Value)

  /** The digit `n` as the unit of its hex character. */
  function HexUnit(n: int): (u: Unit)
    requires 0 <= n < 16
    ensures 0x30 <= u <= 0x39 || 0x61 <= u <= 0x66
  {
    if n < 10 then 0x30 + n else 0x57 + n
  }

  /** How a string's first character is written between the quotes: a quote,
      a backslash, a control character or an unpaired surrogate is escaped. */
  function EscapeFirst(t: Text): Text
    requires t != []
  {
    var c: int := t[0];
    if c == 0x22 || c == 0x5c then [0x5c, c]
    else if c == 0x08 then [0x5c, 0x62]
    else if c == 0x09 then [0x5c, 0x74]
    else if c == 0x0a then [0x5c, 0x6e]
    else if c == 0x0c then [0x5c, 0x66]
    else if c == 0x0d then [0x5c, 0x72]
    else if c < 0x20 then [0x5c, 0x75, 0x30, 0x30, HexUnit(c / 16), HexUnit(c % 16)]
    else if Paired(t) then t[..2]
    else if High(c) || Low(c) then
      [0x5c, 0x75, HexUnit(c / 0x1000), HexUnit(c / 0x100 % 16), HexUnit(c / 16 % 16), HexUnit(c % 16)]
    else [c]
  }

  /** A string between its quotes. */
  function Body(t: Text): Text {
    if t == [] then [] else EscapeFirst(t) + Body(t[FirstUnits(t)..])
  }

  function Decimal(n: nat): (t: Text)
    ensures t != []
  {
    if n < 10 then [0x30 + n] else Decimal(n / 10) + [0x30 + n % 10]
  }

  /** The digits of a number, without a leading zero. */
  lemma {:induction false} DecimalIs(n: nat)
    ensures Digits(Decimal(n)) && DigitsValue(Decimal(n)) == n
    ensures (Decimal(n)[0] == 0x30 <==> n == 0) && (n < 10 <==> |Decimal(n)| == 1)
  {
    if n >= 10 {
      DecimalIs(n / 10);
      assert Decimal(n)[..|Decimal(n)| - 1] == Decimal(n / 10);
    }
  }

  function Stringify(v: Value): Text {
    match v
    case Null => [0x6e, 0x75, 0x6c, 0x6c]
    case Bool(b) => if b then [0x74, 0x72, 0x75, 0x65] else [0x66, 0x61, 0x6c, 0x73, 0x65]
    case Number(n) => if n < 0 then [0x2d] + Decimal(-n) else Decimal(n)
    case String(t) => [0x22] + Body(t) + [0x22]
    case Array(items) => [0x5b] + StringifyItems(items) + [0x5d]
    case Object(fields) => [0x7b] + StringifyFields(fields) + [0x7d]
  }

  function StringifyItems(items: seq<Value>): Text {
    if items == [] then []
    else if |items| == 1 then Stringify(items[0])
    else Stringify(items[0]) + [0x2c] + StringifyItems(items[1..])
  }

  function StringifyFields(fields: seq<Field>): Text {
    if fields == [] then []
    else
      var first := [0x22] + Body(fields[0].name) + [0x22, 0x3a] + Stringify(fields[0].value);
      if |fields| == 1 then first else first + [0x2c] + StringifyFields(fields[1..])
  }

  /** `jsonBytes` */
  function JsonBytes(v: Value): nat {
    Utf8Len(Stringify(v))
  }

  /** The bytes of a string's JSON form without its quotes. */
  function BodyBytes(t: Text): nat {
    Utf8Len(Body(t))
  }

  // ── Sizes ───────────────────────────────────────────────────────────────

  /** Escapes are well-formed whatever they stand for, and at most 6 bytes. */
  lemma EscapeBytes(t: Text)
    requires t != []
    ensures WellFormed(EscapeFirst(t)) && 1 <= Utf8Len(EscapeFirst(t)) <= 6
    ensures !High(t[0]) && !Low(t[0]) ==> Utf8Len(EscapeFirst(t)) <= 6 * StepBytes(t)
    ensures Paired(t) ==> Utf8Len(EscapeFirst(t)) == 4
  {
    var e := EscapeFirst(t);
    if |e| == 6 {
      AsciiUnits(e);
    } else if |e| == 2 && !Paired(t) {
      AsciiUnits(e);
    } else if |e| == 2 {
      assert e[2..] == [];
    } else {
      assert e[1..] == [];
    }
  }

  lemma {:induction false} AsciiUnits(t: Text)
    requires forall i | 0 <= i < |t| :: t[i] < 0x80
    ensures WellFormed(t) && Utf8Len(t) == |t|
  {
    if t != [] {
      AsciiUnits(t[1..]);
    }
  }

  lemma {:induction false} BodyWellFormed(t: Text)
    ensures WellFormed(Body(t))
    ensures t != [] ==> BodyBytes(t) == Utf8Len(EscapeFirst(t)) + BodyBytes(t[FirstUnits(t)..])
    decreases |t|
  {
    if t != [] {
      EscapeBytes(t);
      BodyWellFormed(t[FirstUnits(t)..]);
      Concatenation(EscapeFirst(t), Body(t[FirstUnits(t)..]));
    }
  }

  /** Joining at the end of a well-formed text joins the JSON forms. */
  lemma BodyFront(t: Text)
    ensures Body(t) == if t == [] then [] else EscapeFirst(t) + Body(t[FirstUnits(t)..])
  {}

  lemma {:induction false} BodyOfConcatenation(a: Text, b: Text)
    requires WellFormed(a)
    ensures Body(a + b) == Body(a) + Body(b)
    decreases |a|
  {
    hide EscapeFirst, Utf8, Body;
    BodyFront(a);
    if a == [] {
      assert a + b == b;
      assert [] + Body(b) == Body(b);
    } else {
      var rest := a[FirstUnits(a)..];
      FirstOfConcatenation(a, b);
      EscapeOfConcatenation(a, b);
      BodyOfConcatenation(rest, b);
      BodyFront(a + b);
      assert EscapeFirst(a) + Body(rest) + Body(b) == EscapeFirst(a) + (Body(rest) + Body(b));
    }
  }

  lemma BodyConcatenation(a: Text, b: Text)
    requires WellFormed(a)
    ensures Body(a + b) == Body(a) + Body(b)
    ensures BodyBytes(a + b) == BodyBytes(a) + BodyBytes(b)
  {
    hide Body, WellFormed, Utf8Len, Utf8;
    BodyOfConcatenation(a, b);
    BodyWellFormed(a);
    Concatenation(Body(a), Body(b));
  }

  lemma EscapeOfConcatenation(a: Text, b: Text)
    requires a != [] && WellFormed(a)
    ensures EscapeFirst(a + b) == EscapeFirst(a)
  {
    FirstOfConcatenation(a, b);
  }

  /** Escaping makes a text at most six times as long. */
  lemma {:induction false} BodyAtMostSixfold(t: Text)
    requires WellFormed(t)
    ensures |t| > 0 ==> BodyBytes(t) > 0
    ensures BodyBytes(t) <= 6 * Utf8Len(t)
    decreases |t|
  {
    hide EscapeFirst;
    if t != [] {
      EscapeBytes(t);
      StepIsFirst(t);
      BodyWellFormed(t);
      BodyAtMostSixfold(t[FirstUnits(t)..]);
    }
  }

  lemma {:induction false} DecimalBytes(n: nat, k: nat)
    requires k >= 1 && n < Pow10(k)
    ensures WellFormed(Decimal(n)) && 1 <= Utf8Len(Decimal(n)) <= k
    ensures forall i | 0 <= i < |Decimal(n)| :: 0x30 <= Decimal(n)[i] <= 0x39
  {
    if n >= 10 {
      DecimalBytes(n / 10, k - 1);
      Concatenation(Decimal(n / 10), [0x30 + n % 10]);
      AsciiUnits([0x30 + n % 10]);
    } else {
      AsciiUnits([0x30 + n]);
    }
  }

  function Pow10(k: nat): nat {
    if k == 0 then 1 else 10 * Pow10(k - 1)
  }
}
