/** What `JSON.stringify` writes is the value, read as RFC 8259 reads it. */
module JsonText {
  import opened Basics
  import opened Utf16
  import opened Json
  import opened JsonReader

  function Means(v: Value): Meaning {
    match v
    case Null => MNull
    case Bool(b) => MBool(b)
    case Number(n) => MInt(n)
    case String(t) => MString(t)
    case Array(items) => MList(MeansItems(items))
    case Object(fields) => MDict(MeansFields(fields))
  }

  function MeansItems(items: seq<Value>): seq<Meaning> {
    if items == [] then [] else [Means(items[0])] + MeansItems(items[1..])
  }

  function MeansFields(fields: seq<Field>): map<Chars, Meaning> {
    if fields == [] then map[]
    else
      var name: Chars := fields[0].name;
      map[name := Means(fields[0].value)] + MeansFields(fields[1..])
  }

  // ── Strings ─────────────────────────────────────────────────────────────

  lemma HexDigitReads(n: int)
    requires 0 <= n < 16
    ensures HexValue(HexUnit(n)) == Some(n)
  {}

  lemma FourDigits(c: int) returns (p: int, q: int, r: int, s: int)
    requires 0 <= c < 0x1_0000
    ensures p == c / 0x1000 && q == c / 0x100 % 16 && r == c / 16 % 16 && s == c % 16
    ensures p < 16 && c == p * 0x1000 + q * 0x100 + r * 0x10 + s
  {
    p, q, r, s := c / 0x1000, c / 0x100 % 16, c / 16 % 16, c % 16;
    var a, b := c / 16, c / 0x100;
    assert c == a * 16 + s;
    assert a / 16 == b && a == b * 16 + r;
    assert b / 16 == p && b == p * 16 + q;
  }

  lemma HexReads(c: Unit)
    ensures HexNumber([HexUnit(c / 0x1000), HexUnit(c / 0x100 % 16), HexUnit(c / 16 % 16), HexUnit(c % 16)])
         == Some(c as int)
  {
    var p, q, r, s := FourDigits(c);
    HexDigitReads(p);
    HexDigitReads(q);
    HexDigitReads(r);
    HexDigitReads(s);
    hide HexValue, HexUnit;
    assert HexNumber([HexUnit(p), HexUnit(q), HexUnit(r), HexUnit(s)]) == Some(p * 0x1000 + q * 0x100 + r * 0x10 + s);
  }

  predicate Unpaired(t: Text)
    requires t != []
  {
    (High(t[0]) || Low(t[0])) && !Paired(t)
  }

  /** An escape means its unit; the units of a pair are written as they are. */
  lemma EscapeReads(t: Text, x: Chars)
    requires t != []
    ensures !Paired(t) ==> (&& EscapeFirst(t) != [] && EscapeFirst(t)[0] != 0x22
                            && ReadChar(EscapeFirst(t) + x) == Read(t[0], x))
    ensures Paired(t) ==> EscapeFirst(t) == t[..2]
  {
    hide HexUnit, HexNumber, ShortEscape;
    var e := EscapeFirst(t);
    assert (e + x)[0] == e[0] && (e + x)[|e|..] == x;
    if Paired(t) {
    } else if |e| == 2 {
      assert (e + x)[1] == e[1];
      ShortReads(t[0]);
    } else if |e| == 6 {
      assert (e + x)[1] == e[1] && (e + x)[2..6] == e[2..6];
      HexReads(t[0]);
      HexReads(0);
      SmallHex(t[0]);
      ShortReads(t[0]);
    }
  }

  lemma ShortReads(c: Unit)
    ensures ShortEscape(0x75) == None && (c == 0x22 || c == 0x5c ==> ShortEscape(c) == Some(c as int))
    ensures ShortEscape(0x62) == Some(0x08) && ShortEscape(0x74) == Some(0x09) && ShortEscape(0x6e) == Some(0x0a)
    ensures ShortEscape(0x66) == Some(0x0c) && ShortEscape(0x72) == Some(0x0d)
  {}

  lemma SmallHex(c: Unit)
    ensures c < 0x20 ==> HexNumber([0x30, 0x30, HexUnit(c / 16), HexUnit(c % 16)]) == Some(c as int)
  {}

  /** A character is written as itself unless it is a quote, a backslash, a
      control character or an unpaired surrogate; the short escape is used where
      there is one, lower-case hex otherwise, and nothing below 0x20 is written. */
  lemma EscapeForm(t: Text)
    requires t != []
    ensures EscapeFirst(t) == t[..FirstUnits(t)] <==> t[0] >= 0x20 && t[0] != 0x22 && t[0] != 0x5c && !Unpaired(t)
    ensures !Paired(t) ==> (|EscapeFirst(t)| == 2 <==> t[0] in {0x08, 0x09, 0x0a, 0x0c, 0x0d, 0x22, 0x5c})
    ensures var e := EscapeFirst(t); e != t[..FirstUnits(t)] ==>
              forall i | 0 <= i < |e| :: e[i] == 0x22 || e[i] == 0x5c || 0x30 <= e[i] <= 0x39 || 0x61 <= e[i] <= 0x7a
    ensures forall i | 0 <= i < |EscapeFirst(t)| :: EscapeFirst(t)[i] >= 0x20
  {
    hide HexUnit;
  }

  lemma RawReads(c: Unit, x: Chars)
    requires c >= 0x20 && c != 0x22 && c != 0x5c
    ensures ReadChar([c] + x) == Read(c, x)
  {
    assert ([c] + x)[1..] == x;
  }

  /** The first character, pair or not, is put in front of what is read after it. */
  lemma FirstReads(t: Text, after: Chars)
    requires t != []
    ensures ReadString(EscapeFirst(t) + after)
         == match ReadString(after)
            case Failed => Failed
            case Read(s, end) => Read(t[..FirstUnits(t)] + s, end)
  {
    hide EscapeFirst, ReadChar, ReadString;
    EscapeReads(t, after);
    if Paired(t) {
      RawReads(t[1], after);
      CharRead([t[1]], t[1], after);
      RawReads(t[0], [t[1]] + after);
      CharRead([t[0]], t[0], [t[1]] + after);
      assert EscapeFirst(t) + after == [t[0]] + ([t[1]] + after);
      assert forall s: Chars :: [t[0]] + ([t[1]] + s) == t[..2] + s;
    } else {
      CharRead(EscapeFirst(t), t[0], after);
      assert t[..1] == [t[0]];
    }
  }

  lemma {:induction false} StringReads(t: Text, x: Chars)
    ensures ReadString(Body(t) + [0x22] + x) == Read(t, x)
    decreases |t|
  {
    hide EscapeFirst, FirstUnits, Paired, ReadString, ReadChar;
    if t == [] {
      QuoteRead(x);
      assert Body(t) + [0x22] + x == [0x22] + x;
    } else {
      var rest := t[FirstUnits(t)..];
      StringReads(rest, x);
      FirstReads(t, Body(rest) + [0x22] + x);
      assert Body(t) + [0x22] + x == EscapeFirst(t) + (Body(rest) + [0x22] + x);
      assert t[..FirstUnits(t)] + rest == t;
    }
  }

  /** Nothing below 0x20 stands in a quoted text. */
  lemma {:induction false} BodyHasNoControl(t: Text)
    ensures forall u | u in Body(t) :: u >= 0x20
    decreases |t|
  {
    hide EscapeFirst, ReadChar;
    if t != [] {
      EscapeForm(t);
      BodyHasNoControl(t[FirstUnits(t)..]);
    }
  }

  // ── Values ──────────────────────────────────────────────────────────────

  predicate Ends(x: Chars) {
    x == [] || x[0] == 0x2c || x[0] == 0x5d || x[0] == 0x7d
  }

  lemma NumberReads(n: int, x: Chars)
    requires Ends(x)
    ensures ReadValue(Stringify(Number(n)) + x) == Read(MInt(n), x)
  {
    hide Decimal, ReadInt, DigitsValue;
    var m := if n < 0 then -n else n;
    DecimalIs(m);
    DigitsRead(Decimal(m), x);
    var t := Stringify(Number(n)) + x;
    assert t == if n < 0 then [0x2d] + (Decimal(m) + x) else Decimal(m) + x;
    assert t[0] == Stringify(Number(n))[0];
  }

  lemma LiteralReads(v: Value, x: Chars)
    requires v.Null? || v.Bool?
    ensures ReadValue(Stringify(v) + x) == Read(Means(v), x)
  {
    var t := Stringify(v);
    assert t <= t + x && (t + x)[|t|..] == x;
    assert (t + x)[0] == t[0];
  }

  lemma QuotedReads(s: Text, x: Chars)
    ensures ReadValue(Stringify(String(s)) + x) == Read(MString(s), x)
  {
    hide Body, ReadString;
    StringReads(s, x);
    var t := Stringify(String(s)) + x;
    assert t[0] == 0x22 && t[1..] == Body(s) + [0x22] + x;
  }

  /** `JSON.stringify` writes the value: in front of anything that may follow a
      value its text is read as what the value means, and ends there. */
  lemma {:induction false} Reads(v: Value, x: Chars)
    requires Ends(x)
    ensures ReadValue(Stringify(v) + x) == Read(Means(v), x)
    decreases v, 0
  {
    match v
    case Number(n) => NumberReads(n, x);
    case String(t) => QuotedReads(t, x);
    case Array(items) => ArrayReads(items, x);
    case Object(fields) => ObjectReads(fields, x);
    case Null => LiteralReads(v, x);
    case Bool(_) => LiteralReads(v, x);
  }

  /** The first character tells an item from a closing bracket. */
  lemma Start(v: Value)
    ensures Stringify(v) != [] && Stringify(v)[0] != 0x5d
  {
    if v.Number? {
      DecimalIs(if v.n < 0 then -v.n else v.n);
    }
  }

  lemma ItemsSplit(a: seq<Value>)
    ensures a == [] ==> StringifyItems(a) == []
    ensures |a| == 1 ==> StringifyItems(a) == Stringify(a[0])
    ensures |a| > 1 ==> StringifyItems(a) == Stringify(a[0]) + [0x2c] + StringifyItems(a[1..])
  {
    hide Stringify;
  }

  lemma ArrayIs(items: seq<Value>, x: Chars)
    ensures var t := Stringify(Array(items)) + x;
            && |t| > 1 && t[0] == 0x5b && t[1..] == StringifyItems(items) + ([0x5d] + x)
            && (items == [] ==> t[1] == 0x5d && t[2..] == x)
            && (items != [] ==> t[1] != 0x5d)
  {
    hide StringifyItems;
    var t := Stringify(Array(items)) + x;
    assert t == [0x5b] + (StringifyItems(items) + ([0x5d] + x));
    hide Stringify;
    assert t[1..] == StringifyItems(items) + ([0x5d] + x);
    assert t[1] == t[1..][0];
    ItemsSplit(items);
    if items != [] {
      Start(items[0]);
    } else {
      assert t[2..] == t[1..][1..];
    }
  }

  lemma {:induction false} ArrayReads(items: seq<Value>, x: Chars)
    ensures ReadValue(Stringify(Array(items)) + x) == Read(MList(MeansItems(items)), x)
    decreases items, 2
  {
    hide Stringify, StringifyItems, ReadItems, ReadString, ReadInt;
    ArrayIs(items, x);
    if items != [] {
      ItemsRead(items, x);
    }
  }

  lemma {:induction false} ItemsRead(items: seq<Value>, x: Chars)
    requires items != []
    ensures ReadItems(StringifyItems(items) + ([0x5d] + x)) == Read(MeansItems(items), x)
    decreases items, 1
  {
    hide Stringify, StringifyItems, ReadItems, ReadValue, Means;
    var first, rest := Stringify(items[0]), items[1..];
    ItemsSplit(items);
    if rest == [] {
      Reads(items[0], [0x5d] + x);
      ItemRead(first, Means(items[0]), [0x5d] + x);
      assert ([0x5d] + x)[1..] == x;
      assert StringifyItems(items) == first;
      assert MeansItems(items) == [Means(items[0])] by { assert MeansItems(rest) == []; }
    } else {
      var after := [0x2c] + (StringifyItems(rest) + ([0x5d] + x));
      assert StringifyItems(items) + ([0x5d] + x) == first + after;
      Reads(items[0], after);
      ItemsRead(rest, x);
      assert after[1..] == StringifyItems(rest) + ([0x5d] + x);
      ItemRead(first, Means(items[0]), after);
    }
  }

  lemma FieldsSplit(a: seq<Field>)
    ensures a == [] ==> StringifyFields(a) == []
    ensures a != [] ==> StringifyFields(a) != [] && StringifyFields(a)[0] == 0x22
    ensures |a| == 1 ==> StringifyFields(a) == [0x22] + Body(a[0].name) + [0x22, 0x3a] + Stringify(a[0].value)
    ensures |a| > 1 ==> (StringifyFields(a) == [0x22] + Body(a[0].name) + [0x22, 0x3a] + Stringify(a[0].value)
                                             + [0x2c] + StringifyFields(a[1..]))
  {
    hide Stringify, Body;
  }

  lemma ObjectIs(fields: seq<Field>, x: Chars)
    ensures var t := Stringify(Object(fields)) + x;
            && |t| > 1 && t[0] == 0x7b && t[1..] == StringifyFields(fields) + ([0x7d] + x)
            && (fields == [] ==> t[1] == 0x7d && t[2..] == x)
            && (fields != [] ==> t[1] == 0x22)
  {
    hide StringifyFields;
    var t := Stringify(Object(fields)) + x;
    assert t == [0x7b] + (StringifyFields(fields) + ([0x7d] + x));
    assert t[1..] == StringifyFields(fields) + ([0x7d] + x);
    assert t[1] == t[1..][0];
    FieldsSplit(fields);
    if fields == [] {
      assert t[2..] == t[1..][1..];
    }
  }

  lemma {:induction false} ObjectReads(fields: seq<Field>, x: Chars)
    ensures ReadValue(Stringify(Object(fields)) + x) == Read(MDict(MeansFields(fields)), x)
    decreases fields, 2
  {
    hide Stringify, StringifyFields, ReadItems, ReadMembers, ReadString, ReadInt;
    ObjectIs(fields, x);
    if fields != [] {
      FieldsRead(fields, x);
    }
  }

  lemma {:induction false} FieldsRead(a: seq<Field>, x: Chars)
    requires a != []
    ensures ReadMembers(StringifyFields(a) + ([0x7d] + x)) == Read(MeansFields(a), x)
    decreases a, 1
  {
    hide Stringify, StringifyFields, ReadMembers, ReadValue, Means, Body;
    var name, value, rest := a[0].name, Stringify(a[0].value), a[1..];
    FieldsSplit(a);
    var after := if rest == [] then [0x7d] + x else [0x2c] + (StringifyFields(rest) + ([0x7d] + x));
    var q := Body(name) + [0x22];
    assert StringifyFields(a) + ([0x7d] + x) == [0x22] + q + [0x3a] + value + after;
    StringReads(name, [0x3a] + value + after);
    assert q + ([0x3a] + value + after) == Body(name) + [0x22] + ([0x3a] + value + after);
    Reads(a[0].value, after);
    MemberRead(q, name, value, Means(a[0].value), after);
    if rest == [] {
      assert after[1..] == x;
      assert MeansFields(rest) == map[];
      assert MeansFields(a) == map[a[0].name := Means(a[0].value)];
    } else {
      FieldsRead(rest, x);
      assert after[1..] == StringifyFields(rest) + ([0x7d] + x);
    }
  }
}
