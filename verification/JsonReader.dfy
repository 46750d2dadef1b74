/** A reader of JSON texts as RFC 8259 writes them, without white space and with
    integers for numbers: what the writers are measured by. An escape with four
    hex digits stands for that one unit. */
module JsonReader {
  import opened Basics

  /** Code points, or UTF-16 units. */
  type Chars = seq<int>

  /** What a text means: an object is a mapping. */
  datatype Meaning =
    | MNull
    | MBool(b: bool)
    | MInt(n: int)
    | MString(s: Chars)
    | MList(items: seq<Meaning>)
    | MDict(m: map<Chars, Meaning>)

  datatype Parsed<+T> = Failed | Read(value: T, rest: Chars)

  const NULL: Chars := [0x6e, 0x75, 0x6c, 0x6c]
  const TRUE: Chars := [0x74, 0x72, 0x75, 0x65]
  const FALSE: Chars := [0x66, 0x61, 0x6c, 0x73, 0x65]

  // ── Numbers (section 6) ─────────────────────────────────────────────────

  function LeadingDigits(t: Chars): (n: nat)
    ensures n <= |t|
    ensures forall i | 0 <= i < n :: 0x30 <= t[i] <= 0x39
  {
    if t == [] || !(0x30 <= t[0] <= 0x39) then 0 else 1 + LeadingDigits(t[1..])
  }

  /** Digits without a leading zero. */
  function ReadDigits(t: Chars): (r: Parsed<int>)
    ensures r.Read? ==> |r.rest| < |t|
  {
    var n := LeadingDigits(t);
    if n == 0 || (n > 1 && t[0] == 0x30) then Failed else Read(DigitsValue(t[..n]), t[n..])
  }

  function ReadInt(t: Chars): (r: Parsed<int>)
    ensures r.Read? ==> |r.rest| < |t|
  {
    if t != [] && t[0] == 0x2d then
      match ReadDigits(t[1..])
      case Failed => Failed
      case Read(n, rest) => Read(-n, rest)
    else
      match ReadDigits(t)
      case Failed => Failed
      case Read(n, rest) => Read(n, rest)
  }

  // ── Strings (section 7) ─────────────────────────────────────────────────

  /** A hex digit's value, or nothing. */
  function HexValue(c: int): Option<nat> {
    if 0x30 <= c <= 0x39 then Some(c - 0x30)
    else if 0x41 <= c <= 0x46 then Some(c - 0x41 + 10)
    else if 0x61 <= c <= 0x66 then Some(c - 0x61 + 10)
    else None
  }

  function HexNumber(h: Chars): Option<nat>
    requires |h| == 4
  {
    match (HexValue(h[0]), HexValue(h[1]), HexValue(h[2]), HexValue(h[3]))
    case (Some(a), Some(b), Some(c), Some(d)) => Some(a * 0x1000 + b * 0x100 + c * 0x10 + d)
    case _ => None
  }

  /** What the character after a backslash stands for, when it stands alone. */
  function ShortEscape(c: int): Option<int> {
    if c == 0x22 || c == 0x5c || c == 0x2f then Some(c)
    else if c == 0x62 then Some(0x08)
    else if c == 0x66 then Some(0x0c)
    else if c == 0x6e then Some(0x0a)
    else if c == 0x72 then Some(0x0d)
    else if c == 0x74 then Some(0x09)
    else None
  }

  /** One character inside a string. */
  function ReadChar(t: Chars): (r: Parsed<int>)
    ensures r.Read? ==> |r.rest| < |t|
  {
    if t == [] || t[0] < 0x20 || t[0] == 0x22 then Failed
    else if t[0] != 0x5c then Read(t[0], t[1..])
    else if |t| > 1 && ShortEscape(t[1]).Some? then Read(ShortEscape(t[1]).value, t[2..])
    else if |t| > 5 && t[1] == 0x75 && HexNumber(t[2..6]).Some? then Read(HexNumber(t[2..6]).value, t[6..])
    else Failed
  }

  /** The rest of a string, up to and with its closing quote. */
  function ReadString(t: Chars): (r: Parsed<Chars>)
    ensures r.Read? ==> |r.rest| < |t|
    decreases |t|
  {
    if t != [] && t[0] == 0x22 then Read([], t[1..])
    else
      match ReadChar(t)
      case Failed => Failed
      case Read(c, rest) =>
        match ReadString(rest)
        case Failed => Failed
        case Read(s, end) => Read([c] + s, end)
  }

  // ── Values (sections 3 to 5) ────────────────────────────────────────────

  function ReadValue(t: Chars): (r: Parsed<Meaning>)
    ensures r.Read? ==> |r.rest| < |t|
    decreases |t|, 0
  {
    if t == [] then Failed
    else if NULL <= t then Read(MNull, t[4..])
    else if TRUE <= t then Read(MBool(true), t[4..])
    else if FALSE <= t then Read(MBool(false), t[5..])
    else if t[0] == 0x22 then
      match ReadString(t[1..])
      case Failed => Failed
      case Read(s, rest) => Read(MString(s), rest)
    else if t[0] == 0x5b then
      if |t| > 1 && t[1] == 0x5d then Read(MList([]), t[2..])
      else
        match ReadItems(t[1..])
        case Failed => Failed
        case Read(items, rest) => Read(MList(items), rest)
    else if t[0] == 0x7b then
      if |t| > 1 && t[1] == 0x7d then Read(MDict(map[]), t[2..])
      else
        match ReadMembers(t[1..])
        case Failed => Failed
        case Read(m, rest) => Read(MDict(m), rest)
    else
      match ReadInt(t)
      case Failed => Failed
      case Read(n, rest) => Read(MInt(n), rest)
  }

  /** One or more items, up to and with the closing bracket. */
  function ReadItems(t: Chars): (r: Parsed<seq<Meaning>>)
    ensures r.Read? ==> |r.rest| < |t|
    decreases |t|, 1
  {
    match ReadValue(t)
    case Failed => Failed
    case Read(v, rest) =>
      if rest == [] then Failed
      else if rest[0] == 0x5d then Read([v], rest[1..])
      else if rest[0] != 0x2c then Failed
      else
        match ReadItems(rest[1..])
        case Failed => Failed
        case Read(items, end) => Read([v] + items, end)
  }

  /** One or more members, up to and with the closing brace; of two with one
      name the later stands. */
  function ReadMembers(t: Chars): (r: Parsed<map<Chars, Meaning>>)
    ensures r.Read? ==> |r.rest| < |t|
    decreases |t|, 1
  {
    if t == [] || t[0] != 0x22 then Failed
    else
      match ReadString(t[1..])
      case Failed => Failed
      case Read(name, after) =>
        if after == [] || after[0] != 0x3a then Failed
        else
          match ReadValue(after[1..])
          case Failed => Failed
          case Read(v, rest) =>
            if rest == [] then Failed
            else if rest[0] == 0x7d then Read(map[name := v], rest[1..])
            else if rest[0] != 0x2c then Failed
            else
              match ReadMembers(rest[1..])
              case Failed => Failed
              case Read(m, end) => Read(map[name := v] + m, end)
  }

  // ── What a writer needs of it ───────────────────────────────────────────

  lemma {:induction false} DigitsLead(d: Chars, x: Chars)
    requires forall i | 0 <= i < |d| :: 0x30 <= d[i] <= 0x39
    requires x == [] || !(0x30 <= x[0] <= 0x39)
    ensures LeadingDigits(d + x) == |d|
  {
    if d == [] {
      assert d + x == x;
    } else {
      assert (d + x)[1..] == d[1..] + x;
      DigitsLead(d[1..], x);
    }
  }

  lemma IntRead(t: Chars, n: nat, rest: Chars)
    requires t != [] && t[0] != 0x2d && ReadDigits(t) == Read(n, rest)
    ensures ReadInt(t) == Read(n, rest)
    ensures ReadInt([0x2d] + t) == Read(-(n as int), rest)
  {
    hide ReadDigits;
    assert ([0x2d] + t)[1..] == t;
  }

  /** Digits without a leading zero, and no digit after them. */
  lemma DigitsRead(d: Chars, x: Chars)
    requires Digits(d) && (|d| == 1 || d[0] != 0x30)
    requires x == [] || !(0x30 <= x[0] <= 0x39)
    ensures ReadInt(d + x) == Read(DigitsValue(d), x)
    ensures ReadInt([0x2d] + (d + x)) == Read(0 - DigitsValue(d), x)
  {
    hide *;
    DigitsAlone(d, x);
    NoSign(d, x);
    IntRead(d + x, DigitsValue(d), x);
  }

  lemma NoSign(d: Chars, x: Chars)
    requires Digits(d)
    ensures d + x != [] && (d + x)[0] != 0x2d
  {
    assert (d + x)[0] == d[0];
  }

  lemma DigitsAlone(d: Chars, x: Chars)
    requires Digits(d) && (|d| == 1 || d[0] != 0x30)
    requires x == [] || !(0x30 <= x[0] <= 0x39)
    ensures ReadDigits(d + x) == Read(DigitsValue(d), x)
  {
    hide DigitsValue, LeadingDigits;
    DigitsLead(d, x);
    assert (d + x)[..|d|] == d && (d + x)[|d|..] == x;
  }

  lemma QuoteRead(x: Chars)
    ensures ReadString([0x22] + x) == Read([], x)
  {
    assert ([0x22] + x)[1..] == x;
  }

  /** Prepending one character to what is read. */
  lemma CharRead(e: Chars, c: int, t: Chars)
    requires e != [] && e[0] != 0x22 && ReadChar(e + t) == Read(c, t)
    ensures ReadString(e + t) == match ReadString(t)
                                 case Failed => Failed
                                 case Read(s, end) => Read([c] + s, end)
  {
    hide ReadChar;
    assert (e + t)[0] == e[0];
  }

  lemma ItemRead(a: Chars, v: Meaning, rest: Chars)
    requires ReadValue(a + rest) == Read(v, rest) && rest != []
    ensures rest[0] == 0x5d ==> ReadItems(a + rest) == Read([v], rest[1..])
    ensures rest[0] == 0x2c ==>
              ReadItems(a + rest) == match ReadItems(rest[1..])
                                     case Failed => Failed
                                     case Read(items, end) => Read([v] + items, end)
  {
    hide ReadValue;
  }

  lemma MemberRead(q: Chars, name: Chars, a: Chars, v: Meaning, rest: Chars)
    requires ReadString(q + ([0x3a] + a + rest)) == Read(name, [0x3a] + a + rest)
    requires ReadValue(a + rest) == Read(v, rest) && rest != []
    ensures var t := [0x22] + q + [0x3a] + a + rest;
            && (rest[0] == 0x7d ==> ReadMembers(t) == Read(map[name := v], rest[1..]))
            && (rest[0] == 0x2c ==>
                  ReadMembers(t) == match ReadMembers(rest[1..])
                                    case Failed => Failed
                                    case Read(m, end) => Read(map[name := v] + m, end))
  {
    hide ReadValue, ReadString;
    var t := [0x22] + q + [0x3a] + a + rest;
    assert t[1..] == q + ([0x3a] + a + rest);
    assert ([0x3a] + a + rest)[1..] == a + rest;
  }
}
