/** Canonical JSON: one text for each value. */
module Canonical {
  import opened Basics
  import opened JsonReader

  type CodePoint = c: int | 0 <= c < 0x11_0000
  type Str = seq<CodePoint>

  /** A value as Python holds it: a dict's entries in insertion order. */
  datatype Json =
    | Null
    | Bool(b: bool)
    | Int(n: int)
    | String(s: Str)
    | List(items: seq<Json>)
    | Dict(entries: seq<Entry>)

  datatype Entry = Entry(key: Str, value: Json)

  /** What the value means: a dict is a mapping. */
  function Means(v: Json): Meaning {
    match v
    case Null => MNull
    case Bool(b) => MBool(b)
    case Int(n) => MInt(n)
    case String(s) => MString(s)
    case List(items) => MList(MeansAll(items))
    case Dict(entries) => MDict(MapOf(entries))
  }

  function MeansAll(items: seq<Json>): seq<Meaning> {
    if items == [] then [] else [Means(items[0])] + MeansAll(items[1..])
  }

  function MapOf(entries: seq<Entry>): map<Chars, Meaning> {
    if entries == [] then map[] else MapOf(entries[1..])[entries[0].key := Means(entries[0].value)]
  }

  /** A dict has each key once, at every depth. */
  predicate KeysOnce(v: Json) {
    match v
    case List(items) => KeysOnceAll(items)
    case Dict(entries) => KeysOnceIn(entries)
    case _ => true
  }

  predicate KeysOnceAll(items: seq<Json>) {
    items == [] || (KeysOnce(items[0]) && KeysOnceAll(items[1..]))
  }

  predicate KeysOnceIn(entries: seq<Entry>) {
    entries == [] ||
    (KeysOnce(entries[0].value) && entries[0].key !in MapOf(entries[1..]) && KeysOnceIn(entries[1..]))
  }

  // ── The text ────────────────────────────────────────────────────────────

  function HexDigit(n: int): (c: CodePoint)
    requires 0 <= n < 16
  {
    if n < 10 then 0x30 + n else 0x57 + n
  }

  /** `json.dumps(s, ensure_ascii=False)`, one character. */
  function Escape(c: CodePoint): Str {
    if c == 0x22 || c == 0x5c then [0x5c, c]
    else if c == 0x08 then [0x5c, 0x62]
    else if c == 0x09 then [0x5c, 0x74]
    else if c == 0x0a then [0x5c, 0x6e]
    else if c == 0x0c then [0x5c, 0x66]
    else if c == 0x0d then [0x5c, 0x72]
    else if c < 0x20 then [0x5c, 0x75, 0x30, 0x30, HexDigit(c / 16), HexDigit(c % 16)]
    else [c]
  }

  function Body(s: Str): Str {
    if s == [] then [] else Escape(s[0]) + Body(s[1..])
  }

  function Quote(s: Str): Str {
    [0x22] + Body(s) + [0x22]
  }

  function Decimal(n: nat): (t: Str)
    ensures t != [] && forall i | 0 <= i < |t| :: 0x30 <= t[i] <= 0x39
  {
    if n < 10 then [0x30 + n] else Decimal(n / 10) + [0x30 + n % 10]
  }

  /** Lexicographic order by code point. */
  predicate Less(a: Str, b: Str) {
    b != [] && (a == [] || a[0] < b[0] || (a[0] == b[0] && Less(a[1..], b[1..])))
  }

  datatype Line = Line(key: Str, text: Str)

  function Insert(l: Line, sorted: seq<Line>): seq<Line> {
    if sorted == [] || Less(l.key, sorted[0].key) then [l] + sorted else [sorted[0]] + Insert(l, sorted[1..])
  }

  function Sort(lines: seq<Line>): seq<Line> {
    if lines == [] then [] else Insert(lines[0], Sort(lines[1..]))
  }

  function JoinLines(lines: seq<Line>): Str {
    if lines == [] then []
    else
      var first := Quote(lines[0].key) + [0x3a] + lines[0].text;
      if |lines| == 1 then first else first + [0x2c] + JoinLines(lines[1..])
  }

  function Canonical(v: Json): Str {
    match v
    case Null => [0x6e, 0x75, 0x6c, 0x6c]
    case Bool(b) => if b then [0x74, 0x72, 0x75, 0x65] else [0x66, 0x61, 0x6c, 0x73, 0x65]
    case Int(n) => if n < 0 then [0x2d] + Decimal(-n) else Decimal(n)
    case String(s) => Quote(s)
    case List(items) => [0x5b] + CanonicalItems(items) + [0x5d]
    case Dict(entries) => [0x7b] + JoinLines(Sort(Lines(entries))) + [0x7d]
  }

  function CanonicalItems(items: seq<Json>): Str {
    if items == [] then []
    else if |items| == 1 then Canonical(items[0])
    else Canonical(items[0]) + [0x2c] + CanonicalItems(items[1..])
  }

  function Lines(entries: seq<Entry>): (lines: seq<Line>)
    ensures |lines| == |entries|
  {
    if entries == [] then [] else [Line(entries[0].key, Canonical(entries[0].value))] + Lines(entries[1..])
  }

  // ── The text is read as JSON ────────────────────────────────────────────

  /** Escapes mean their character and are used where they must be: in the short
      form where there is one, otherwise with lower-case hex. */
  lemma EscapeIs(c: CodePoint, t: Chars)
    ensures Escape(c) != [] && Escape(c)[0] != 0x22 && ReadChar(Escape(c) + t) == Read(c, t)
    ensures Escape(c) == [c] <==> c >= 0x20 && c != 0x22 && c != 0x5c
    ensures |Escape(c)| == 2 <==> c in {0x08, 0x09, 0x0a, 0x0c, 0x0d, 0x22, 0x5c}
    ensures forall x | x in Escape(c) && x != c :: x == 0x5c || 0x30 <= x <= 0x39 || 0x61 <= x <= 0x7a
  {
    var e := Escape(c);
    assert (e + t)[0] == e[0] && (e + t)[|e|..] == t;
    if |e| == 2 {
      assert (e + t)[1] == e[1];
    } else if |e| == 6 {
      assert (e + t)[1] == e[1] && (e + t)[2..6] == e[2..6];
    }
  }

  lemma {:induction false} StringReads(s: Str, x: Chars)
    ensures ReadString(Body(s) + [0x22] + x) == Read(s, x)
  {
    hide Escape, ReadChar, ReadString;
    if s == [] {
      QuoteRead(x);
      assert Body(s) + [0x22] + x == [0x22] + x;
    } else {
      var t := Body(s[1..]) + [0x22] + x;
      StringReads(s[1..], x);
      EscapeIs(s[0], t);
      CharRead(Escape(s[0]), s[0], t);
      assert Body(s) + [0x22] + x == Escape(s[0]) + t;
      assert [s[0]] + s[1..] == s;
    }
  }

  lemma QuoteReadsBack(s: Str, t: Str, x: Str, y: Str)
    requires Quote(s) + x == Quote(t) + y
    ensures s == t && x == y
  {
    hide Body, ReadString;
    assert (Quote(s) + x)[1..] == Body(s) + [0x22] + x;
    assert (Quote(t) + y)[1..] == Body(t) + [0x22] + y;
    StringReads(s, x);
    StringReads(t, y);
  }

  lemma {:induction false} DecimalIs(n: nat)
    ensures DigitsValue(Decimal(n)) == n && (Decimal(n)[0] == 0x30 <==> n == 0) && (n < 10 <==> |Decimal(n)| == 1)
  {
    if n >= 10 {
      DecimalIs(n / 10);
      assert Decimal(n)[..|Decimal(n)| - 1] == Decimal(n / 10);
    }
  }

  lemma DecimalReadsBack(m: nat, n: nat)
    requires Decimal(m) == Decimal(n)
    ensures m == n
  {
    DecimalIs(m);
    DecimalIs(n);
  }

  /** What may follow a value: nothing, a comma or a closing bracket. */
  predicate Ends(x: Chars) {
    x == [] || x[0] == 0x2c || x[0] == 0x5d || x[0] == 0x7d
  }

  // ── Sorting ─────────────────────────────────────────────────────────────

  lemma {:induction false} LessOrder(a: Str, b: Str, c: Str)
    ensures !Less(a, a)
    ensures a != b ==> Less(a, b) || Less(b, a)
    ensures Less(a, b) ==> !Less(b, a)
    ensures Less(a, b) && Less(b, c) ==> Less(a, c)
    decreases |a|
  {
    if a != [] {
      LessOrder(a[1..], if b == [] then [] else b[1..], if c == [] then [] else c[1..]);
      assert b != [] && a[0] == b[0] && a[1..] == b[1..] ==> a == b;
    }
  }

  /** The entries in key order: `Sort` seen on the values. */
  function InsertEntry(e: Entry, sorted: seq<Entry>): seq<Entry> {
    if sorted == [] || Less(e.key, sorted[0].key) then [e] + sorted else [sorted[0]] + InsertEntry(e, sorted[1..])
  }

  function SortEntries(entries: seq<Entry>): seq<Entry> {
    if entries == [] then [] else InsertEntry(entries[0], SortEntries(entries[1..]))
  }

  lemma {:induction false} InsertLines(e: Entry, sorted: seq<Entry>)
    ensures Insert(Line(e.key, Canonical(e.value)), Lines(sorted)) == Lines(InsertEntry(e, sorted))
  {
    hide Canonical, Less;
    if sorted == [] || Less(e.key, sorted[0].key) {
      assert ([e] + sorted)[1..] == sorted;
    } else {
      InsertLines(e, sorted[1..]);
      assert ([sorted[0]] + InsertEntry(e, sorted[1..]))[1..] == InsertEntry(e, sorted[1..]);
      assert Lines(sorted)[1..] == Lines(sorted[1..]);
    }
  }

  lemma {:induction false} SortLines(entries: seq<Entry>)
    ensures Sort(Lines(entries)) == Lines(SortEntries(entries))
  {
    hide Canonical, Insert;
    if entries != [] {
      SortLines(entries[1..]);
      InsertLines(entries[0], SortEntries(entries[1..]));
      assert Lines(entries)[1..] == Lines(entries[1..]);
    }
  }

  predicate Increasing(entries: seq<Entry>) {
    |entries| <= 1 || (Less(entries[0].key, entries[1].key) && Increasing(entries[1..]))
  }

  /** One entry put in its place keeps the mapping, the order and the sizes. */
  lemma {:induction false} InsertKeeps(e: Entry, sorted: seq<Entry>)
    requires Increasing(sorted) && e.key !in MapOf(sorted)
    ensures var r := InsertEntry(e, sorted);
            && Increasing(r) && MapOf(r) == MapOf(sorted)[e.key := Means(e.value)]
            && SizeEntries(r) == SizeEntries(sorted) + 1 + Size(e.value)
            && (sorted != [] && Less(sorted[0].key, e.key) ==> r[0] == sorted[0])
            && (r[0] == e || (sorted != [] && r[0] == sorted[0]))
            && (KeysOnceIn(sorted) && KeysOnce(e.value) ==> KeysOnceIn(r))
  {
    hide Less, Means, Size, KeysOnce;
    var r := InsertEntry(e, sorted);
    if sorted == [] || Less(e.key, sorted[0].key) {
      assert r[1..] == sorted;
      if sorted != [] {
        LessOrder(sorted[0].key, e.key, e.key);
      }
    } else {
      InsertKeeps(e, sorted[1..]);
      LessOrder(e.key, sorted[0].key, sorted[0].key);
      assert r[1..] == InsertEntry(e, sorted[1..]);
      assert sorted[0].key != e.key;
    }
  }

  // ── The order of a dict's keys ──────────────────────────────────────────

  /** `a` comes before `b` in the order of Python's strings: equal up to some
      place, where `a` ends or has the smaller code point. */
  predicate Precedes(a: Str, b: Str) {
    exists i | 0 <= i <= |a| && i < |b| :: a[..i] == b[..i] && (i == |a| || a[i] < b[i])
  }

  lemma {:induction false} LessIsPrecedes(a: Str, b: Str)
    ensures Less(a, b) <==> Precedes(a, b)
    decreases |a|
  {
    if b != [] && a == [] {
      assert a[..0] == b[..0];
    } else if b != [] && a[0] == b[0] {
      LessIsPrecedes(a[1..], b[1..]);
      if Precedes(a[1..], b[1..]) {
        var x, y := a[1..], b[1..];
        var i: nat :| i <= |x| && i < |y| && x[..i] == y[..i] && (i == |x| || x[i] < y[i]);
        assert a[..i + 1] == [a[0]] + a[1..][..i] && b[..i + 1] == [b[0]] + b[1..][..i];
      }
      if Precedes(a, b) {
        var i: nat :| i <= |a| && i < |b| && a[..i] == b[..i] && (i == |a| || a[i] < b[i]);
        assert a[1..][..i - 1] == a[..i][1..] && b[1..][..i - 1] == b[..i][1..];
      }
    } else if b != [] {
      assert a[..0] == b[..0];
      assert forall i | 0 < i <= |a| && i < |b| :: a[..i][0] != b[..i][0];
    }
  }

  predicate InOrder(entries: seq<Entry>) {
    forall i | 0 <= i < |entries| - 1 :: Precedes(entries[i].key, entries[i + 1].key)
  }

  lemma {:induction false} IncreasingIsInOrder(entries: seq<Entry>)
    ensures Increasing(entries) <==> InOrder(entries)
  {
    hide Less, Precedes;
    if |entries| > 1 {
      var rest := entries[1..];
      IncreasingIsInOrder(rest);
      LessIsPrecedes(entries[0].key, entries[1].key);
      assert forall i | 0 <= i < |rest| :: rest[i] == entries[i + 1];
      assert forall i | 0 < i < |entries| :: entries[i] == rest[i - 1];
    }
  }

  /** Sorting keeps the mapping and the sizes, and puts distinct keys in increasing order. */
  lemma {:induction false} SortKeeps(entries: seq<Entry>)
    requires KeysOnceIn(entries)
    ensures var r := SortEntries(entries);
            && Increasing(r) && InOrder(r)
            && MapOf(r) == MapOf(entries) && SizeEntries(r) == SizeEntries(entries) && KeysOnceIn(r)
  {
    hide KeysOnce, InOrder;
    IncreasingIsInOrder(SortEntries(entries));
    if entries != [] {
      SortKeeps(entries[1..]);
      InsertKeeps(entries[0], SortEntries(entries[1..]));
    }
  }

  lemma {:induction false} InsertPermutes(e: Entry, sorted: seq<Entry>)
    ensures multiset(InsertEntry(e, sorted)) == multiset(sorted) + multiset{e}
  {
    hide Less;
    if sorted != [] {
      assert sorted == [sorted[0]] + sorted[1..];
      InsertPermutes(e, sorted[1..]);
    }
  }

  lemma {:induction false} SortPermutes(entries: seq<Entry>)
    ensures multiset(SortEntries(entries)) == multiset(entries)
  {
    if entries != [] {
      assert entries == [entries[0]] + entries[1..];
      SortPermutes(entries[1..]);
      InsertPermutes(entries[0], SortEntries(entries[1..]));
    }
  }

  /** A dict's text lists exactly its entries, each key before the next. */
  lemma DictText(entries: seq<Entry>)
    requires KeysOnceIn(entries)
    ensures exists p: seq<Entry> ::
              && multiset(p) == multiset(entries) && InOrder(p)
              && Canonical(Dict(entries)) == [0x7b] + JoinLines(Lines(p)) + [0x7d]
  {
    hide Increasing, InOrder, SortEntries, KeysOnceIn, Sort, Lines, JoinLines;
    var p := SortEntries(entries);
    SortKeeps(entries);
    SortPermutes(entries);
    SortLines(entries);
  }

  function Size(v: Json): nat {
    match v
    case List(items) => 1 + SizeItems(items)
    case Dict(entries) => 1 + SizeEntries(entries)
    case _ => 0
  }

  function SizeItems(items: seq<Json>): nat {
    if items == [] then 0 else 1 + Size(items[0]) + SizeItems(items[1..])
  }

  function SizeEntries(entries: seq<Entry>): nat {
    if entries == [] then 0 else 1 + Size(entries[0].value) + SizeEntries(entries[1..])
  }

  // ── Equal text, equal value ─────────────────────────────────────────────

  /** The first character tells the kind of value. */
  lemma Start(v: Json)
    ensures Canonical(v) != []
    ensures match v
            case Null => Canonical(v)[0] == 0x6e
            case Bool(b) => Canonical(v)[0] == if b then 0x74 else 0x66
            case Int(n) => Canonical(v)[0] == 0x2d || 0x30 <= Canonical(v)[0] <= 0x39
            case String(_) => Canonical(v)[0] == 0x22
            case List(_) => Canonical(v)[0] == 0x5b
            case Dict(_) => Canonical(v)[0] == 0x7b
  {}

  lemma IntReads(n: int, x: Chars)
    requires Ends(x)
    ensures ReadValue(Canonical(Int(n)) + x) == Read(MInt(n), x)
  {
    hide Decimal, ReadInt, DigitsValue;
    var m := if n < 0 then -n else n;
    DecimalIs(m);
    DigitsRead(Decimal(m), x);
    var t := Canonical(Int(n)) + x;
    assert t == if n < 0 then [0x2d] + (Decimal(m) + x) else Decimal(m) + x;
    assert t[0] == Canonical(Int(n))[0];
  }

  lemma LiteralReads(v: Json, x: Chars)
    requires v.Null? || v.Bool?
    ensures ReadValue(Canonical(v) + x) == Read(Means(v), x)
  {
    var t := Canonical(v);
    assert t <= t + x && (t + x)[|t|..] == x;
    assert (t + x)[0] == t[0];
  }

  lemma QuotedReads(s: Str, x: Chars)
    ensures ReadValue(Canonical(String(s)) + x) == Read(MString(s), x)
  {
    hide Body, ReadString;
    StringReads(s, x);
    var t := Canonical(String(s)) + x;
    assert t[0] == 0x22 && t[1..] == Body(s) + [0x22] + x;
  }

  /** A value's text, in front of anything that may follow a value, is read as
      what the value means, and the reader stops where the text ends. */
  lemma {:induction false} Reads(v: Json, x: Chars)
    requires KeysOnce(v) && Ends(x)
    ensures ReadValue(Canonical(v) + x) == Read(Means(v), x)
    decreases Size(v), 0
  {
    match v
    case Int(n) => IntReads(n, x);
    case String(s) => QuotedReads(s, x);
    case List(items) => ListReads(items, x);
    case Dict(entries) => DictReads(entries, x);
    case Null => LiteralReads(v, x);
    case Bool(_) => LiteralReads(v, x);
  }

  lemma ListIs(items: seq<Json>, x: Chars)
    ensures var t := Canonical(List(items)) + x;
            && |t| > 1 && t[0] == 0x5b && t[1..] == CanonicalItems(items) + ([0x5d] + x)
            && (items == [] ==> t[1] == 0x5d && t[2..] == x)
            && (items != [] ==> t[1] != 0x5d)
  {
    hide CanonicalItems;
    var t := Canonical(List(items)) + x;
    assert t == [0x5b] + (CanonicalItems(items) + ([0x5d] + x));
    hide Canonical;
    assert t[1..] == CanonicalItems(items) + ([0x5d] + x);
    assert t[1] == t[1..][0];
    ItemsSplit(items);
    if items != [] {
      Start(items[0]);
    } else {
      assert t[2..] == t[1..][1..];
    }
  }

  lemma {:induction false} ListReads(items: seq<Json>, x: Chars)
    requires KeysOnceAll(items)
    ensures ReadValue(Canonical(List(items)) + x) == Read(MList(MeansAll(items)), x)
    decreases SizeItems(items), 2
  {
    hide Canonical, CanonicalItems, ReadItems, ReadString, ReadInt;
    ListIs(items, x);
    if items != [] {
      ItemsRead(items, x);
    }
  }

  lemma ItemsSplit(a: seq<Json>)
    ensures a == [] ==> CanonicalItems(a) == []
    ensures |a| == 1 ==> CanonicalItems(a) == Canonical(a[0])
    ensures |a| > 1 ==> CanonicalItems(a) == Canonical(a[0]) + [0x2c] + CanonicalItems(a[1..])
  {
    hide Canonical;
  }

  lemma {:induction false} ItemsRead(items: seq<Json>, x: Chars)
    requires items != [] && KeysOnceAll(items)
    ensures ReadItems(CanonicalItems(items) + ([0x5d] + x)) == Read(MeansAll(items), x)
    decreases SizeItems(items), 1
  {
    hide Canonical, CanonicalItems, ReadItems, ReadValue, Means, KeysOnce;
    var first, rest := Canonical(items[0]), items[1..];
    ItemsSplit(items);
    if rest == [] {
      Reads(items[0], [0x5d] + x);
      ItemRead(first, Means(items[0]), [0x5d] + x);
      assert ([0x5d] + x)[1..] == x;
      assert CanonicalItems(items) == first;
      assert MeansAll(items) == [Means(items[0])] by { assert MeansAll(rest) == []; }
    } else {
      var after := [0x2c] + (CanonicalItems(rest) + ([0x5d] + x));
      assert CanonicalItems(items) + ([0x5d] + x) == first + after;
      Reads(items[0], after);
      ItemsRead(rest, x);
      assert after[1..] == CanonicalItems(rest) + ([0x5d] + x);
      ItemRead(first, Means(items[0]), after);
    }
  }

  lemma DictIs(entries: seq<Entry>, x: Chars)
    ensures var p := SortEntries(entries);
            var t := Canonical(Dict(entries)) + x;
            && |t| > 1 && t[0] == 0x7b && t[1..] == JoinLines(Lines(p)) + ([0x7d] + x)
            && (p == [] ==> t[1] == 0x7d && t[2..] == x)
            && (p != [] ==> t[1] == 0x22)
  {
    hide Sort, Lines, JoinLines, SortEntries;
    SortLines(entries);
    var p, t := SortEntries(entries), Canonical(Dict(entries)) + x;
    assert t == [0x7b] + (JoinLines(Lines(p)) + ([0x7d] + x));
    assert t[1..] == JoinLines(Lines(p)) + ([0x7d] + x);
    assert t[1] == t[1..][0];
    LinesSplit(p);
    JoinSplit(Lines(p));
    if p == [] {
      assert t[2..] == t[1..][1..];
    }
  }

  lemma {:induction false} DictReads(entries: seq<Entry>, x: Chars)
    requires KeysOnceIn(entries)
    ensures ReadValue(Canonical(Dict(entries)) + x) == Read(MDict(MapOf(entries)), x)
    decreases SizeEntries(entries), 2
  {
    hide Canonical, SortEntries, ReadItems, ReadMembers, ReadString, ReadInt, JoinLines, Lines;
    DictIs(entries, x);
    SortKeeps(entries);
    var p := SortEntries(entries);
    if p != [] {
      MembersRead(p, x);
    }
  }

  lemma LinesSplit(a: seq<Entry>)
    ensures a == [] ==> Lines(a) == []
    ensures a != [] ==> Lines(a)[0] == Line(a[0].key, Canonical(a[0].value)) && Lines(a)[1..] == Lines(a[1..])
  {
    hide Canonical;
  }

  lemma JoinSplit(lines: seq<Line>)
    ensures lines == [] ==> JoinLines(lines) == []
    ensures lines != [] ==> JoinLines(lines) != [] && JoinLines(lines)[0] == 0x22
    ensures |lines| == 1 ==> JoinLines(lines) == Quote(lines[0].key) + [0x3a] + lines[0].text
    ensures |lines| > 1 ==> (JoinLines(lines)
                         == Quote(lines[0].key) + [0x3a] + lines[0].text + [0x2c] + JoinLines(lines[1..]))
  {
    hide Body;
  }

  lemma {:induction false} MembersRead(a: seq<Entry>, x: Chars)
    requires a != [] && KeysOnceIn(a)
    ensures ReadMembers(JoinLines(Lines(a)) + ([0x7d] + x)) == Read(MapOf(a), x)
    decreases SizeEntries(a), 1
  {
    hide Canonical, JoinLines, Lines, ReadMembers, ReadValue, ReadString, Means, KeysOnce, Body;
    var key, value, rest := a[0].key, Canonical(a[0].value), a[1..];
    LinesSplit(a);
    JoinSplit(Lines(a));
    var after := if rest == [] then [0x7d] + x else [0x2c] + (JoinLines(Lines(rest)) + ([0x7d] + x));
    var q := Body(key) + [0x22];
    assert JoinLines(Lines(a)) + ([0x7d] + x) == [0x22] + q + [0x3a] + value + after;
    StringReads(key, [0x3a] + value + after);
    assert q + ([0x3a] + value + after) == Body(key) + [0x22] + ([0x3a] + value + after);
    Reads(a[0].value, after);
    MemberRead(q, key, value, Means(a[0].value), after);
    if rest == [] {
      assert after[1..] == x;
      assert MapOf(rest) == map[];
    } else {
      MembersRead(rest, x);
      assert after[1..] == JoinLines(Lines(rest)) + ([0x7d] + x);
      assert map[key := Means(a[0].value)] + MapOf(rest) == MapOf(a);
    }
  }

  lemma ReadsBack(v: Json, w: Json, x: Str, y: Str)
    requires KeysOnce(v) && KeysOnce(w) && Ends(x) && Ends(y)
    requires Canonical(v) + x == Canonical(w) + y
    ensures Means(v) == Means(w) && x == y
  {
    hide Canonical, Means, KeysOnce, ReadValue;
    Reads(v, x);
    Reads(w, y);
  }

  // ── Equal value, equal text ─────────────────────────────────────────────

  /** In increasing order a mapping lists its entries one way. */
  lemma {:induction false} SmallestFirst(a: seq<Entry>, k: Str)
    requires a != [] && Increasing(a) && k in MapOf(a)
    ensures k == a[0].key || Less(a[0].key, k)
  {
    hide Less, Means;
    if k != a[0].key {
      SmallestFirst(a[1..], k);
      LessOrder(a[0].key, a[1].key, k);
    }
  }

  lemma SameFirst(a: seq<Entry>, b: seq<Entry>)
    requires Increasing(a) && Increasing(b) && MapOf(a) == MapOf(b) && a != [] && b != []
    requires a[0].key !in MapOf(a[1..]) && b[0].key !in MapOf(b[1..])
    ensures a[0].key == b[0].key && Means(a[0].value) == Means(b[0].value) && MapOf(a[1..]) == MapOf(b[1..])
  {
    hide Less, Means;
    assert a[0].key in MapOf(a) && b[0].key in MapOf(b);
    SmallestFirst(a, b[0].key);
    SmallestFirst(b, a[0].key);
    LessOrder(a[0].key, b[0].key, b[0].key);
    assert MapOf(a[1..]) == MapOf(a) - {a[0].key};
    assert MapOf(b[1..]) == MapOf(b) - {b[0].key};
  }

  lemma {:induction false} SameText(v: Json, w: Json)
    requires KeysOnce(v) && KeysOnce(w) && Means(v) == Means(w)
    ensures Canonical(v) == Canonical(w)
    decreases Size(v), 0
  {
    match v
    case List(items) => SameItems(items, w.items);
    case Dict(entries) =>
      SortLines(entries);
      SortLines(w.entries);
      SortKeeps(entries);
      SortKeeps(w.entries);
      SameLines(SortEntries(entries), SortEntries(w.entries));
    case _ =>
  }

  lemma {:induction false} SameItems(a: seq<Json>, b: seq<Json>)
    requires KeysOnceAll(a) && KeysOnceAll(b) && MeansAll(a) == MeansAll(b)
    ensures CanonicalItems(a) == CanonicalItems(b)
    decreases SizeItems(a), 1
  {
    hide Canonical, Means, KeysOnce;
    if a != [] && b != [] {
      assert MeansAll(a)[0] == Means(a[0]) && MeansAll(b)[0] == Means(b[0]);
      assert MeansAll(a)[1..] == MeansAll(a[1..]) && MeansAll(b)[1..] == MeansAll(b[1..]);
      SameText(a[0], b[0]);
      SameItems(a[1..], b[1..]);
    }
  }

  lemma {:induction false} SameLines(a: seq<Entry>, b: seq<Entry>)
    requires KeysOnceIn(a) && KeysOnceIn(b) && Increasing(a) && Increasing(b) && MapOf(a) == MapOf(b)
    ensures Lines(a) == Lines(b)
    decreases SizeEntries(a), 1
  {
    hide Canonical, Means, KeysOnce, Less;
    assert a != [] ==> a[0].key in MapOf(a);
    assert b != [] ==> b[0].key in MapOf(b);
    if a != [] && b != [] {
      SameFirst(a, b);
      SameText(a[0].value, b[0].value);
      SameLines(a[1..], b[1..]);
    }
  }

  /** Two values have the same canonical text exactly when they are equal,
      whatever the insertion order of their dicts. */
  lemma CanonicalIsOneToOne(v: Json, w: Json)
    requires KeysOnce(v) && KeysOnce(w)
    ensures Canonical(v) == Canonical(w) <==> Means(v) == Means(w)
  {
    hide Canonical, Means, KeysOnce;
    if Canonical(v) == Canonical(w) {
      ReadsBack(v, w, [], []);
    }
    if Means(v) == Means(w) {
      SameText(v, w);
    }
  }

  // ── argv_sha256 ─────────────────────────────────────────────────────────

  function Strings(argv: seq<Str>): seq<Json> {
    if argv == [] then [] else [String(argv[0])] + Strings(argv[1..])
  }

  lemma StringMeans(s: Str)
    ensures KeysOnce(String(s)) && Means(String(s)) == MString(s)
  {}

  lemma FirstMeans(v: Json, rest: seq<Json>)
    ensures MeansAll([v] + rest) == [Means(v)] + MeansAll(rest)
    ensures KeysOnceAll([v] + rest) <==> KeysOnce(v) && KeysOnceAll(rest)
  {
    hide Means, KeysOnce;
    assert ([v] + rest)[1..] == rest;
  }

  lemma {:induction false} StringsMean(argv: seq<Str>)
    ensures KeysOnceAll(Strings(argv))
    ensures MeansAll(Strings(argv)) == seq(|argv|, i requires 0 <= i < |argv| => MString(argv[i]))
  {
    if argv != [] {
      StringsMean(argv[1..]);
      StringMeans(argv[0]);
      FirstMeans(String(argv[0]), Strings(argv[1..]));
      hide Means, KeysOnce, MeansAll, KeysOnceAll;
      assert Strings(argv) == [String(argv[0])] + Strings(argv[1..]);
    }
  }

  /** What `argv_sha256` hashes tells the argument lists apart. */
  lemma ArgvTextsDiffer(a: seq<Str>, b: seq<Str>)
    ensures Canonical(List(Strings(a))) == Canonical(List(Strings(b))) <==> a == b
  {
    hide Canonical, Strings;
    var p, q := Strings(a), Strings(b);
    StringsMean(a);
    StringsMean(b);
    CanonicalIsOneToOne(List(p), List(q));
    if Canonical(List(p)) == Canonical(List(q)) {
      assert MeansAll(p) == MeansAll(q);
      assert forall i | 0 <= i < |a| :: MeansAll(p)[i].s == a[i] && MeansAll(q)[i].s == b[i];
    }
  }
}
