/** Chunked values in a widget's store: what `putChunked` writes and how `getChunked` reads it back. */
module ChunkedStore {
  import opened Basics
  import opened Utf16
  import opened Json
  import opened Parts
  import opened Chunks
  import Sha256

  type Store = map<Text, Value>

  // ── Keys ────────────────────────────────────────────────────────────────

  function PartKey(key: Text, n: nat): Text {
    key + [0x2f, 0x7e] + Decimal(n)
  }

  lemma PartKeysDistinct(key: Text, m: nat, n: nat)
    ensures PartKey(key, m) != key
    ensures PartKey(key, m) == PartKey(key, n) ==> m == n
  {
    DecimalIs(m);
    DecimalIs(n);
    assert PartKey(key, m)[|key| + 2..] == Decimal(m);
    assert PartKey(key, n)[|key| + 2..] == Decimal(n);
  }

  // Property names.
  const CHUNKS: Text := [0x63, 0x68, 0x75, 0x6e, 0x6b, 0x73] // chunks
  const BYTES: Text := [0x62, 0x79, 0x74, 0x65, 0x73] // bytes
  const SHA256: Text := [0x73, 0x68, 0x61, 0x32, 0x35, 0x36] // sha256
  const PART: Text := [0x70, 0x61, 0x72, 0x74] // part
  const TEXT: Text := [0x74, 0x65, 0x78, 0x74] // text

  // ── Values ──────────────────────────────────────────────────────────────

  /** `sha256Hex` of well-formed text, as text. */
  function Digest(text: Text): Text
    requires WellFormed(text)
  {
    if |Utf8(text)| < 0x2000_0000 then HexText(Sha256.Sha256(Utf8(text))) else []
  }

  function HexText(s: string): (t: Text)
    ensures |t| == |s| && forall i | 0 <= i < |t| :: t[i] < 0x80
  {
    seq(|s|, i requires 0 <= i < |s| => if s[i] < 128 as char then s[i] as int else 0)
  }

  /** Two texts that only a SHA-256 collision makes look the same. */
  predicate Collision(a: Text, b: Text) {
    WellFormed(a) && WellFormed(b) && Utf8(a) != Utf8(b) && Digest(a) == Digest(b)
  }

  function PartValue(n: nat, t: Text): Value {
    Object([Field(PART, Number(n)), Field(TEXT, String(t))])
  }

  function HeaderValue(chunks: nat, text: Text): Value
    requires WellFormed(text)
  {
    Object([Field(CHUNKS, Number(chunks)), Field(BYTES, Number(Utf8Len(text))),
            Field(SHA256, String(Digest(text)))])
  }

  /** A property of a value; absent from anything but an object. */
  function Get(v: Value, name: Text): Option<Value> {
    if v.Object? then GetField(v.fields, name) else None
  }

  function GetField(fields: seq<Field>, name: Text): Option<Value> {
    if fields == [] then None
    else if fields[0].name == name then Some(fields[0].value)
    else GetField(fields[1..], name)
  }

  // ── Writing ─────────────────────────────────────────────────────────────

  /** The parts in order, then the header. */
  function WriteOps(key: Text, text: Text, chunks: seq<Text>, ifRev: Option<int>): (ops: seq<Op>)
    requires WellFormed(text)
    ensures |ops| == |chunks| + 1
  {
    seq(|chunks|, n requires 0 <= n < |chunks| => Put(PartKey(key, n), PartValue(n, chunks[n]), None))
    + [Put(key, HeaderValue(|chunks|, text), ifRev)]
  }

  /** `Number(suffix) < n`; what `Number` makes of a suffix that is neither
      empty nor all digits is left to `other`. */
  predicate Below(k: Text, key: Text, n: nat, other: Text -> bool) {
    var s := if |k| > |key| + 2 then k[|key| + 2..] else [];
    if s == [] then 0 < n else if Digits(s) then DigitsValue(s) < n else other(s)
  }

  /** Deletes for the listed parts past the new end. */
  function Deletes(page: seq<Text>, key: Text, n: nat, other: Text -> bool): seq<Op> {
    if page == [] then []
    else (if Below(page[0], key, n, other) then [] else [Delete(page[0])]) + Deletes(page[1..], key, n, other)
  }

  datatype Prepared = TooLarge | BadText | Ready(chunks: seq<Text>, ops: seq<Op>)

  /** `putChunked` before its first call. */
  method Prepare(key: Text, text: Text, ifRev: Option<int>) returns (r: Prepared)
    ensures r.TooLarge? <==> Utf8Len(text) > 1048576
    ensures r.BadText? <==> Utf8Len(text) <= 1048576 && !WellFormed(text)
    ensures r.Ready? ==> Chunked(text, r.chunks) && r.ops == WriteOps(key, text, r.chunks, ifRev)
  {
    hide Sha256.Sha256, Chunked, Utf8, Utf8Len;
    var total := CountUtf8(text);
    if total > CHUNKED_MAX {
      return TooLarge;
    }
    var chunks := SplitChunks(text);
    if WellFormed(text) {
      Utf8LenIsUtf8(text);
    }
    var digest := Sha256.Sha256Hex(text);
    if digest == None {
      return BadText;
    }
    var header := Object([Field(CHUNKS, Number(|chunks|)), Field(BYTES, Number(total)),
                          Field(SHA256, String(HexText(digest.value)))]);
    var ops := PartPuts(key, chunks);
    r := Ready(chunks, ops + [Put(key, header, ifRev)]);
  }

  method PartPuts(key: Text, chunks: seq<Text>) returns (ops: seq<Op>)
    ensures ops == seq(|chunks|, n requires 0 <= n < |chunks| => Put(PartKey(key, n), PartValue(n, chunks[n]), None))
  {
    ops := [];
    var n := 0;
    while n < |chunks|
      invariant 0 <= n <= |chunks| && |ops| == n
      invariant forall i | 0 <= i < n :: ops[i] == Put(PartKey(key, i), PartValue(i, chunks[i]), None)
    {
      ops := ops + [Put(PartKey(key, n), PartValue(n, chunks[n]), None)];
      n := n + 1;
    }
  }

  /** The listing's answer: deletes are added in the page's order. */
  method AddDeletes(ops: seq<Op>, page: seq<Text>, key: Text, n: nat, other: Text -> bool) returns (all: seq<Op>)
    ensures all == ops + Deletes(page, key, n, other)
  {
    all := ops;
    var i := 0;
    while i < |page|
      invariant 0 <= i <= |page|
      invariant all + Deletes(page[i..], key, n, other) == ops + Deletes(page, key, n, other)
    {
      assert page[i..][1..] == page[i + 1..];
      ghost var rest := Deletes(page[i + 1..], key, n, other);
      if !Below(page[i], key, n, other) {
        assert all + ([Delete(page[i])] + rest) == all + [Delete(page[i])] + rest;
        all := all + [Delete(page[i])];
      } else {
        assert [] + rest == rest;
      }
      i := i + 1;
    }
  }

  /** A patch merges its partial field by field, and null removes a field (RFC 7396, section 2). */
  function Merged(was: Option<Value>, partial: Value): Value
    decreases partial
  {
    if partial.Object? then
      Object(MergedFields(if was.Some? && was.value.Object? then was.value.fields else [], partial.fields))
    else partial
  }

  function MergedFields(target: seq<Field>, partial: seq<Field>): seq<Field>
    decreases partial
  {
    if partial == [] then target
    else
      var f := partial[0];
      var rest := Removed(target, f.name);
      MergedFields(if f.value.Null? then rest else rest + [Field(f.name, Merged(GetField(target, f.name), f.value))],
                   partial[1..])
  }

  function Removed(fields: seq<Field>, name: Text): seq<Field> {
    if fields == [] then []
    else (if fields[0].name == name then [] else [fields[0]]) + Removed(fields[1..], name)
  }

  /** A commit: every operation in order, or none. */
  function Apply(store: Store, ops: seq<Op>): Store {
    if ops == [] then store
    else
      var before := Apply(store, ops[..|ops| - 1]);
      match ops[|ops| - 1]
      case Put(key, value, _) => before[key := value]
      case Patch(key, value, _) => before[key := Merged(Lookup(before, key), value)]
      case Delete(key) => before - {key}
  }

  // ── Reading ─────────────────────────────────────────────────────────────

  datatype Head = Absent | NotHeader | Header(chunks: int, bytes: Option<Value>, sha256: Text)

  function ReadHead(entry: Option<Value>): Head {
    if entry == None then Absent
    else match (Get(entry.value, CHUNKS), Get(entry.value, SHA256))
         case (Some(Number(n)), Some(String(h))) => Header(n, Get(entry.value, BYTES), h)
         case _ => NotHeader
  }

  datatype Outcome = Missing | Mismatch | Threw | Text(text: Text)

  /** The part's text, if the entry read is part `n`. */
  function ReadPart(entry: Option<Value>, n: nat): Option<Text> {
    if entry == None then None
    else match (Get(entry.value, PART), Get(entry.value, TEXT))
         case (Some(Number(m)), Some(String(t))) => if m == n then Some(t) else None
         case _ => None
  }

  /** `getChunked` once its reads are in. */
  method Assemble(head: Head, got: seq<Option<Value>>) returns (r: Outcome)
    requires head.Header? ==> |got| == if head.chunks < 0 then 0 else head.chunks
    ensures r == Assembled(head, got)
  {
    hide ReadPart, Digest, WellFormed, Utf8Len;
    match head
    case Absent => return Missing;
    case NotHeader => return Mismatch;
    case Header(_, bytes, sha256) =>
      var text: Text := [];
      var n := 0;
      while n < |got|
        invariant 0 <= n <= |got|
        invariant PartTexts(got[..n]) == Some(text)
      {
        assert got[..n + 1][..n] == got[..n];
        var t := ReadPart(got[n], n);
        if t == None {
          PartTextsStop(got, n + 1);
          return Mismatch;
        }
        text := text + t.value;
        n := n + 1;
      }
      assert got[..|got|] == got;
      var len := CountUtf8(text);
      if bytes != Some(Number(len)) {
        return Mismatch;
      }
      if !WellFormed(text) {
        return Threw;
      }
      r := if Digest(text) == sha256 then Text(text) else Mismatch;
  }

  /** The parts' texts joined, if every entry is its part. */
  function PartTexts(got: seq<Option<Value>>): Option<Text> {
    if got == [] then Some([])
    else
      var n := |got| - 1;
      match (PartTexts(got[..n]), ReadPart(got[n], n))
      case (Some(before), Some(t)) => Some(before + t)
      case _ => None
  }

  lemma {:induction false} PartTextsStop(got: seq<Option<Value>>, n: nat)
    requires n <= |got| && PartTexts(got[..n]) == None
    ensures PartTexts(got) == None
    decreases |got| - n
  {
    if n == |got| {
      assert got[..n] == got;
    } else {
      assert got[..n + 1][..n] == got[..n];
      PartTextsStop(got, n + 1);
    }
  }

  function Assembled(head: Head, got: seq<Option<Value>>): Outcome {
    match head
    case Absent => Missing
    case NotHeader => Mismatch
    case Header(_, bytes, sha256) =>
      match PartTexts(got)
      case None => Mismatch
      case Some(text) =>
        if bytes != Some(Number(Utf8Len(text))) then Mismatch
        else if !WellFormed(text) then Threw
        else if Digest(text) == sha256 then Text(text) else Mismatch
  }

  /** `getChunked` on a store nobody else writes meanwhile. */
  function GetChunked(store: Store, key: Text): Outcome {
    var head := ReadHead(Lookup(store, key));
    Assembled(head, if head.Header? then Reads(store, key, if head.chunks < 0 then 0 else head.chunks) else [])
  }

  function Lookup(store: Store, key: Text): Option<Value> {
    if key in store then Some(store[key]) else None
  }

  function Reads(store: Store, key: Text, n: nat): seq<Option<Value>> {
    seq(n, i requires 0 <= i < n => Lookup(store, PartKey(key, i)))
  }
}
