/** What `putChunked` committed, `getChunked` reads back; every part it sends fits. */
module RoundTrip {
  import opened Basics
  import opened Utf16
  import opened Json
  import opened Parts
  import opened Chunks
  import opened ChunkedStore
  import Sha256

  // ── The store after a commit ────────────────────────────────────────────

  lemma {:induction false} ApplyConcat(store: Store, a: seq<Op>, b: seq<Op>)
    ensures Apply(store, a + b) == Apply(Apply(store, a), b)
    decreases |b|
  {
    if b == [] {
      assert a + b == a;
    } else {
      var n := |b| - 1;
      assert (a + b)[..|a + b| - 1] == a + b[..n];
      ApplyConcat(store, a, b[..n]);
    }
  }

  /** Operations on other keys leave a key alone. */
  lemma {:induction false} ApplyElsewhere(store: Store, ops: seq<Op>, k: Text)
    requires forall op | op in ops :: op.key != k
    ensures Lookup(Apply(store, ops), k) == Lookup(store, k)
  {
    if ops != [] {
      ApplyElsewhere(store, ops[..|ops| - 1], k);
    }
  }

  /** The deletes spare every key that counts as below the new end. */
  lemma {:induction false} DeletesSpare(page: seq<Text>, key: Text, n: nat, other: Text -> bool, k: Text)
    requires Below(k, key, n, other)
    ensures forall op | op in Deletes(page, key, n, other) :: op.key != k
  {
    if page != [] {
      DeletesSpare(page[1..], key, n, other, k);
    }
  }

  lemma OwnKeysBelow(key: Text, m: nat, n: nat, other: Text -> bool)
    requires m < n
    ensures Below(key, key, n, other) && Below(PartKey(key, m), key, n, other)
  {
    DecimalIs(m);
    assert PartKey(key, m)[|key| + 2..] == Decimal(m);
  }

  /** The store holds `text` under `key`, whole. */
  predicate Holds(store: Store, key: Text, text: Text, chunks: seq<Text>)
    requires WellFormed(text)
  {
    && Lookup(store, key) == Some(HeaderValue(|chunks|, text))
    && forall i | 0 <= i < |chunks| :: Lookup(store, PartKey(key, i)) == Some(PartValue(i, chunks[i]))
  }

  lemma {:induction false} PutsLand(store: Store, key: Text, text: Text, chunks: seq<Text>, ifRev: Option<int>, n: nat)
    requires WellFormed(text) && n <= |chunks|
    ensures forall i | 0 <= i < n ::
              Lookup(Apply(store, WriteOps(key, text, chunks, ifRev)[..n]), PartKey(key, i))
              == Some(PartValue(i, chunks[i]))
  {
    hide HeaderValue, PartValue;
    if n > 0 {
      var ops := WriteOps(key, text, chunks, ifRev);
      assert ops[..n][..n - 1] == ops[..n - 1];
      assert ops[..n][n - 1] == Put(PartKey(key, n - 1), PartValue(n - 1, chunks[n - 1]), None);
      PutsLand(store, key, text, chunks, ifRev, n - 1);
      forall i | 0 <= i < n - 1
        ensures PartKey(key, i) != PartKey(key, n - 1)
      {
        PartKeysDistinct(key, i, n - 1);
      }
    }
  }

  /** Deletes that touch neither the header nor any of the first `n` parts. */
  predicate Spared(deletes: seq<Op>, key: Text, n: nat) {
    forall op | op in deletes :: op.Delete? && op.key != key && forall m | 0 <= m < n :: op.key != PartKey(key, m)
  }

  lemma DeletesSpareOwn(page: seq<Text>, key: Text, n: nat, other: Text -> bool)
    requires n > 0
    ensures Spared(Deletes(page, key, n, other), key, n)
  {
    hide Below, PartKey;
    DeletesAreDeletes(page, key, n, other);
    OwnKeysBelow(key, 0, n, other);
    DeletesSpare(page, key, n, other, key);
    forall m | 0 <= m < n
      ensures forall op | op in Deletes(page, key, n, other) :: op.key != PartKey(key, m)
    {
      OwnKeysBelow(key, m, n, other);
      DeletesSpare(page, key, n, other, PartKey(key, m));
    }
  }

  /** Whatever the store held and whatever else is deleted, the write is whole after its commit. */
  lemma CommitHolds(store: Store, key: Text, text: Text, chunks: seq<Text>, ifRev: Option<int>, deletes: seq<Op>)
    requires WellFormed(text) && Spared(deletes, key, |chunks|)
    ensures Holds(Apply(store, WriteOps(key, text, chunks, ifRev) + deletes), key, text, chunks)
  {
    hide HeaderValue, PartValue, PartKey;
    var ops := WriteOps(key, text, chunks, ifRev);
    var n := |chunks|;
    PutsLand(store, key, text, chunks, ifRev, n);
    assert ops[..|ops| - 1] == ops[..n];
    assert ops[|ops| - 1] == Put(key, HeaderValue(n, text), ifRev);
    var written := Apply(store, ops);
    ApplyConcat(store, ops, deletes);
    forall i | 0 <= i < n
      ensures Lookup(Apply(written, deletes), PartKey(key, i)) == Some(PartValue(i, chunks[i]))
    {
      PartKeysDistinct(key, i, i);
      ApplyElsewhere(written, deletes, PartKey(key, i));
    }
    ApplyElsewhere(written, deletes, key);
  }

  // ── Reading it back ─────────────────────────────────────────────────────

  lemma GetThree(a: Text, b: Text, c: Text, x: Value, y: Value, z: Value)
    requires a != b && a != c && b != c
    ensures var v := Object([Field(a, x), Field(b, y), Field(c, z)]);
            Get(v, a) == Some(x) && Get(v, b) == Some(y) && Get(v, c) == Some(z)
  {
    var v := Object([Field(a, x), Field(b, y), Field(c, z)]);
    var rest := v.fields[1..];
    assert GetField(v.fields, b) == GetField(rest, b) == Some(y);
    assert GetField(v.fields, c) == GetField(rest, c) == GetField(rest[1..], c) == Some(z);
  }

  lemma HeadOfHeader(n: nat, text: Text)
    requires WellFormed(text)
    ensures ReadHead(Some(HeaderValue(n, text))) == Header(n, Some(Number(Utf8Len(text))), Digest(text))
  {
    hide Get, Digest, Utf8Len;
    assert CHUNKS[1] != BYTES[1] && CHUNKS[0] != SHA256[0] && BYTES[0] != SHA256[0];
    GetThree(CHUNKS, BYTES, SHA256, Number(n), Number(Utf8Len(text)), String(Digest(text)));
  }

  lemma PartOfPart(n: nat, t: Text)
    ensures ReadPart(Some(PartValue(n, t)), n) == Some(t)
  {
    var v := PartValue(n, t);
    assert GetField(v.fields[1..], TEXT) == Some(String(t));
  }

  lemma {:induction false} ReadsJoin(store: Store, key: Text, chunks: seq<Text>, n: nat)
    requires n <= |chunks|
    requires forall i | 0 <= i < n :: Lookup(store, PartKey(key, i)) == Some(PartValue(i, chunks[i]))
    ensures PartTexts(Reads(store, key, n)) == Some(Joined(chunks[..n]))
  {
    hide PartKey, PartValue, ReadPart;
    if n > 0 {
      var got := Reads(store, key, n);
      assert got[..n - 1] == Reads(store, key, n - 1);
      ReadsJoin(store, key, chunks, n - 1);
      PartOfPart(n - 1, chunks[n - 1]);
      assert chunks[..n][..n - 1] == chunks[..n - 1];
    }
  }

  lemma HeldIsRead(store: Store, key: Text, text: Text, chunks: seq<Text>)
    requires WellFormed(text) && Joined(chunks) == text && Holds(store, key, text, chunks)
    ensures GetChunked(store, key) == Text(text)
  {
    hide HeaderValue, PartValue, PartKey, Digest, Lookup, Utf8Len;
    HeadOfHeader(|chunks|, text);
    ReadsJoin(store, key, chunks, |chunks|);
    assert chunks[..|chunks|] == chunks;
  }

  /** The round trip: any well-formed text, any earlier store, any listing. */
  lemma PutThenGet(store: Store, key: Text, text: Text, chunks: seq<Text>, ifRev: Option<int>,
                   page: seq<Text>, other: Text -> bool)
    requires WellFormed(text) && Chunked(text, chunks)
    ensures GetChunked(Apply(store, WriteOps(key, text, chunks, ifRev) + Deletes(page, key, |chunks|, other)), key)
         == Text(text)
  {
    hide GetChunked, Holds, WriteOps, Deletes;
    DeletesSpareOwn(page, key, |chunks|, other);
    CommitHolds(store, key, text, chunks, ifRev, Deletes(page, key, |chunks|, other));
    var ops := WriteOps(key, text, chunks, ifRev) + Deletes(page, key, |chunks|, other);
    HeldIsRead(Apply(store, ops), key, text, chunks);
  }

  // ── Sizes ───────────────────────────────────────────────────────────────

  lemma JoinedBytes(a: Text, b: Text, m: nat, n: nat)
    requires WellFormed(a) && Utf8Len(a) <= m && WellFormed(b) && Utf8Len(b) <= n
    ensures WellFormed(a + b) && Utf8Len(a + b) <= m + n
  {
    Concatenation(a, b);
  }

  /** A property with a short name and a value whose JSON is well-formed. */
  predicate ShortNamed(f: Field) {
    WellFormed(f.name) && Utf8Len(f.name) <= 6 && WellFormed(Stringify(f.value))
  }

  lemma FieldBytes(f: Field)
    requires ShortNamed(f)
    ensures var t := [0x22] + Body(f.name) + [0x22, 0x3a] + Stringify(f.value);
            WellFormed(t) && Utf8Len(t) <= 39 + JsonBytes(f.value)
  {
    hide Stringify, Body, Utf8Len, WellFormed, Utf8;
    BodyWellFormed(f.name);
    BodyAtMostSixfold(f.name);
    AsciiUnits([0x22]);
    AsciiUnits([0x22, 0x3a]);
    JoinedBytes([0x22], Body(f.name), 1, 36);
    JoinedBytes([0x22] + Body(f.name), [0x22, 0x3a], 37, 2);
    JoinedBytes([0x22] + Body(f.name) + [0x22, 0x3a], Stringify(f.value), 39, JsonBytes(f.value));
  }

  function FieldsBound(fields: seq<Field>): nat {
    if fields == [] then 0 else 40 + JsonBytes(fields[0].value) + FieldsBound(fields[1..])
  }

  lemma {:induction false} FieldsBytes(fields: seq<Field>)
    requires forall f | f in fields :: ShortNamed(f)
    ensures WellFormed(StringifyFields(fields)) && Utf8Len(StringifyFields(fields)) <= FieldsBound(fields)
    decreases |fields|
  {
    hide Stringify, Body, Utf8Len, WellFormed, Utf8, ShortNamed, JsonBytes;
    if fields == [] {
      NothingBytes();
    } else {
      FieldBytes(fields[0]);
      FieldsBytes(fields[1..]);
      var t := [0x22] + Body(fields[0].name) + [0x22, 0x3a] + Stringify(fields[0].value);
      var n := 39 + JsonBytes(fields[0].value);
      AsciiUnits([0x2c]);
      JoinedBytes(t, [0x2c], n, 1);
      JoinedBytes(t + [0x2c], StringifyFields(fields[1..]), n + 1, FieldsBound(fields[1..]));
    }
  }

  lemma NothingBytes()
    ensures WellFormed([]) && Utf8Len([]) == 0
  {}

  lemma ObjectBytes(fields: seq<Field>)
    requires forall f | f in fields :: ShortNamed(f)
    ensures JsonBytes(Object(fields)) <= FieldsBound(fields) + 2
  {
    hide StringifyFields, Utf8Len, WellFormed, Utf8, ShortNamed;
    var t := StringifyFields(fields);
    FieldsBytes(fields);
    AsciiUnits([0x7b]);
    AsciiUnits([0x7d]);
    JoinedBytes([0x7b], t, 1, FieldsBound(fields));
    JoinedBytes([0x7b] + t, [0x7d], 1 + FieldsBound(fields), 1);
  }

  lemma NameBytes(name: Text)
    requires name == CHUNKS || name == BYTES || name == SHA256 || name == PART || name == TEXT
    ensures WellFormed(name) && Utf8Len(name) <= 6
  {
    hide WellFormed, Utf8Len;
    AsciiUnits(name);
  }

  lemma NumberBytes(n: nat)
    requires n < 100_000_000
    ensures WellFormed(Stringify(Number(n))) && JsonBytes(Number(n)) <= 8
  {
    assert Pow10(4) == 10_000 && Pow10(8) == 100_000_000;
    DecimalBytes(n, 8);
  }

  /** A chunk's part is within a transaction part's bytes. */
  lemma PartFits(n: nat, chunk: Text)
    requires n < 1000 && ChunkFits(chunk)
    ensures JsonBytes(PartValue(n, chunk)) <= PART_BYTES
  {
    hide Body, Utf8Len, Stringify, WellFormed, JsonBytes, BodyBytes;
    NameBytes(PART);
    NameBytes(TEXT);
    NumberBytes(n);
    QuotedBytes(chunk);
    var one, two := Field(PART, Number(n)), Field(TEXT, String(chunk));
    ObjectBytes([one, two]);
    assert [one, two][1..] == [two] && [two][1..] == [];
    assert FieldsBound([two]) == 40 + JsonBytes(two.value);
    assert FieldsBound([one, two]) == 40 + JsonBytes(one.value) + FieldsBound([two]);
  }

  lemma HeaderFits(n: nat, text: Text)
    requires n < 1000 && WellFormed(text) && Utf8Len(text) <= CHUNKED_MAX
    ensures JsonBytes(HeaderValue(n, text)) <= PART_BYTES
  {
    hide Body, Utf8Len, Stringify, WellFormed, JsonBytes, BodyBytes, Digest;
    NameBytes(CHUNKS);
    NameBytes(BYTES);
    NameBytes(SHA256);
    NumberBytes(n);
    NumberBytes(Utf8Len(text));
    QuotedBytes(Digest(text));
    DigestBytes(text);
    var one, two := Field(CHUNKS, Number(n)), Field(BYTES, Number(Utf8Len(text)));
    var three := Field(SHA256, String(Digest(text)));
    ObjectBytes([one, two, three]);
    assert [one, two, three][1..] == [two, three] && [two, three][1..] == [three] && [three][1..] == [];
    assert FieldsBound([three]) == 40 + JsonBytes(three.value);
    assert FieldsBound([two, three]) == 40 + JsonBytes(two.value) + FieldsBound([three]);
    assert FieldsBound([one, two, three]) == 40 + JsonBytes(one.value) + FieldsBound([two, three]);
  }

  lemma DigestBytes(text: Text)
    requires WellFormed(text)
    ensures BodyBytes(Digest(text)) <= 384
  {
    hide Body, Utf8Len, Utf8, Sha256.Sha256;
    var d := Digest(text);
    AsciiUnits(d);
    BodyAtMostSixfold(d);
  }

  /** Every part `putChunked` sends is within the daemon's limits. */
  lemma EveryPartFits(key: Text, text: Text, chunks: seq<Text>, ifRev: Option<int>,
                      page: seq<Text>, other: Text -> bool, parts: seq<seq<Op>>, k: nat)
    requires WellFormed(text) && Utf8Len(text) <= CHUNKED_MAX && Chunked(text, chunks)
    requires Split(parts, WriteOps(key, text, chunks, ifRev) + Deletes(page, key, |chunks|, other))
    requires k < |parts|
    ensures |parts[k]| <= 64 && PartBytes(parts[k]) <= 61440
  {
    hide JsonBytes, HeaderValue, PartValue, Below, PartKey, Utf8Len, WellFormed;
    ChunkCount(text, chunks);
    var ops := WriteOps(key, text, chunks, ifRev) + Deletes(page, key, |chunks|, other);
    if |parts[k]| == 1 {
      var op := parts[k][0];
      PartOfJoined(parts, k);
      assert op in ops;
      HeaderFits(|chunks|, text);
      forall i | 0 <= i < |chunks|
        ensures JsonBytes(PartValue(i, chunks[i])) <= PART_BYTES
      {
        PartFits(i, chunks[i]);
      }
      DeletesAreDeletes(page, key, |chunks|, other);
      assert OpBytes(op) <= PART_BYTES;
      assert parts[k] == [] + [op];
      PartBytesOneMore([], op);
    }
  }

  lemma {:induction false} DeletesAreDeletes(page: seq<Text>, key: Text, n: nat, other: Text -> bool)
    ensures forall op | op in Deletes(page, key, n, other) :: op.Delete?
  {
    if page != [] {
      DeletesAreDeletes(page[1..], key, n, other);
    }
  }

  lemma {:induction false} PartOfJoined(parts: seq<seq<Op>>, k: nat)
    requires k < |parts|
    ensures forall op | op in parts[k] :: op in Joined(parts)
  {
    var n := |parts| - 1;
    if k < n {
      PartOfJoined(parts[..n], k);
    }
  }
}
