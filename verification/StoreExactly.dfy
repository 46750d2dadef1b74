/** Exactly what a committed `putChunked` or a patch leaves in the store, and exactly what `getChunked` answers. */
module StoreExactly {
  import opened Basics
  import opened Utf16
  import opened Json
  import opened Parts
  import opened Chunks
  import opened ChunkedStore
  import opened RoundTrip

  // ── Names ───────────────────────────────────────────────────────────────

  predicate Spells(t: Text, word: string) {
    |t| == |word| && forall i | 0 <= i < |t| :: t[i] == word[i] as int
  }

  lemma NamesAreSpelled()
    ensures Spells(CHUNKS, "chunks") && Spells(BYTES, "bytes") && Spells(SHA256, "sha256")
    ensures Spells(PART, "part") && Spells(TEXT, "text")
  {}

  /** The key, a slash and a tilde, and the number without leading zeros. */
  lemma PartKeyIs(key: Text, m: nat)
    ensures var k, n := PartKey(key, m), |key|;
            && |k| > n + 2 && k[..n] == key && Spells(k[n..n + 2], "/~")
            && Digits(k[n + 2..]) && DigitsValue(k[n + 2..]) == m && (k[n + 2] == 0x30 <==> m == 0)
  {
    DecimalIs(m);
    assert PartKey(key, m)[|key| + 2..] == Decimal(m);
  }

  // ── Writing ─────────────────────────────────────────────────────────────

  lemma {:induction false} DeletesAre(page: seq<Text>, key: Text, n: nat, other: Text -> bool, k: Text)
    ensures forall op | op in Deletes(page, key, n, other) :: op.Delete?
    ensures Delete(k) in Deletes(page, key, n, other) <==> k in page && !Below(k, key, n, other)
  {
    hide Below;
    if page != [] {
      DeletesAre(page[1..], key, n, other, k);
      assert k in page <==> k == page[0] || k in page[1..];
    }
  }

  lemma {:induction false} ApplyDeletes(store: Store, ops: seq<Op>, k: Text)
    requires forall op | op in ops :: op.Delete?
    ensures Lookup(Apply(store, ops), k) == if Delete(k) in ops then None else Lookup(store, k)
  {
    if ops != [] {
      var n := |ops| - 1;
      ApplyDeletes(store, ops[..n], k);
      assert ops == ops[..n] + [ops[n]] && ops[n] in ops;
    }
  }

  lemma PutsElsewhere(store: Store, key: Text, text: Text, chunks: seq<Text>, ifRev: Option<int>, k: Text)
    requires WellFormed(text) && k != key && forall i | 0 <= i < |chunks| :: k != PartKey(key, i)
    ensures Lookup(Apply(store, WriteOps(key, text, chunks, ifRev)), k) == Lookup(store, k)
  {
    hide HeaderValue, PartValue, PartKey;
    ApplyElsewhere(store, WriteOps(key, text, chunks, ifRev), k);
  }

  /** The store after the commit, key by key. */
  function AfterPut(store: Store, key: Text, text: Text, chunks: seq<Text>, ifRev: Option<int>, page: seq<Text>,
                    other: Text -> bool): Store
    requires WellFormed(text)
  {
    Apply(store, WriteOps(key, text, chunks, ifRev) + Deletes(page, key, |chunks|, other))
  }

  lemma OtherKeys(store: Store, key: Text, text: Text, chunks: seq<Text>, ifRev: Option<int>, page: seq<Text>,
                  other: Text -> bool, k: Text)
    requires WellFormed(text) && k != key && forall i | 0 <= i < |chunks| :: k != PartKey(key, i)
    ensures Lookup(AfterPut(store, key, text, chunks, ifRev, page, other), k)
         == if k in page && !Below(k, key, |chunks|, other) then None else Lookup(store, k)
  {
    hide WriteOps, Apply, PartKey, Below;
    var ops, deletes := WriteOps(key, text, chunks, ifRev), Deletes(page, key, |chunks|, other);
    ApplyConcat(store, ops, deletes);
    PutsElsewhere(store, key, text, chunks, ifRev, k);
    DeletesAre(page, key, |chunks|, other, k);
    ApplyDeletes(Apply(store, ops), deletes, k);
  }

  /** A part key counts as below the end exactly when its number is. */
  lemma PartIsBelow(key: Text, m: nat, n: nat, other: Text -> bool)
    ensures Below(PartKey(key, m), key, n, other) <==> m < n
  {
    DecimalIs(m);
    assert PartKey(key, m)[|key| + 2..] == Decimal(m);
  }

  /** After the commit, for every part number: the new parts are there, a listed
      old part past the new end is gone, and an unlisted one is as it was; keys
      that are neither listed nor written are as they were too. */
  lemma PutLeaves(store: Store, key: Text, text: Text, chunks: seq<Text>, ifRev: Option<int>, page: seq<Text>,
                  other: Text -> bool, m: nat)
    requires WellFormed(text) && chunks != []
    ensures Lookup(AfterPut(store, key, text, chunks, ifRev, page, other), PartKey(key, m))
         == if m < |chunks| then Some(PartValue(m, chunks[m]))
            else if PartKey(key, m) in page then None
            else Lookup(store, PartKey(key, m))
    ensures Lookup(AfterPut(store, key, text, chunks, ifRev, page, other), key) == Some(HeaderValue(|chunks|, text))
    ensures forall k | k !in page && k != key && (forall i | 0 <= i < |chunks| :: k != PartKey(key, i)) ::
              Lookup(AfterPut(store, key, text, chunks, ifRev, page, other), k) == Lookup(store, k)
  {
    hide AfterPut, Lookup, PartKey, Below, HeaderValue, PartValue;
    AfterPutHolds(store, key, text, chunks, ifRev, page, other);
    if m >= |chunks| {
      forall i | 0 <= i < |chunks| ensures PartKey(key, m) != PartKey(key, i) {
        PartKeysDistinct(key, m, i);
      }
      PartKeysDistinct(key, m, m);
      OtherKeys(store, key, text, chunks, ifRev, page, other, PartKey(key, m));
      PartIsBelow(key, m, |chunks|, other);
    }
    forall k | k !in page && k != key && (forall i | 0 <= i < |chunks| :: k != PartKey(key, i))
      ensures Lookup(AfterPut(store, key, text, chunks, ifRev, page, other), k) == Lookup(store, k)
    {
      OtherKeys(store, key, text, chunks, ifRev, page, other, k);
    }
  }

  /** A listed key whose suffix is a number in other digits, leading zeros say,
      is deleted exactly when the number is past the new end; one without a
      suffix counts as number 0 and stays. */
  lemma NumberedKeys(store: Store, key: Text, text: Text, chunks: seq<Text>, ifRev: Option<int>, page: seq<Text>,
                     other: Text -> bool, d: Text)
    requires WellFormed(text) && chunks != [] && (d == [] || Digits(d))
    requires forall i | 0 <= i < |chunks| :: d != Decimal(i)
    ensures var k := key + [0x2f, 0x7e] + d;
            && Lookup(AfterPut(store, key, text, chunks, ifRev, page, other), k)
               == if k in page && d != [] && DigitsValue(d) >= |chunks| then None else Lookup(store, k)
  {
    hide AfterPut, Lookup, Decimal;
    var k := key + [0x2f, 0x7e] + d;
    assert k[|key| + 2..] == d;
    forall i | 0 <= i < |chunks| ensures k != PartKey(key, i) {
      assert PartKey(key, i)[|key| + 2..] == Decimal(i);
    }
    OtherKeys(store, key, text, chunks, ifRev, page, other, k);
  }

  lemma AfterPutHolds(store: Store, key: Text, text: Text, chunks: seq<Text>, ifRev: Option<int>, page: seq<Text>,
                      other: Text -> bool)
    requires WellFormed(text) && chunks != []
    ensures Holds(AfterPut(store, key, text, chunks, ifRev, page, other), key, text, chunks)
  {
    hide Holds, Apply, WriteOps, Deletes;
    DeletesSpareOwn(page, key, |chunks|, other);
    CommitHolds(store, key, text, chunks, ifRev, Deletes(page, key, |chunks|, other));
  }

  /** When the listing shows every old part, the part keys left are exactly the
      new ones. */
  lemma PartsAreExactly(store: Store, key: Text, text: Text, chunks: seq<Text>, ifRev: Option<int>, page: seq<Text>,
                        other: Text -> bool, m: nat)
    requires WellFormed(text) && chunks != [] && (PartKey(key, m) in store ==> PartKey(key, m) in page)
    ensures PartKey(key, m) in AfterPut(store, key, text, chunks, ifRev, page, other) <==> m < |chunks|
  {
    hide AfterPut, PartKey, HeaderValue, PartValue;
    PutLeaves(store, key, text, chunks, ifRev, page, other, m);
  }

  // ── Patching ────────────────────────────────────────────────────────────

  predicate NamesOnce(fields: seq<Field>) {
    fields == [] || (GetField(fields[1..], fields[0].name) == None && NamesOnce(fields[1..]))
  }

  lemma {:induction false} RemovedField(fields: seq<Field>, name: Text, x: Text)
    ensures GetField(Removed(fields, name), x) == if x == name then None else GetField(fields, x)
  {
    if fields != [] {
      RemovedField(fields[1..], name, x);
      var rest := Removed(fields[1..], name);
      if fields[0].name == name {
        assert Removed(fields, name) == rest;
      } else {
        assert Removed(fields, name) == [fields[0]] + rest && ([fields[0]] + rest)[1..] == rest;
      }
    }
  }

  lemma {:induction false} AddedField(fields: seq<Field>, f: Field, x: Text)
    ensures GetField(fields + [f], x)
         == if GetField(fields, x).Some? then GetField(fields, x) else if f.name == x then Some(f.value) else None
  {
    if fields == [] {
      assert (fields + [f])[1..] == [];
    } else {
      AddedField(fields[1..], f, x);
      assert (fields + [f])[1..] == fields[1..] + [f];
    }
  }

  lemma {:induction false} MergedField(target: seq<Field>, partial: seq<Field>, x: Text)
    requires NamesOnce(partial)
    ensures GetField(MergedFields(target, partial), x)
         == match GetField(partial, x)
            case None => GetField(target, x)
            case Some(v) => if v.Null? then None else Some(Merged(GetField(target, x), v))
    decreases |partial|
  {
    hide Merged;
    if partial != [] {
      var f, rest := partial[0], Removed(target, partial[0].name);
      var next := if f.value.Null? then rest else rest + [Field(f.name, Merged(GetField(target, f.name), f.value))];
      MergedField(next, partial[1..], x);
      RemovedField(target, f.name, x);
      AddedField(rest, Field(f.name, Merged(GetField(target, f.name), f.value)), x);
    }
  }

  /** A patch keeps every field it does not name, removes a field that it names
      with null, merges an object into the field in the same way, and replaces
      the field by anything else; from no object it starts with none. */
  lemma PatchIs(was: Option<Value>, partial: Value, x: Text)
    requires partial.Object? && NamesOnce(partial.fields)
    ensures var before := if was.Some? then Get(was.value, x) else None;
            Merged(was, partial).Object? && Get(Merged(was, partial), x)
            == match Get(partial, x)
               case None => before
               case Some(v) => if v.Null? then None else if v.Object? then Some(Merged(before, v)) else Some(v)
  {
    hide MergedFields, GetField, NamesOnce;
    MergedField(if was.Some? && was.value.Object? then was.value.fields else [], partial.fields, x);
    assert GetField([], x) == None by { NoField(x); }
  }

  lemma NoField(x: Text)
    ensures GetField([], x) == None
  {}

  // ── Reading ─────────────────────────────────────────────────────────────

  /** Entry `i` read is part `i` with that text. */
  predicate IsPart(entry: Option<Value>, i: nat, text: Text) {
    entry.Some? && Get(entry.value, PART) == Some(Number(i)) && Get(entry.value, TEXT) == Some(String(text))
  }

  predicate ArePartsOf(got: seq<Option<Value>>, texts: seq<Text>) {
    |texts| == |got| && forall i | 0 <= i < |got| :: IsPart(got[i], i, texts[i])
  }

  lemma ReadPartIs(entry: Option<Value>, i: nat, text: Text)
    ensures ReadPart(entry, i) == Some(text) <==> IsPart(entry, i, text)
  {
    hide Get;
  }

  lemma PartTextsOn(got: seq<Option<Value>>, n: nat)
    requires |got| == n + 1
    ensures PartTexts(got) == match (PartTexts(got[..n]), ReadPart(got[n], n))
                              case (Some(before), Some(t)) => Some(before + t)
                              case _ => None
  {
    hide ReadPart;
  }

  lemma PartsOn(got: seq<Option<Value>>, n: nat, texts: seq<Text>, last: Text)
    requires |got| == n + 1 && |texts| == n
    ensures ArePartsOf(got, texts + [last]) <==> ArePartsOf(got[..n], texts) && IsPart(got[n], n, last)
  {
    hide IsPart;
    if ArePartsOf(got, texts + [last]) {
      forall i | 0 <= i < n ensures IsPart(got[..n][i], i, texts[i]) {
        assert IsPart(got[i], i, (texts + [last])[i]);
      }
      assert IsPart(got[n], n, (texts + [last])[n]);
    }
  }

  lemma {:induction false} PartTextsAre(got: seq<Option<Value>>, text: Text)
    ensures PartTexts(got) == Some(text) <==> exists texts: seq<Text> :: ArePartsOf(got, texts) && Joined(texts) == text
    decreases |got|
  {
    hide IsPart, ReadPart, PartTexts, Joined;
    if got == [] {
      NoParts();
      if texts: seq<Text> :| ArePartsOf(got, texts) && Joined(texts) == text {
        assert texts == [];
      }
    } else {
      var n := |got| - 1;
      PartTextsOn(got, n);
      if PartTexts(got) == Some(text) {
        var before, last := PartTexts(got[..n]).value, ReadPart(got[n], n).value;
        PartTextsAre(got[..n], before);
        var texts: seq<Text> :| ArePartsOf(got[..n], texts) && Joined(texts) == before;
        ReadPartIs(got[n], n, last);
        JoinedOneMore(texts, last);
        PartsOn(got, n, texts, last);
      }
      if texts: seq<Text> :| ArePartsOf(got, texts) && Joined(texts) == text {
        var front, last := texts[..n], texts[n];
        assert texts == front + [last];
        PartsOn(got, n, front, last);
        PartTextsAre(got[..n], Joined(front));
        ReadPartIs(got[n], n, last);
        JoinedOneMore(front, last);
      }
    }
  }

  lemma NoParts()
    ensures PartTexts([]) == Some([]) && Joined<Unit>([]) == [] && ArePartsOf([], [])
  {}

  /** Under `key` stands a header whose count, length and digest are those of
      `text`, and under its part keys stand that many parts that join to it. */
  predicate Whole(store: Store, key: Text, text: Text, count: int, texts: seq<Text>) {
    && key in store && WellFormed(text) && Joined(texts) == text && |texts| == (if count < 0 then 0 else count)
    && Get(store[key], CHUNKS) == Some(Number(count))
    && Get(store[key], BYTES) == Some(Number(Utf8Len(text)))
    && Get(store[key], SHA256) == Some(String(Digest(text)))
    && forall i | 0 <= i < |texts| :: IsPart(Lookup(store, PartKey(key, i)), i, texts[i])
  }

  lemma HeadIs(store: Store, key: Text)
    ensures ReadHead(Lookup(store, key)).Absent? <==> key !in store
    ensures var head := ReadHead(Lookup(store, key));
            head.Header? ==>
              && key in store && Get(store[key], CHUNKS) == Some(Number(head.chunks))
              && Get(store[key], SHA256) == Some(String(head.sha256)) && Get(store[key], BYTES) == head.bytes
    ensures key in store ==> forall n, h ::
              Get(store[key], CHUNKS) == Some(Number(n)) && Get(store[key], SHA256) == Some(String(h)) ==>
              ReadHead(Lookup(store, key)) == Header(n, Get(store[key], BYTES), h)
  {
    hide Get;
  }

  /** A quiet read answers null exactly when there is nothing under the key, and
      a text exactly when the store holds it whole. */
  lemma GetIsExact(store: Store, key: Text, text: Text)
    ensures GetChunked(store, key) == Missing <==> key !in store
    ensures GetChunked(store, key) == Text(text)
       <==> exists count: int, texts: seq<Text> :: Whole(store, key, text, count, texts)
  {
    hide Get, ReadHead, PartTexts, IsPart, PartKey, Digest, WellFormed, Utf8Len, Joined;
    HeadIs(store, key);
    var head := ReadHead(Lookup(store, key));
    if GetChunked(store, key) == Text(text) {
      var got := Reads(store, key, if head.chunks < 0 then 0 else head.chunks);
      PartTextsAre(got, text);
      var texts: seq<Text> :| ArePartsOf(got, texts) && Joined(texts) == text;
      assert Whole(store, key, text, head.chunks, texts);
    }
    if count: int, texts: seq<Text> :| Whole(store, key, text, count, texts) {
      var got := Reads(store, key, |texts|);
      assert head == Header(count, Some(Number(Utf8Len(text))), Digest(text));
      assert ArePartsOf(got, texts);
      PartTextsAre(got, text);
    }
  }
}
