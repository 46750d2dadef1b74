/** Many `putChunked` and `getChunked` calls at once, each a run of host calls that may fail. */
module ChunkedRun {
  import opened Basics
  import opened Utf16
  import opened Json
  import opened Parts
  import opened Chunks
  import opened ChunkedStore
  import RT = RoundTrip

  // ── State ───────────────────────────────────────────────────────────────

  datatype Phase = Listing | Beginning | Adding | Committing | Done | Failed

  /** One `putChunked` past its local checks. */
  datatype Writer = Writer(key: Text, text: Text, chunks: seq<Text>, ifRev: Option<int>,
                           phase: Phase, deletes: seq<Op>, parts: seq<seq<Op>>, acked: nat, tx: nat)

  /** One `getChunked`; the parts are asked for together and answered in any order. */
  datatype Reader =
    | Asked(key: Text)
    | Reading(key: Text, head: Head, got: map<nat, Option<Value>>)
    | Answered(key: Text, head: Head, outcome: Outcome)
    | Refused(key: Text)

  /** A write the host committed. */
  datatype Written = Written(key: Text, text: Text, chunks: nat)

  datatype World = World(store: Store, staged: map<nat, seq<Op>>, nextTx: nat,
                         writers: seq<Writer>, readers: seq<Reader>, committed: seq<Written>)

  datatype Action =
    | StartPut(key: Text, text: Text, chunks: seq<Text>, ifRev: Option<int>)
    | Listed(i: nat, page: seq<Text>, other: Text -> bool, parts: seq<seq<Op>>)
    | ListFailed(i: nat)
    | Begun(i: nat)
    | BeginFailed(i: nat, made: bool)
    | Added(i: nat)
    | AddFailed(i: nat, kept: bool)
    | Dropped(tx: nat)                      // an abort, an expiry, or the host's own abort
    | Committed(i: nat, replied: bool)
    | CommitFailed(i: nat)
    | StartGet(key: Text)
    | HeadRead(j: nat)
    | PartRead(j: nat, n: nat)
    | Finished(j: nat)
    | ReadFailed(j: nat)

  function Ops(w: Writer): seq<Op>
    requires WellFormed(w.text)
  {
    WriteOps(w.key, w.text, w.chunks, w.ifRev) + w.deletes
  }

  function HeadParts(head: Head): nat {
    if head.Header? && head.chunks > 0 then head.chunks else 0
  }

  /** The entries read, in the parts' order. */
  function InOrder(got: map<nat, Option<Value>>, n: nat): seq<Option<Value>>
    requires forall i | 0 <= i < n :: i in got
  {
    seq(n, i requires 0 <= i < n => got[i])
  }

  // ── Steps ───────────────────────────────────────────────────────────────

  predicate Enabled(s: World, a: Action) {
    match a
    case StartPut(_, text, chunks, _) => WellFormed(text) && Utf8Len(text) <= CHUNKED_MAX && Chunked(text, chunks)
    case Listed(i, page, other, parts) =>
      && i < |s.writers| && s.writers[i].phase == Listing && WellFormed(s.writers[i].text)
      && var w := s.writers[i];
         Split(parts, WriteOps(w.key, w.text, w.chunks, w.ifRev) + Deletes(page, w.key, |w.chunks|, other))
    case ListFailed(i) => i < |s.writers| && s.writers[i].phase == Listing
    case Begun(i) => i < |s.writers| && s.writers[i].phase == Beginning
    case BeginFailed(i, _) => i < |s.writers| && s.writers[i].phase == Beginning
    case Added(i) => i < |s.writers| && s.writers[i].phase == Adding && s.writers[i].tx in s.staged
                     && s.writers[i].acked < |s.writers[i].parts|
    case AddFailed(i, kept) =>
      i < |s.writers| && s.writers[i].phase == Adding && s.writers[i].acked < |s.writers[i].parts|
                               && (kept ==> s.writers[i].tx in s.staged)
    case Dropped(tx) => tx in s.staged
    case Committed(i, _) => i < |s.writers| && s.writers[i].phase == Committing && s.writers[i].tx in s.staged
    case CommitFailed(i) => i < |s.writers| && s.writers[i].phase == Committing
    case StartGet(_) => true
    case HeadRead(j) => j < |s.readers| && s.readers[j].Asked?
    case PartRead(j, n) =>
      j < |s.readers| && s.readers[j].Reading? && n < HeadParts(s.readers[j].head) && n !in s.readers[j].got
    case Finished(j) => j < |s.readers| && s.readers[j].Reading?
                        && forall n | 0 <= n < HeadParts(s.readers[j].head) :: n in s.readers[j].got
    case ReadFailed(j) => j < |s.readers| && (s.readers[j].Asked? || s.readers[j].Reading?)
  }

  function SetWriter(s: World, i: nat, w: Writer): World
    requires i < |s.writers|
  {
    s.(writers := s.writers[i := w])
  }

  function SetReader(s: World, j: nat, r: Reader): World
    requires j < |s.readers|
  {
    s.(readers := s.readers[j := r])
  }

  function Step(s: World, a: Action): World
    requires Enabled(s, a)
  {
    match a
    case StartPut(key, text, chunks, ifRev) =>
      s.(writers := s.writers + [Writer(key, text, chunks, ifRev, Listing, [], [], 0, 0)])
    case Listed(i, page, other, parts) =>
      var w := s.writers[i];
      SetWriter(s, i, w.(phase := Beginning, deletes := Deletes(page, w.key, |w.chunks|, other), parts := parts))
    case ListFailed(i) => SetWriter(s, i, s.writers[i].(phase := Failed))
    case Begun(i) =>
      SetWriter(s, i, s.writers[i].(phase := Adding, tx := s.nextTx))
        .(staged := s.staged[s.nextTx := []], nextTx := s.nextTx + 1)
    case BeginFailed(i, made) =>
      var t := SetWriter(s, i, s.writers[i].(phase := Failed));
      if made then t.(staged := s.staged[s.nextTx := []], nextTx := s.nextTx + 1) else t
    case Added(i) =>
      var w := s.writers[i];
      var last := w.acked + 1 == |w.parts|;
      SetWriter(s, i, w.(acked := w.acked + 1, phase := if last then Committing else Adding))
        .(staged := s.staged[w.tx := s.staged[w.tx] + w.parts[w.acked]])
    case AddFailed(i, kept) =>
      var w := s.writers[i];
      var t := SetWriter(s, i, w.(phase := Failed));
      if kept then t.(staged := s.staged[w.tx := s.staged[w.tx] + w.parts[w.acked]]) else t
    case Dropped(tx) => s.(staged := s.staged - {tx})
    case Committed(i, replied) =>
      var w := s.writers[i];
      SetWriter(s, i, w.(phase := if replied then Done else Failed))
        .(store := Apply(s.store, s.staged[w.tx]), staged := s.staged - {w.tx},
          committed := s.committed + [Written(w.key, w.text, |w.chunks|)])
    case CommitFailed(i) =>
      SetWriter(s, i, s.writers[i].(phase := Failed)).(staged := s.staged - {s.writers[i].tx})
    case StartGet(key) => s.(readers := s.readers + [Asked(key)])
    case HeadRead(j) =>
      var key := s.readers[j].key;
      SetReader(s, j, Reading(key, ReadHead(Lookup(s.store, key)), map[]))
    case PartRead(j, n) =>
      var r := s.readers[j];
      SetReader(s, j, r.(got := r.got[n := Lookup(s.store, PartKey(r.key, n))]))
    case Finished(j) =>
      var r := s.readers[j];
      SetReader(s, j, Answered(r.key, r.head, Assembled(r.head, InOrder(r.got, HeadParts(r.head)))))
    case ReadFailed(j) => SetReader(s, j, Refused(s.readers[j].key))
  }

  /** The steps can run one after the other from `s`. */
  predicate Runs(s: World, steps: seq<Action>)
    decreases |steps|
  {
    steps == [] || (Enabled(s, steps[0]) && Runs(Step(s, steps[0]), steps[1..]))
  }

  function After(s: World, steps: seq<Action>): World
    requires Runs(s, steps)
    decreases |steps|
  {
    if steps == [] then s else After(Step(s, steps[0]), steps[1..])
  }

  // ── What every step keeps ───────────────────────────────────────────────

  predicate Active(w: Writer) { w.phase == Adding || w.phase == Committing }

  /** Until its commit the host holds exactly the parts it acknowledged. */
  predicate WriterOk(s: World, w: Writer) {
    && WellFormed(w.text) && Chunked(w.text, w.chunks)
    && RT.Spared(w.deletes, w.key, |w.chunks|)
    && (w.phase == Beginning || Active(w) ==> w.acked <= |w.parts| && Split(w.parts, Ops(w)))
    && (w.phase == Listing || w.phase == Beginning ==> w.acked == 0)
    && (w.phase == Committing ==> w.acked == |w.parts|)
    && (Active(w) ==> w.tx < s.nextTx && (w.tx in s.staged ==> s.staged[w.tx] == Joined(w.parts[..w.acked])))
  }

  predicate IsHeader(c: Written, key: Text, head: Head) {
    c.key == key && WellFormed(c.text) && head == Header(c.chunks, Some(Number(Utf8Len(c.text))), Digest(c.text))
  }

  /** `head` is the header of a write to `key` that the host committed. */
  predicate HeaderOf(committed: seq<Written>, key: Text, head: Head) {
    exists c | c in committed :: IsHeader(c, key, head)
  }

  /** `t` is the text of `c`, a write to `key`, unless SHA-256 collides. */
  predicate IsText(c: Written, key: Text, t: Text) {
    c.key == key && (t == c.text || Collision(t, c.text))
  }

  /** `t` is the text of a write in `committed` whose header is `head`. */
  predicate TextOf(committed: seq<Written>, key: Text, head: Head, t: Text) {
    exists c | c in committed :: IsHeader(c, key, head) && IsText(c, key, t)
  }

  /** `t` passed the checks of `head`: it is the text of every write with that header. */
  ghost predicate Checked(key: Text, head: Head, t: Text) {
    head.Header? && forall c | IsHeader(c, key, head) :: IsText(c, key, t)
  }

  ghost predicate ReaderOk(r: Reader) {
    match r
    case Answered(key, head, Text(t)) => Checked(key, head, t)
    case _ => true
  }

  /** Every header in the store is a committed write's. */
  predicate Genuine(store: Store, committed: seq<Written>) {
    forall key | key in store :: GenuineAt(store, committed, key)
  }

  predicate GenuineAt(store: Store, committed: seq<Written>, key: Text) {
    var head := ReadHead(Lookup(store, key));
    head.Header? ==> HeaderOf(committed, key, head)
  }

  predicate TxOk(s: World) {
    && (forall tx | tx in s.staged :: tx < s.nextTx)
    && (forall i, j | 0 <= i < j < |s.writers| && Active(s.writers[i]) && Active(s.writers[j]) ::
          s.writers[i].tx != s.writers[j].tx)
  }

  ghost predicate Inv(s: World) {
    && Genuine(s.store, s.committed) && TxOk(s)
    && (forall i | 0 <= i < |s.writers| :: WriterOk(s, s.writers[i]))
    && (forall j | 0 <= j < |s.readers| :: ReaderOk(s.readers[j]))
  }

  // ── Writers ─────────────────────────────────────────────────────────────

  /** A step of writer `i` that leaves the others' transactions alone. */
  predicate WriterStep(s: World, t: World, i: nat) {
    && i < |s.writers| == |t.writers| && t.writers == s.writers[i := t.writers[i]]
    && s.nextTx <= t.nextTx
    && (Active(t.writers[i]) ==>
          t.writers[i].tx < t.nextTx &&
          if Active(s.writers[i]) then t.writers[i].tx == s.writers[i].tx else t.writers[i].tx >= s.nextTx)
    && (forall tx | tx in t.staged :: tx < t.nextTx)
    && (forall tx | tx in t.staged && tx < s.nextTx && (Active(s.writers[i]) ==> tx != s.writers[i].tx) ::
          tx in s.staged && s.staged[tx] == t.staged[tx])
  }

  lemma WritersKept(s: World, t: World, i: nat)
    requires Inv(s) && WriterStep(s, t, i) && WriterOk(t, t.writers[i])
    ensures TxOk(t) && forall k | 0 <= k < |t.writers| :: WriterOk(t, t.writers[k])
  {
    hide Chunked, Split, Genuine, WriteOps, Deletes, RT.Spared;
    forall k | 0 <= k < |t.writers|
      ensures WriterOk(t, t.writers[k])
    {
      if k != i {
        assert t.writers[k] == s.writers[k] && WriterOk(s, s.writers[k]);
      }
    }
  }

  lemma AddedOk(s: World, i: nat)
    requires Inv(s) && Enabled(s, Added(i))
    ensures var t := Step(s, Added(i)); WriterStep(s, t, i) && WriterOk(t, t.writers[i])
  {
    hide Chunked, Split, Genuine, WriteOps, Deletes, RT.Spared, Joined;
    var w := s.writers[i];
    assert WriterOk(s, w);
    assert w.parts[..w.acked + 1] == w.parts[..w.acked] + [w.parts[w.acked]];
    JoinedOneMore(w.parts[..w.acked], w.parts[w.acked]);
  }

  lemma ListedOk(s: World, i: nat, page: seq<Text>, other: Text -> bool, parts: seq<seq<Op>>)
    requires Inv(s) && Enabled(s, Listed(i, page, other, parts))
    ensures var t := Step(s, Listed(i, page, other, parts)); WriterStep(s, t, i) && WriterOk(t, t.writers[i])
  {
    hide Split, Genuine, Joined, WriteOps, Deletes, RT.Spared;
    var w := s.writers[i];
    assert WriterOk(s, w);
    RT.DeletesSpareOwn(page, w.key, |w.chunks|, other);
  }

  lemma BegunOk(s: World, i: nat)
    requires Inv(s) && Enabled(s, Begun(i))
    ensures var t := Step(s, Begun(i)); WriterStep(s, t, i) && WriterOk(t, t.writers[i])
  {
    hide Chunked, Split, Genuine, WriteOps, Deletes, RT.Spared;
    var w := s.writers[i];
    assert WriterOk(s, w);
    assert w.parts[..0] == [];
  }

  /** The steps after which writer `i` has stopped. */
  predicate Stops(a: Action, i: nat) {
    match a
    case ListFailed(k) => k == i
    case BeginFailed(k, _) => k == i
    case AddFailed(k, _) => k == i
    case CommitFailed(k) => k == i
    case Committed(k, _) => k == i
    case _ => false
  }

  lemma StoppedOk(s: World, a: Action, i: nat)
    requires Inv(s) && Enabled(s, a) && Stops(a, i)
    ensures var t := Step(s, a); WriterStep(s, t, i) && WriterOk(t, t.writers[i])
  {
    hide Chunked, Split, Genuine, WriteOps, Deletes, RT.Spared, Joined, Apply;
    assert WriterOk(s, s.writers[i]);
  }

  lemma StartedOk(s: World, a: Action)
    requires Inv(s) && Enabled(s, a) && a.StartPut?
    ensures var t := Step(s, a); TxOk(t) && forall k | 0 <= k < |t.writers| :: WriterOk(t, t.writers[k])
  {
    hide Chunked, Split, Genuine, WriteOps, Deletes, RT.Spared;
    NothingSpared(a.key, |a.chunks|);
    var t := Step(s, a);
    forall k | 0 <= k < |t.writers|
      ensures WriterOk(t, t.writers[k])
    {
      if k < |s.writers| {
        assert t.writers[k] == s.writers[k] && WriterOk(s, s.writers[k]);
      }
    }
  }

  lemma NothingSpared(key: Text, n: nat)
    ensures RT.Spared([], key, n)
  {}

  lemma DroppedOk(s: World, tx: nat)
    requires Inv(s) && Enabled(s, Dropped(tx))
    ensures var t := Step(s, Dropped(tx)); TxOk(t) && forall k | 0 <= k < |t.writers| :: WriterOk(t, t.writers[k])
  {
    hide Chunked, Split, Genuine, WriteOps, Deletes, RT.Spared;
    var t := Step(s, Dropped(tx));
    forall k | 0 <= k < |t.writers|
      ensures WriterOk(t, t.writers[k])
    {
      assert WriterOk(s, s.writers[k]);
    }
  }

  // ── The store ───────────────────────────────────────────────────────────

  /** What a key holds after a commit was there before or is put by it. */
  lemma {:induction false} ApplySource(store: Store, ops: seq<Op>, k: Text)
    requires forall op | op in ops :: !op.Patch?
    requires k in Apply(store, ops)
    ensures (k in store && Apply(store, ops)[k] == store[k])
         || exists op | op in ops :: op.Put? && op.key == k && op.value == Apply(store, ops)[k]
  {
    if ops != [] {
      var n := |ops| - 1;
      if k in Apply(store, ops[..n]) && Apply(store, ops[..n])[k] == Apply(store, ops)[k] {
        ApplySource(store, ops[..n], k);
      } else {
        assert ops[n].Put? && ops[n].key == k;
      }
    }
  }

  lemma PartIsNoHeader(n: nat, t: Text)
    ensures !ReadHead(Some(PartValue(n, t))).Header?
  {
    var v := PartValue(n, t);
    assert PART[0] != CHUNKS[0] && TEXT[0] != CHUNKS[0];
    assert GetField(v.fields[1..], CHUNKS) == None;
  }

  /** Of a write's operations only its own header reads as a header. */
  lemma PutHeader(w: Writer, op: Op)
    requires WellFormed(w.text) && RT.Spared(w.deletes, w.key, |w.chunks|)
    requires op in Ops(w) && op.Put? && ReadHead(Some(op.value)).Header?
    ensures IsHeader(Written(w.key, w.text, |w.chunks|), op.key, ReadHead(Some(op.value)))
  {
    hide ReadHead, PartValue, HeaderValue, PartKey, Digest, Utf8Len;
    var n := |w.chunks|;
    var i :| 0 <= i < |Ops(w)| && Ops(w)[i] == op;
    if i < n {
      PartIsNoHeader(i, w.chunks[i]);
    } else if i == n {
      RT.HeadOfHeader(n, w.text);
    } else {
      assert false;
    }
  }

  lemma CommitGenuine(store: Store, committed: seq<Written>, w: Writer)
    requires Genuine(store, committed) && WellFormed(w.text) && RT.Spared(w.deletes, w.key, |w.chunks|)
    ensures Genuine(Apply(store, Ops(w)), committed + [Written(w.key, w.text, |w.chunks|)])
  {
    hide ReadHead, IsHeader, Apply, RT.Spared;
    var after, c := Apply(store, Ops(w)), Written(w.key, w.text, |w.chunks|);
    forall key | key in after
      ensures GenuineAt(after, committed + [c], key)
    {
      hide Ops;
      NoPatches(w);
      ApplySource(store, Ops(w), key);
      if key in store && after[key] == store[key] {
        assert GenuineAt(store, committed, key);
        if ReadHead(Lookup(store, key)).Header? {
          HeaderStays(committed, c, key, ReadHead(Lookup(store, key)));
        }
      } else if ReadHead(Some(after[key])).Header? {
        var op :| op in Ops(w) && op.Put? && op.key == key && op.value == after[key];
        PutHeader(w, op);
        assert c in committed + [c];
      }
    }
  }

  lemma NoPatches(w: Writer)
    requires WellFormed(w.text) && RT.Spared(w.deletes, w.key, |w.chunks|)
    ensures forall op | op in Ops(w) :: !op.Patch?
  {
    hide PartKey, PartValue, HeaderValue;
    forall op | op in Ops(w)
      ensures !op.Patch?
    {
      var i :| 0 <= i < |Ops(w)| && Ops(w)[i] == op;
    }
  }

  lemma HeaderStays(committed: seq<Written>, c: Written, key: Text, head: Head)
    requires HeaderOf(committed, key, head)
    ensures HeaderOf(committed + [c], key, head)
  {
    hide IsHeader;
    var d :| d in committed && IsHeader(d, key, head);
    assert d in committed + [c];
  }

  /** A committing writer's transaction holds all its operations. */
  lemma StagedIsWhole(s: World, i: nat, replied: bool)
    requires Inv(s) && Enabled(s, Committed(i, replied))
    ensures var w := s.writers[i];
            && WellFormed(w.text) && RT.Spared(w.deletes, w.key, |w.chunks|) && Chunked(w.text, w.chunks)
            && w.acked == |w.parts| && s.staged[w.tx] == Ops(w)
  {
    hide Chunked, Genuine, WriteOps, RT.Spared;
    var w := s.writers[i];
    assert WriterOk(s, w);
    assert w.parts[..w.acked] == w.parts;
  }

  /** Nothing but a commit changes the store. A commit follows the
      acknowledgement of every part and applies the whole write: readers then
      find exactly its text. */
  lemma StoreChangesOnlyAtCommit(s: World, a: Action)
    requires Inv(s) && Enabled(s, a)
    ensures !a.Committed? ==> Step(s, a).store == s.store && Step(s, a).committed == s.committed
    ensures a.Committed? ==>
              var w, t := s.writers[a.i], Step(s, a);
              && w.phase == Committing && w.acked == |w.parts| && WellFormed(w.text)
              && t.store == Apply(s.store, Ops(w)) && t.committed == s.committed + [Written(w.key, w.text, |w.chunks|)]
              && GetChunked(t.store, w.key) == Text(w.text)
              && t.writers[a.i].phase == (if a.replied then Done else Failed)
  {
    hide Chunked, Genuine, WriteOps, RT.Spared, Apply, GetChunked, RT.Holds;
    if a.Committed? {
      StagedIsWhole(s, a.i, a.replied);
      var w := s.writers[a.i];
      RT.CommitHolds(s.store, w.key, w.text, w.chunks, w.ifRev, w.deletes);
      ChunkedJoins(w.text, w.chunks);
      RT.HeldIsRead(Step(s, a).store, w.key, w.text, w.chunks);
    }
  }

  lemma ChunkedJoins(text: Text, chunks: seq<Text>)
    requires Chunked(text, chunks)
    ensures Joined(chunks) == text
  {}

  // ── Readers ─────────────────────────────────────────────────────────────

  /** A read that passes the checks of a committed header returns its text. */
  lemma CheckedText(c: Written, key: Text, head: Head, got: seq<Option<Value>>, t: Text)
    requires IsHeader(c, key, head) && Assembled(head, got) == Text(t)
    ensures IsText(c, key, t)
  {
    hide PartTexts, Utf8Len, Utf8, Digest;
    if Utf8(t) == Utf8(c.text) {
      Utf8Injective(t, c.text);
    }
  }

  lemma FinishedOk(s: World, j: nat)
    requires Inv(s) && Enabled(s, Finished(j))
    ensures ReaderOk(Step(s, Finished(j)).readers[j])
  {
    hide WriterOk, TxOk, Genuine, IsHeader, IsText;
    var r := s.readers[j];
    var got := InOrder(r.got, HeadParts(r.head));
    var outcome := Assembled(r.head, got);
    if outcome.Text? {
      forall c | IsHeader(c, r.key, r.head) ensures IsText(c, r.key, outcome.text) {
        CheckedText(c, r.key, r.head, got, outcome.text);
      }
    }
  }

  lemma ReadersKept(s: World, a: Action)
    requires Inv(s) && Enabled(s, a)
    ensures var t := Step(s, a); forall j | 0 <= j < |t.readers| :: ReaderOk(t.readers[j])
  {
    hide WriterOk, TxOk, Genuine, Checked, Assembled, Apply, Chunked, Split;
    var t := Step(s, a);
    forall j | 0 <= j < |t.readers|
      ensures ReaderOk(t.readers[j])
    {
      if j < |s.readers| {
        assert ReaderOk(s.readers[j]);
        if a == Finished(j) {
          FinishedOk(s, j);
        }
      }
    }
  }

  // ── Runs ────────────────────────────────────────────────────────────────

  lemma WritersOkAfter(s: World, a: Action)
    requires Inv(s) && Enabled(s, a)
    ensures var t := Step(s, a); TxOk(t) && forall k | 0 <= k < |t.writers| :: WriterOk(t, t.writers[k])
  {
    hide Step, Enabled, WriterStep, Inv, TxOk, WriterOk;
    match a
    case StartPut(_, _, _, _) => StartedOk(s, a);
    case Listed(i, page, other, parts) => ListedOk(s, i, page, other, parts); WritersKept(s, Step(s, a), i);
    case Begun(i) => BegunOk(s, i); WritersKept(s, Step(s, a), i);
    case Added(i) => AddedOk(s, i); WritersKept(s, Step(s, a), i);
    case Dropped(tx) => DroppedOk(s, tx);
    case ListFailed(i) => StoppedOk(s, a, i); WritersKept(s, Step(s, a), i);
    case BeginFailed(i, _) => StoppedOk(s, a, i); WritersKept(s, Step(s, a), i);
    case AddFailed(i, _) => StoppedOk(s, a, i); WritersKept(s, Step(s, a), i);
    case CommitFailed(i) => StoppedOk(s, a, i); WritersKept(s, Step(s, a), i);
    case Committed(i, _) => StoppedOk(s, a, i); WritersKept(s, Step(s, a), i);
    case _ => ReadingKeepsWriters(s, a);
  }

  lemma ReadingKeepsWriters(s: World, a: Action)
    requires Inv(s) && Enabled(s, a)
    requires a.StartGet? || a.HeadRead? || a.PartRead? || a.Finished? || a.ReadFailed?
    ensures var t := Step(s, a); TxOk(t) && forall k | 0 <= k < |t.writers| :: WriterOk(t, t.writers[k])
  {
    hide Chunked, Split, Genuine, Ops, ReaderOk, RT.Spared, Joined;
    var t := Step(s, a);
    forall k | 0 <= k < |t.writers|
      ensures WriterOk(t, t.writers[k])
    {
      assert WriterOk(s, s.writers[k]);
    }
  }

  lemma GenuineAfter(s: World, a: Action)
    requires Inv(s) && Enabled(s, a)
    ensures Genuine(Step(s, a).store, Step(s, a).committed)
  {
    hide WriterOk, TxOk, Genuine, ReaderOk, Apply, Chunked, Split, Ops;
    if a.Committed? {
      StagedIsWhole(s, a.i, a.replied);
      CommitGenuine(s.store, s.committed, s.writers[a.i]);
    }
  }

  lemma StepKeepsInv(s: World, a: Action)
    requires Inv(s) && Enabled(s, a)
    ensures Inv(Step(s, a))
  {
    hide Step, Enabled, Genuine, TxOk, WriterOk, ReaderOk;
    GenuineAfter(s, a);
    WritersOkAfter(s, a);
    ReadersKept(s, a);
  }

  lemma {:induction false} RunKeepsInv(s: World, steps: seq<Action>)
    requires Inv(s) && Runs(s, steps)
    ensures Inv(After(s, steps))
    decreases |steps|
  {
    hide Inv, Step, Enabled;
    if steps != [] {
      StepKeepsInv(s, steps[0]);
      RunKeepsInv(Step(s, steps[0]), steps[1..]);
    }
  }

  /** No call under way yet, and a store whose headers were all committed. */
  predicate Fresh(s: World) {
    s.writers == [] && s.readers == [] && s.staged == map[] && Genuine(s.store, s.committed)
  }

  /** The header a reader has read. */
  function HeadOf(r: Reader): Option<Head> {
    if r.Reading? || r.Answered? then Some(r.head) else None
  }

  /** Step `i` read the header `head` for reader `j`. */
  predicate HeadReadAt(s: World, steps: seq<Action>, i: nat, j: nat, key: Text, head: Head) {
    && i < |steps| && steps[i] == HeadRead(j) && Runs(s, steps[..i])
    && head == ReadHead(Lookup(After(s, steps[..i]).store, key))
  }

  lemma RunsTo(s: World, steps: seq<Action>, i: nat)
    requires steps != [] && Enabled(s, steps[0]) && i < |steps[1..]| && Runs(Step(s, steps[0]), steps[1..][..i])
    ensures Runs(s, steps[..i + 1]) && After(s, steps[..i + 1]) == After(Step(s, steps[0]), steps[1..][..i])
  {
    hide Enabled, Step;
    assert steps[..i + 1][1..] == steps[1..][..i];
  }

  lemma HeadComesFrom(s: World, a: Action, j: nat)
    requires Enabled(s, a) && j < |Step(s, a).readers| && HeadOf(Step(s, a).readers[j]).Some?
    ensures var r := Step(s, a).readers[j];
            if a == HeadRead(j) then r.head == ReadHead(Lookup(s.store, r.key))
            else j < |s.readers| && HeadOf(s.readers[j]) == HeadOf(r) && s.readers[j].key == r.key
  {
    hide Chunked, Split, WriteOps, Deletes, ReadHead, Assembled, Apply;
  }

  /** A header a reader holds was read in a step of the run. */
  lemma {:induction false} HeadWasRead(s: World, steps: seq<Action>, j: nat)
    requires Runs(s, steps) && j < |After(s, steps).readers| && HeadOf(After(s, steps).readers[j]).Some?
    ensures var r := After(s, steps).readers[j];
            || (j < |s.readers| && HeadOf(s.readers[j]) == HeadOf(r) && s.readers[j].key == r.key)
            || (exists i: nat :: HeadReadAt(s, steps, i, j, r.key, r.head))
    decreases |steps|
  {
    hide Enabled, Step, ReadHead;
    if steps != [] {
      var t, rest := Step(s, steps[0]), steps[1..];
      HeadWasRead(t, rest, j);
      var r := After(s, steps).readers[j];
      if i: nat :| HeadReadAt(t, rest, i, j, r.key, r.head) {
        RunsTo(s, steps, i);
        assert HeadReadAt(s, steps, i + 1, j, r.key, r.head);
      } else {
        HeadComesFrom(s, steps[0], j);
        assert steps[..0] == [];
        assert steps[0] == HeadRead(j) ==> HeadReadAt(s, steps, 0, j, r.key, r.head);
      }
    }
  }

  /** In every run, a read that returns a text read a header at some step, and
      the text is that of a write whose header it is and which the host had
      committed before that step, or SHA-256 collides. */
  lemma ReadsAreCommittedTexts(s: World, steps: seq<Action>, j: nat)
    requires Fresh(s) && Runs(s, steps) && j < |After(s, steps).readers|
    requires After(s, steps).readers[j].Answered? && After(s, steps).readers[j].outcome.Text?
    ensures var r := After(s, steps).readers[j];
            exists i: nat :: HeadReadAt(s, steps, i, j, r.key, r.head)
                        && TextOf(After(s, steps[..i]).committed, r.key, r.head, r.outcome.text)
  {
    hide Genuine, Runs, After, WriterOk, TextOf, Checked, HeadReadAt;
    var r := After(s, steps).readers[j];
    RunKeepsInv(s, steps);
    assert ReaderOk(r);
    HeadWasRead(s, steps, j);
    var i: nat :| HeadReadAt(s, steps, i, j, r.key, r.head);
    CommittedBefore(s, steps, i, j, r.key, r.head, r.outcome.text);
  }

  lemma CommittedBefore(s: World, steps: seq<Action>, i: nat, j: nat, key: Text, head: Head, t: Text)
    requires Fresh(s) && HeadReadAt(s, steps, i, j, key, head) && Checked(key, head, t)
    ensures TextOf(After(s, steps[..i]).committed, key, head, t)
  {
    hide Runs, After, WriterOk, ReadHead, IsHeader, IsText;
    RunKeepsInv(s, steps[..i]);
    var w := After(s, steps[..i]);
    if key in w.store {
      assert GenuineAt(w.store, w.committed, key);
    } else {
      NothingIsNoHeader();
    }
    var c :| c in w.committed && IsHeader(c, key, head);
    assert IsText(c, key, t);
  }

  lemma NothingIsNoHeader()
    ensures !ReadHead(None).Header?
  {}

  // ── A read with no commit under it ──────────────────────────────────────

  /** What a reader of `key` has seen is what the store holds. */
  predicate Faithful(store: Store, key: Text, text: Text, r: Reader) {
    match r
    case Asked(k) => k == key
    case Reading(k, head, got) =>
      && k == key && head == ReadHead(Lookup(store, key))
      && forall n | n in got :: got[n] == Lookup(store, PartKey(key, n))
    case Answered(k, _, outcome) => k == key && outcome == Text(text)
    case Refused(k) => k == key
  }

  lemma FaithfulStep(s: World, a: Action, j: nat, key: Text, text: Text)
    requires Enabled(s, a) && !a.Committed? && j < |s.readers|
    requires GetChunked(s.store, key) == Text(text) && Faithful(s.store, key, text, s.readers[j])
    ensures Step(s, a).store == s.store
    ensures j < |Step(s, a).readers| && Faithful(s.store, key, text, Step(s, a).readers[j])
  {
    hide Chunked, Split, PartKey, ReadHead, Assembled, WriteOps, Deletes;
    if a == Finished(j) {
      var r := s.readers[j];
      var n := HeadParts(r.head);
      assert InOrder(r.got, n) == Reads(s.store, key, n);
      if !r.head.Header? {
        NoHeaderNoText(r.head, [], text);
      }
    }
  }

  lemma NoHeaderNoText(head: Head, got: seq<Option<Value>>, text: Text)
    requires !head.Header?
    ensures Assembled(head, got) != Text(text)
  {}

  /** A read during which no commit happens returns what was whole when it
      started, or is refused by the host, or is still waiting. */
  lemma {:induction false} QuietRead(s: World, steps: seq<Action>, j: nat, key: Text, text: Text)
    requires Runs(s, steps) && (forall a | a in steps :: !a.Committed?) && j < |s.readers|
    requires GetChunked(s.store, key) == Text(text) && Faithful(s.store, key, text, s.readers[j])
    ensures After(s, steps).store == s.store
    ensures j < |After(s, steps).readers| && Faithful(s.store, key, text, After(s, steps).readers[j])
    decreases |steps|
  {
    hide Step, Enabled, Faithful, GetChunked;
    if steps != [] {
      FaithfulStep(s, steps[0], j, key, text);
      QuietRead(Step(s, steps[0]), steps[1..], j, key, text);
    }
  }
}
