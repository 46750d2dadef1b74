/** Writes and reads get done, and a write that stopped stays stopped. */
module ChunkedProgress {
  import opened Basics
  import opened Utf16
  import opened Json
  import opened Parts
  import opened Chunks
  import opened ChunkedStore
  import opened ChunkedRun

  // ── Runs put together ───────────────────────────────────────────────────

  lemma {:induction false} RunsBoth(s: World, a: seq<Action>, b: seq<Action>)
    requires Runs(s, a) && Runs(After(s, a), b)
    ensures Runs(s, a + b) && After(s, a + b) == After(After(s, a), b)
    decreases |a|
  {
    hide Enabled, Step;
    if a == [] {
      assert a + b == b;
    } else {
      assert (a + b)[1..] == a[1..] + b;
      RunsBoth(Step(s, a[0]), a[1..], b);
    }
  }

  lemma {:induction false} RunsParts(s: World, a: seq<Action>, b: seq<Action>)
    requires Runs(s, a + b)
    ensures Runs(s, a) && Runs(After(s, a), b) && After(s, a + b) == After(After(s, a), b)
    decreases |a|
  {
    hide Enabled, Step;
    if a == [] {
      assert a + b == b;
    } else {
      assert (a + b)[1..] == a[1..] + b;
      RunsParts(Step(s, a[0]), a[1..], b);
    }
  }

  lemma RunsOne(s: World, a: Action)
    requires Enabled(s, a)
    ensures Runs(s, [a]) && After(s, [a]) == Step(s, a)
  {
    hide Enabled, Step;
    assert [a][1..] == [];
  }

  /** Step `k` of a run is enabled where it is taken, and the rest runs on. */
  lemma RunsAt(s: World, steps: seq<Action>, k: nat)
    requires Runs(s, steps) && k < |steps|
    ensures Runs(s, steps[..k]) && Enabled(After(s, steps[..k]), steps[k])
    ensures var t, rest := Step(After(s, steps[..k]), steps[k]), steps[k + 1..];
            Runs(t, rest) && After(t, rest) == After(s, steps)
  {
    hide Enabled, Step;
    assert steps == steps[..k] + steps[k..] && steps[k..][1..] == steps[k + 1..];
    RunsParts(s, steps[..k], steps[k..]);
  }

  // ── A write that stopped ────────────────────────────────────────────────

  predicate Over(w: Writer) { w.phase == Done || w.phase == Failed }

  /** A step of writer `i`. */
  predicate Moves(a: Action, i: nat) {
    match a
    case Listed(k, _, _, _) => k == i
    case ListFailed(k) => k == i
    case Begun(k) => k == i
    case BeginFailed(k, _) => k == i
    case Added(k) => k == i
    case AddFailed(k, _) => k == i
    case Committed(k, _) => k == i
    case CommitFailed(k) => k == i
    case _ => false
  }

  lemma StepEnds(s: World, a: Action, i: nat)
    requires Enabled(s, a) && i < |s.writers|
    ensures i < |Step(s, a).writers|
    ensures Stops(a, i) ==> Over(Step(s, a).writers[i])
    ensures Over(s.writers[i]) ==> !Moves(a, i) && Step(s, a).writers[i] == s.writers[i]
  {
    hide WriteOps, Deletes, Split, Chunked, Apply, Assembled;
  }

  lemma {:induction false} OverForGood(s: World, steps: seq<Action>, i: nat, k: nat)
    requires Runs(s, steps) && i < |s.writers| && Over(s.writers[i]) && k < |steps|
    ensures !Moves(steps[k], i)
    decreases |steps|
  {
    hide Enabled, Step;
    StepEnds(s, steps[0], i);
    if k > 0 {
      OverForGood(Step(s, steps[0]), steps[1..], i, k - 1);
    }
  }

  lemma StopsItsOwn(s: World, a: Action, i: nat)
    requires Enabled(s, a) && Stops(a, i)
    ensures i < |s.writers|
  {
    hide WriteOps, Deletes, Split, Chunked;
  }

  /** In every run: after any of its calls failed, and after its commit, a write
      takes no further step. So it commits once at most, and never after a failure. */
  lemma StopsForGood(s: World, steps: seq<Action>, j: nat, k: nat, i: nat)
    requires Runs(s, steps) && j < k < |steps| && Stops(steps[j], i)
    ensures !Moves(steps[k], i)
  {
    hide Enabled, Step, Runs, After;
    RunsAt(s, steps, j);
    var u := After(s, steps[..j]);
    StopsItsOwn(u, steps[j], i);
    StepEnds(u, steps[j], i);
    OverForGood(Step(u, steps[j]), steps[j + 1..], i, k - j - 1);
    assert steps[j + 1..][k - j - 1] == steps[k];
  }

  // ── A transaction that is gone ──────────────────────────────────────────

  predicate Gone(s: World, tx: nat) { tx < s.nextTx && tx !in s.staged }

  lemma StepGone(s: World, a: Action, tx: nat)
    requires Inv(s) && Enabled(s, a)
    ensures Gone(s, tx) ==> Gone(Step(s, a), tx)
    ensures a == Dropped(tx) ==> Gone(Step(s, a), tx)
    ensures (a.Committed? || a.CommitFailed?) && s.writers[a.i].tx == tx ==> Gone(Step(s, a), tx)
  {
    hide WriteOps, Deletes, Split, Chunked, Apply, Assembled, Genuine, RT.Spared, ReaderOk;
    if a.Committed? || a.CommitFailed? {
      assert WriterOk(s, s.writers[a.i]);
    }
  }

  lemma {:induction false} GoneForGood(s: World, steps: seq<Action>, tx: nat)
    requires Inv(s) && Runs(s, steps) && Gone(s, tx)
    ensures Gone(After(s, steps), tx)
    decreases |steps|
  {
    hide Inv, Enabled, Step, Gone;
    if steps != [] {
      StepGone(s, steps[0], tx);
      StepKeepsInv(s, steps[0]);
      GoneForGood(Step(s, steps[0]), steps[1..], tx);
    }
  }

  lemma CommitsStaged(s: World, a: Action)
    requires Enabled(s, a)
    ensures a.Committed? || a.CommitFailed? ==> a.i < |s.writers|
    ensures a.Committed? ==> s.writers[a.i].tx in s.staged
  {
    hide WriteOps, Deletes, Split, Chunked;
  }

  /** The step ends the transaction `tx`. */
  predicate EndsTx(s: World, a: Action, tx: nat)
    requires Enabled(s, a)
  {
    CommitsStaged(s, a);
    a == Dropped(tx) || ((a.Committed? || a.CommitFailed?) && s.writers[a.i].tx == tx)
  }

  /** In every run: a transaction that the host dropped, or that was committed or
      failed to commit, is never committed after that, by any writer. */
  lemma GoneNeverCommits(s: World, a: Action, later: seq<Action>, b: Action, tx: nat)
    requires Inv(s) && Enabled(s, a) && EndsTx(s, a, tx) && Runs(Step(s, a), later)
    requires b.Committed? && Enabled(After(Step(s, a), later), b)
    ensures var t := After(Step(s, a), later); b.i < |t.writers| && t.writers[b.i].tx != tx
  {
    hide Inv, Enabled, Step, Runs, After, Gone;
    StepGone(s, a, tx);
    StepKeepsInv(s, a);
    GoneForGood(Step(s, a), later, tx);
    CommitsStaged(After(Step(s, a), later), b);
    IsGone(After(Step(s, a), later), tx);
  }

  lemma IsGone(s: World, tx: nat)
    ensures Gone(s, tx) ==> tx !in s.staged
  {}

  // ── A read asks for its parts only ──────────────────────────────────────

  predicate Within(r: Reader) {
    r.Reading? ==> forall n | n in r.got :: n < HeadParts(r.head)
  }

  predicate AllWithin(s: World) {
    forall j | 0 <= j < |s.readers| :: Within(s.readers[j])
  }

  lemma StepWithin(s: World, a: Action)
    requires Enabled(s, a) && AllWithin(s)
    ensures AllWithin(Step(s, a))
  {
    hide WriteOps, Deletes, Split, Chunked, Apply, Assembled, Lookup, ReadHead, HeadParts;
  }

  /** In every run a read asks for the parts its header counts and no other. */
  lemma {:induction false} AsksForItsParts(s: World, steps: seq<Action>)
    requires AllWithin(s) && Runs(s, steps)
    ensures AllWithin(After(s, steps))
    decreases |steps|
  {
    hide Enabled, Step, AllWithin;
    if steps != [] {
      StepWithin(s, steps[0]);
      AsksForItsParts(Step(s, steps[0]), steps[1..]);
    }
  }

  // ── A write alone ───────────────────────────────────────────────────────

  function Adds(i: nat, n: nat): seq<Action> {
    if n == 0 then [] else [Added(i)] + Adds(i, n - 1)
  }

  /** The rest of the parts are acknowledged one by one. */
  lemma {:induction false} AddsRun(s: World, i: nat)
    requires i < |s.writers| && s.writers[i].phase == Adding && s.writers[i].tx in s.staged
    requires s.writers[i].acked < |s.writers[i].parts|
    ensures var w, n := s.writers[i], |s.writers[i].parts| - s.writers[i].acked;
            && Runs(s, Adds(i, n))
            && var t := After(s, Adds(i, n));
               && w.tx in t.staged
               && t == s.(writers := s.writers[i := w.(acked := |w.parts|, phase := Committing)],
                          staged := s.staged[w.tx := t.staged[w.tx]])
    decreases |s.writers[i].parts| - s.writers[i].acked
  {
    var w, n := s.writers[i], |s.writers[i].parts| - s.writers[i].acked;
    var u := Step(s, Added(i));
    assert Adds(i, n)[0] == Added(i) && Adds(i, n)[1..] == Adds(i, n - 1);
    if n == 1 {
      assert Adds(i, 0) == [];
    } else {
      AddsRun(u, i);
    }
  }

  function WriteSteps(i: nat, key: Text, text: Text, chunks: seq<Text>, ifRev: Option<int>, page: seq<Text>,
                      other: Text -> bool, parts: seq<seq<Op>>): seq<Action> {
    [StartPut(key, text, chunks, ifRev), Listed(i, page, other, parts), Begun(i)] + Adds(i, |parts|)
    + [Committed(i, true)]
  }

  lemma SplitOfSome(parts: seq<seq<Op>>, ops: seq<Op>)
    requires Split(parts, ops) && ops != []
    ensures parts != []
  {}

  function Begins(key: Text, text: Text, chunks: seq<Text>, ifRev: Option<int>): Writer {
    Writer(key, text, chunks, ifRev, Listing, [], [], 0, 0)
  }

  lemma ListStep(s: World, i: nat, page: seq<Text>, other: Text -> bool, parts: seq<seq<Op>>)
    requires i < |s.writers| && s.writers[i].phase == Listing && WellFormed(s.writers[i].text)
    requires var w := s.writers[i];
             Split(parts, WriteOps(w.key, w.text, w.chunks, w.ifRev) + Deletes(page, w.key, |w.chunks|, other))
    ensures Enabled(s, Listed(i, page, other, parts))
    ensures var w, d := s.writers[i], Deletes(page, s.writers[i].key, |s.writers[i].chunks|, other);
            Step(s, Listed(i, page, other, parts))
            == s.(writers := s.writers[i := w.(phase := Beginning, deletes := d, parts := parts)])
  {
    hide WriteOps, Deletes, Split, Chunked;
  }

  lemma BeginStep(s: World, i: nat)
    requires i < |s.writers| && s.writers[i].phase == Beginning
    ensures Enabled(s, Begun(i))
    ensures Step(s, Begun(i)) == s.(writers := s.writers[i := s.writers[i].(phase := Adding, tx := s.nextTx)],
                                    staged := s.staged[s.nextTx := []], nextTx := s.nextTx + 1)
  {
    hide WriteOps, Deletes, Split, Chunked;
  }

  lemma RunsThree(s: World, a: Action, b: Action, c: Action)
    requires Enabled(s, a) && Enabled(Step(s, a), b) && Enabled(Step(Step(s, a), b), c)
    ensures Runs(s, [a, b, c]) && After(s, [a, b, c]) == Step(Step(Step(s, a), b), c)
  {
    hide Enabled, Step, Runs, After;
    RunsOne(s, a);
    RunsOne(Step(s, a), b);
    RunsBoth(s, [a], [b]);
    RunsOne(Step(Step(s, a), b), c);
    RunsBoth(s, [a] + [b], [c]);
    assert [a] + [b] + [c] == [a, b, c];
  }

  /** From the call to the acknowledged transaction. */
  lemma OpensRun(s: World, key: Text, text: Text, chunks: seq<Text>, ifRev: Option<int>, page: seq<Text>,
                 other: Text -> bool, parts: seq<seq<Op>>)
    requires WellFormed(text) && Utf8Len(text) <= 1048576 && Chunked(text, chunks)
    requires Split(parts, WriteOps(key, text, chunks, ifRev) + Deletes(page, key, |chunks|, other))
    ensures var i := |s.writers|;
            var first := [StartPut(key, text, chunks, ifRev), Listed(i, page, other, parts), Begun(i)];
            var d := Deletes(page, key, |chunks|, other);
            && Runs(s, first)
            && After(s, first)
               == s.(writers := s.writers + [Writer(key, text, chunks, ifRev, Adding, d, parts, 0, s.nextTx)],
                     staged := s.staged[s.nextTx := []], nextTx := s.nextTx + 1)
  {
    hide WriteOps, Deletes, Split, Chunked, WellFormed, Utf8Len;
    var i, a := |s.writers|, StartPut(key, text, chunks, ifRev);
    var t := Step(s, a);
    assert t == s.(writers := s.writers + [Begins(key, text, chunks, ifRev)]);
    hide Enabled, Step;
    ListStep(t, i, page, other, parts);
    var u := Step(t, Listed(i, page, other, parts));
    BeginStep(u, i);
    RunsThree(s, a, Listed(i, page, other, parts), Begun(i));
  }

  /** The last step: everything is staged, and the commit is acknowledged. */
  lemma CommitStep(s: World, i: nat)
    requires Inv(s) && i < |s.writers| && s.writers[i].phase == Committing && s.writers[i].tx in s.staged
    ensures Enabled(s, Committed(i, true))
    ensures var w, t := s.writers[i], Step(s, Committed(i, true));
            && WellFormed(w.text) && t.store == Apply(s.store, Ops(w)) && GetChunked(t.store, w.key) == Text(w.text)
            && t == s.(writers := s.writers[i := w.(phase := Done)], staged := s.staged - {w.tx}, store := t.store,
                       committed := s.committed + [Written(w.key, w.text, |w.chunks|)])
  {
    hide Inv, Ops, WriteOps, Deletes, Split, Chunked, WellFormed, Utf8Len, Apply, GetChunked;
    StoreChangesOnlyAtCommit(s, Committed(i, true));
  }

  /** What a write has added to the world before its commit. */
  predicate Uploaded(s: World, v: World, w: Writer) {
    && v == s.(writers := s.writers + [w], staged := v.staged, nextTx := s.nextTx + 1)
    && w.phase == Committing && w.tx == s.nextTx && w.tx in v.staged && v.staged - {w.tx} == s.staged
  }

  /** Up to the commit. */
  lemma Uploads(s: World, key: Text, text: Text, chunks: seq<Text>, ifRev: Option<int>, page: seq<Text>,
                other: Text -> bool, parts: seq<seq<Op>>)
    requires Inv(s) && WellFormed(text) && Utf8Len(text) <= 1048576 && Chunked(text, chunks)
    requires Split(parts, WriteOps(key, text, chunks, ifRev) + Deletes(page, key, |chunks|, other))
    ensures var i := |s.writers|;
            var first := [StartPut(key, text, chunks, ifRev), Listed(i, page, other, parts), Begun(i)];
            var steps := first + Adds(i, |parts|);
            var d := Deletes(page, key, |chunks|, other);
            && Runs(s, steps)
            && Uploaded(s, After(s, steps), Writer(key, text, chunks, ifRev, Committing, d, parts, |parts|, s.nextTx))
  {
    hide WriteOps, Deletes, Split, Chunked, WellFormed, Utf8Len, Genuine, WriterOk, ReaderOk;
    hide Runs, After, Enabled, Step, Adds;
    var i := |s.writers|;
    var first := [StartPut(key, text, chunks, ifRev), Listed(i, page, other, parts), Begun(i)];
    OpensRun(s, key, text, chunks, ifRev, page, other, parts);
    SplitOfSome(parts, WriteOps(key, text, chunks, ifRev) + Deletes(page, key, |chunks|, other));
    AddsRun(After(s, first), i);
    RunsBoth(s, first, Adds(i, |parts|));
    assert s.nextTx !in s.staged;
  }

  /** From every reachable state a write whose calls all succeed commits its text
      and is done; nothing of it stays at the host, and nobody else is touched. */
  lemma WriteAlone(s: World, key: Text, text: Text, chunks: seq<Text>, ifRev: Option<int>, page: seq<Text>,
                   other: Text -> bool, parts: seq<seq<Op>>)
    requires Inv(s) && WellFormed(text) && Utf8Len(text) <= 1048576 && Chunked(text, chunks)
    requires Split(parts, WriteOps(key, text, chunks, ifRev) + Deletes(page, key, |chunks|, other))
    ensures var i, steps := |s.writers|, WriteSteps(|s.writers|, key, text, chunks, ifRev, page, other, parts);
            && Runs(s, steps)
            && var t := After(s, steps);
               && t.store == Apply(s.store, WriteOps(key, text, chunks, ifRev) + Deletes(page, key, |chunks|, other))
               && GetChunked(t.store, key) == Text(text)
               && |t.writers| == i + 1 && t.writers[..i] == s.writers && t.writers[i].phase == Done
               && t.readers == s.readers && t.staged == s.staged
               && t.committed == s.committed + [Written(key, text, |chunks|)]
  {
    hide WriteOps, Deletes, Split, Chunked, WellFormed, Utf8Len, Apply, GetChunked, Inv, Runs, After, Enabled, Step;
    hide Adds;
    var i := |s.writers|;
    var front := [StartPut(key, text, chunks, ifRev), Listed(i, page, other, parts), Begun(i)] + Adds(i, |parts|);
    Uploads(s, key, text, chunks, ifRev, page, other, parts);
    var v := After(s, front);
    RunKeepsInv(s, front);
    CommitStep(v, i);
    RunsOne(v, Committed(i, true));
    RunsBoth(s, front, [Committed(i, true)]);
  }

  // ── A read alone ────────────────────────────────────────────────────────

  function PartReads(j: nat, order: seq<nat>): seq<Action> {
    if order == [] then [] else [PartRead(j, order[0])] + PartReads(j, order[1..])
  }

  /** The parts answered so far, in whatever order. */
  function Answers(store: Store, key: Text, ns: seq<nat>): map<nat, Option<Value>> {
    if ns == [] then map[] else map[ns[0] := Lookup(store, PartKey(key, ns[0]))] + Answers(store, key, ns[1..])
  }

  lemma {:induction false} AnswersHold(store: Store, key: Text, ns: seq<nat>)
    ensures forall n :: n in Answers(store, key, ns) <==> n in ns
    ensures forall n | n in ns :: Answers(store, key, ns)[n] == Lookup(store, PartKey(key, n))
  {
    hide Lookup, PartKey;
    if ns != [] {
      AnswersHold(store, key, ns[1..]);
      assert forall n :: n in ns <==> n == ns[0] || n in ns[1..];
    }
  }

  lemma PartStep(s: World, j: nat, n: nat)
    requires j < |s.readers| && s.readers[j].Reading?
    requires n < HeadParts(s.readers[j].head) && n !in s.readers[j].got
    ensures Enabled(s, PartRead(j, n))
    ensures var r := s.readers[j];
            Step(s, PartRead(j, n))
            == s.(readers := s.readers[j := r.(got := r.got[n := Lookup(s.store, PartKey(r.key, n))])])
  {
    hide Lookup, PartKey, HeadParts;
  }

  lemma AnswersOn(store: Store, key: Text, n: nat, rest: seq<nat>, got: map<nat, Option<Value>>)
    requires n !in rest
    ensures got[n := Lookup(store, PartKey(key, n))] + Answers(store, key, rest)
         == got + Answers(store, key, [n] + rest)
  {
    AnswersHold(store, key, rest);
    hide Lookup, PartKey;
    assert ([n] + rest)[1..] == rest;
  }

  lemma {:induction false} PartsRun(s: World, j: nat, order: seq<nat>)
    requires j < |s.readers| && s.readers[j].Reading? && Distinct(order)
    requires forall n | n in order :: n < HeadParts(s.readers[j].head) && n !in s.readers[j].got
    ensures Runs(s, PartReads(j, order))
    ensures var r := s.readers[j];
            After(s, PartReads(j, order))
            == s.(readers := s.readers[j := r.(got := r.got + Answers(s.store, r.key, order))])
    decreases |order|
  {
    hide Lookup, PartKey, Enabled, Step, Runs, After, HeadParts;
    var r := s.readers[j];
    if order == [] {
      RunsNone(s);
      assert r.got + map[] == r.got;
      assert s.readers[j := r] == s.readers;
    } else {
      var n, rest := order[0], order[1..];
      assert n in order && forall m | m in rest :: m in order;
      FirstApart(order);
      PartStep(s, j, n);
      var u := Step(s, PartRead(j, n));
      PartsRun(u, j, rest);
      RunsOne(s, PartRead(j, n));
      RunsBoth(s, [PartRead(j, n)], PartReads(j, rest));
      assert order == [n] + rest;
      AnswersOn(s.store, r.key, n, rest, r.got);
    }
  }

  lemma RunsNone(s: World)
    ensures Runs(s, []) && After(s, []) == s
  {}

  lemma FirstApart(order: seq<nat>)
    requires order != [] && Distinct(order)
    ensures order[0] !in order[1..] && Distinct(order[1..])
  {}

  lemma AskStep(s: World, key: Text)
    ensures Enabled(s, StartGet(key))
    ensures var j, t := |s.readers|, Step(s, StartGet(key));
            && Enabled(t, HeadRead(j))
            && Step(t, HeadRead(j))
               == s.(readers := s.readers + [Reading(key, ReadHead(Lookup(s.store, key)), map[])])
  {
    hide Lookup, ReadHead;
    var j, t := |s.readers|, Step(s, StartGet(key));
    assert Step(t, HeadRead(j)).readers == s.readers + [Reading(key, ReadHead(Lookup(s.store, key)), map[])];
  }

  lemma FinishStep(s: World, j: nat, order: seq<nat>)
    requires j < |s.readers| && s.readers[j].Reading?
    requires var r := s.readers[j];
             r.head == ReadHead(Lookup(s.store, r.key)) && r.got == Answers(s.store, r.key, order)
    requires forall n :: n in order <==> n < HeadParts(s.readers[j].head)
    ensures Enabled(s, Finished(j))
    ensures var r := s.readers[j];
            Step(s, Finished(j)) == s.(readers := s.readers[j := Answered(r.key, r.head, GetChunked(s.store, r.key))])
  {
    hide Lookup, PartKey, ReadHead, Assembled;
    var r := s.readers[j];
    AnswersHold(s.store, r.key, order);
    assert InOrder(r.got, HeadParts(r.head)) == Reads(s.store, r.key, HeadParts(r.head));
    assert !r.head.Header? ==> Reads(s.store, r.key, 0) == [];
  }

  /** From every state a read whose calls all succeed, its parts answered in any
      order, answers what a read of the store at that moment answers. */
  lemma ReadAlone(s: World, key: Text, order: seq<nat>)
    requires Distinct(order) && forall n :: n in order <==> n < HeadParts(ReadHead(Lookup(s.store, key)))
    ensures var j := |s.readers|;
            var steps := [StartGet(key), HeadRead(j)] + PartReads(j, order) + [Finished(j)];
            && Runs(s, steps)
            && After(s, steps) == s.(readers := s.readers
                 + [Answered(key, ReadHead(Lookup(s.store, key)), GetChunked(s.store, key))])
  {
    hide Lookup, PartKey, ReadHead, HeadParts, GetChunked, Enabled, Step, Runs, After, Answers;
    var j, head := |s.readers|, ReadHead(Lookup(s.store, key));
    var a, b := StartGet(key), HeadRead(j);
    AskStep(s, key);
    RunsOne(s, a);
    RunsOne(Step(s, a), b);
    RunsBoth(s, [a], [b]);
    assert [a] + [b] == [a, b];
    var u := Step(Step(s, a), b);
    PartsRun(u, j, order);
    var v := After(u, PartReads(j, order));
    RunsBoth(s, [a, b], PartReads(j, order));
    NothingAdded(Answers(s.store, key, order));
    FinishStep(v, j, order);
    RunsOne(v, Finished(j));
    RunsBoth(s, [a, b] + PartReads(j, order), [Finished(j)]);
  }

  lemma NothingAdded(got: map<nat, Option<Value>>)
    ensures map[] + got == got
  {}

  /** The whole protocol: from every reachable state, a write of a text and then a
      read of its key, with nothing between and no failure, answers the text. */
  lemma WrittenIsRead(s: World, key: Text, text: Text, chunks: seq<Text>, ifRev: Option<int>, page: seq<Text>,
                      other: Text -> bool, parts: seq<seq<Op>>, order: seq<nat>)
    requires Inv(s) && WellFormed(text) && Utf8Len(text) <= 1048576 && Chunked(text, chunks)
    requires Split(parts, WriteOps(key, text, chunks, ifRev) + Deletes(page, key, |chunks|, other))
    requires Distinct(order) && forall n :: n in order <==> n < |chunks|
    ensures var i, j := |s.writers|, |s.readers|;
            var steps := WriteSteps(i, key, text, chunks, ifRev, page, other, parts)
                       + ([StartGet(key), HeadRead(j)] + PartReads(j, order) + [Finished(j)]);
            && Runs(s, steps) && j < |After(s, steps).readers|
            && var r := After(s, steps).readers[j];
               r.Answered? && r.key == key && r.outcome == ChunkedStore.Text(text)
  {
    hide WriteOps, Deletes, Split, WellFormed, Utf8Len, Apply, GetChunked, Inv, Runs, After, ReadHead, Lookup, RT.Holds;
    hide RT.Spared, Answers, HeaderValue;
    WriteAlone(s, key, text, chunks, ifRev, page, other, parts);
    var first := WriteSteps(|s.writers|, key, text, chunks, ifRev, page, other, parts);
    var t := After(s, first);
    RT.DeletesSpareOwn(page, key, |chunks|, other);
    RT.CommitHolds(s.store, key, text, chunks, ifRev, Deletes(page, key, |chunks|, other));
    HeadOfHeld(t.store, key, text, chunks);
    ReadAlone(t, key, order);
    var j := |s.readers|;
    RunsBoth(s, first, [StartGet(key), HeadRead(j)] + PartReads(j, order) + [Finished(j)]);
  }

  lemma HeadOfHeld(store: Store, key: Text, text: Text, chunks: seq<Text>)
    requires WellFormed(text) && RT.Holds(store, key, text, chunks)
    ensures HeadParts(ReadHead(Lookup(store, key))) == |chunks|
  {
    hide HeaderValue, ReadHead, Digest;
    RT.HeadOfHeader(|chunks|, text);
  }

  /** Every call a write or a read waits for may fail, and then it has failed. */
  lemma EveryCallMayFail(s: World, i: nat)
    ensures i < |s.writers| && s.writers[i].phase == Listing ==>
              Enabled(s, ListFailed(i)) && Step(s, ListFailed(i)).writers[i].phase == Failed
    ensures i < |s.writers| && s.writers[i].phase == Beginning ==> forall made ::
              Enabled(s, BeginFailed(i, made)) && Step(s, BeginFailed(i, made)).writers[i].phase == Failed
    ensures i < |s.writers| && s.writers[i].phase == Committing ==>
              Enabled(s, CommitFailed(i)) && Step(s, CommitFailed(i)).writers[i].phase == Failed
    ensures i < |s.writers| && s.writers[i].phase == Adding && s.writers[i].acked < |s.writers[i].parts| ==>
              Enabled(s, AddFailed(i, false)) && Step(s, AddFailed(i, false)).writers[i].phase == Failed
    ensures i < |s.readers| && (s.readers[i].Asked? || s.readers[i].Reading?) ==>
              Enabled(s, ReadFailed(i)) && Step(s, ReadFailed(i)).readers[i] == Reader.Refused(s.readers[i].key)
  {
    hide WriteOps, Deletes, Split, Chunked, Apply, Assembled;
  }

  /** A begin that failed left a new empty transaction at the host, or nothing. */
  lemma LostBegin(s: World, i: nat, made: bool)
    requires Inv(s) && Enabled(s, BeginFailed(i, made))
    ensures var t := Step(s, BeginFailed(i, made));
            && s.nextTx !in s.staged && t.staged == (if made then s.staged[s.nextTx := []] else s.staged)
            && t.nextTx == s.nextTx + if made then 1 else 0
  {
    hide WriteOps, Deletes, Split, Chunked, Genuine, WriterOk, ReaderOk;
  }

  /** An add that failed added its part at the host, or nothing. */
  lemma LostAdd(s: World, i: nat, kept: bool)
    requires Enabled(s, AddFailed(i, kept))
    ensures var w, t := s.writers[i], Step(s, AddFailed(i, kept));
            && w.acked < |w.parts| && (kept ==> w.tx in s.staged)
            && t.staged == if kept then s.staged[w.tx := s.staged[w.tx] + w.parts[w.acked]] else s.staged
  {
    hide WriteOps, Deletes, Split, Chunked;
  }
}
