/** A card that subscribes to one source again from inside its own onError. */
module Card {
  import opened Basics
  import opened Watch
  import opened Registry
  import opened RegistryRuns

  predicate AnyLive(r: Reg) {
    exists i | 0 <= i < |r.watches| :: r.watches[i].live
  }

  function JoinCount(acts: seq<Act>): nat {
    if acts == [] then 0 else (if acts[0].Join? then 1 else 0) + JoinCount(acts[1..])
  }

  /** The card subscribes when it has no live watch, and once at most from
      inside an onError. It may call any stop at any time, there too. */
  predicate CardLike(r: Reg, h: Happening) {
    match h
    case Do(Join) => !AnyLive(r)
    case RefusedAt(_, _, _, acts) => JoinCount(acts) <= 1
    case TimerAt(_, _, acts) => JoinCount(acts) <= 1
    case _ => true
  }

  predicate CardRun(hs: seq<Happening>) {
    hs == [] || (CardRun(hs[..|hs| - 1]) && CardLike(RegAfter(hs[..|hs| - 1]), hs[|hs| - 1]))
  }

  // ── What every happening keeps ──────────────────────────────────────────

  /** The newest watch is the only one that may be live, the last of the list,
      and the only one of the list that may be retrying. */
  predicate OneWatch(r: Reg) {
    && InRange(r) && Rising(r.list)
    && (forall i | 0 <= i < |r.watches| && r.watches[i].live ::
          && i == |r.watches| - 1 && r.list != [] && r.list[|r.list| - 1] == i
          && r.watches[i].now != Ended)
    && RetryingIsLive(r)
  }

  lemma RangeOf(r: Reg)
    requires OneWatch(r)
    ensures InRange(r)
  {}

  lemma OneWatchFilters(r: Reg)
    requires OneWatch(r)
    ensures OnlyLastRetries(r)
  {
    forall i | 0 <= i < |r.list| - 1 ensures !IsRetrying(r, r.list[i]) {
      assert r.list[i] < r.list[|r.list| - 1];
    }
  }

  lemma RisingOn(list: seq<nat>, n: nat)
    requires Rising(list) && forall x | x in list :: x < n
    ensures Rising(list + [n])
  {
    assert forall i | 0 <= i < |list| :: list[i] in list;
  }

  lemma JoinReplaces(r: Reg)
    requires OneWatch(r) && LastRetries(r)
    ensures OneWatch(DoJoin(r))
  {
    hide FilterStop, DoJoin, DoUnsubscribe;
    OneWatchFilters(r);
    JoinIs(r);
    var n := |r.list|;
    var l := r.list[n - 1];
    var t := DoJoin(r);
    Stopped(r.watches[l]);
    assert t.watches == r.watches[l := DoUnsubscribe(r.watches[l])] + [OPENED];
    assert t.list == r.list[..n - 1] + [|r.watches|];
    assert Rising(r.list[..n - 1]);
    RisingOn(r.list[..n - 1], |r.watches|);
    forall i | 0 <= i < |t.list| - 1 ensures t.list[i] < l && !IsRetrying(t, t.list[i]) {
      assert t.list[i] == r.list[i];
    }
    forall i | 0 <= i < |r.watches| ensures !t.watches[i].live {
      assert r.watches[i].live ==> i == l;
      assert i != l ==> t.watches[i] == r.watches[i];
    }
  }

  lemma JoinAdds(r: Reg)
    requires OneWatch(r) && !LastRetries(r) && forall i | 0 <= i < |r.watches| :: !r.watches[i].live
    ensures OneWatch(DoJoin(r))
  {
    hide FilterStop, DoJoin;
    OneWatchFilters(r);
    JoinIs(r);
    var t := DoJoin(r);
    RisingOn(r.list, |r.watches|);
    forall i | 0 <= i < |t.list| - 1 ensures !IsRetrying(t, t.list[i]) {
      assert t.list[i] == r.list[i] && !IsRetrying(r, r.list[i]);
    }
  }

  /** A change of the newest watch alone. */
  lemma NewestKeeps(r: Reg, w: nat, s: State)
    requires OneWatch(r) && w < |r.watches| && r.watches[w].live
    requires (s.now == Retrying ==> s.live) && (s.now == Ended ==> !s.live)
    ensures OneWatch(Set(r, w, s))
  {}

  lemma OldKeeps(r: Reg, w: nat, s: State)
    requires OneWatch(r) && w < |r.watches| && !r.watches[w].live && !s.live
    requires s.now == r.watches[w].now || w !in r.list
    ensures OneWatch(Set(r, w, s))
  {}

  lemma Stopped(s: State)
    ensures !DoUnsubscribe(s).live && DoUnsubscribe(s).now == s.now && DoUnsubscribe(s).attempt == s.attempt
  {}

  lemma CutRises(list: seq<nat>, k: nat)
    requires k < |list| && Rising(list)
    ensures Rising(Cut(list, k)) && list[k] !in Cut(list, k)
    ensures k < |list| - 1 ==> Cut(list, k)[|list| - 2] == list[|list| - 1]
  {
    var rest := Cut(list, k);
    forall a, b | 0 <= a < b < |rest| ensures rest[a] < rest[b] {
      assert rest[a] == list[if a < k then a else a + 1];
      assert rest[b] == list[if b < k then b else b + 1];
    }
  }

  /** No live watch appears, and none changes its state, when one is stopped. */
  predicate Quieter(r: Reg, t: Reg) {
    && |t.watches| == |r.watches|
    && forall i | 0 <= i < |r.watches| :: t.watches[i].live ==> t.watches[i] == r.watches[i]
  }

  lemma UnlistedIsDead(r: Reg, x: nat)
    requires OneWatch(r) && x < |r.watches| && x !in r.list
    ensures !r.watches[x].live
  {}

  lemma StopListed(r: Reg, k: nat)
    requires OneWatch(r) && k < |r.list|
    ensures OneWatch(StopAt(r, k)) && Quieter(r, StopAt(r, k)) && r.list[k] !in StopAt(r, k).list
  {
    hide DoUnsubscribe, Rising, Cut;
    var x, t := r.list[k], StopAt(r, k);
    Stopped(r.watches[x]);
    CutRises(r.list, k);
    CutIs(r.list, k);
    forall i | 0 <= i < |t.list| && IsRetrying(t, t.list[i]) ensures t.watches[t.list[i]].live {
      assert t.list[i] == r.list[if i < k then i else i + 1] && t.list[i] in t.list;
    }
    forall i | 0 <= i < |t.watches| && t.watches[i].live ensures t.list != [] && t.list[|t.list| - 1] == i {
      assert r.watches[i].live && i != x;
    }
  }

  lemma CutIs(list: seq<nat>, k: nat)
    requires k < |list|
    ensures forall i | 0 <= i < |list| - 1 :: Cut(list, k)[i] == list[if i < k then i else i + 1]
  {}

  lemma StopUnlisted(r: Reg, x: nat)
    requires OneWatch(r) && x < |r.watches| && x !in r.list
    ensures var t := Set(r, x, DoUnsubscribe(r.watches[x])); OneWatch(t) && Quieter(r, t)
  {
    hide DoUnsubscribe, Rising;
    Stopped(r.watches[x]);
    UnlistedIsDead(r, x);
    OldKeeps(r, x, DoUnsubscribe(r.watches[x]));
  }

  lemma StopKeeps(r: Reg, x: nat)
    requires OneWatch(r)
    ensures OneWatch(DoStop(r, x)) && Quieter(r, DoStop(r, x)) && x !in DoStop(r, x).list
  {
    hide DoUnsubscribe, OneWatch, StopAt;
    RangeOf(r);
    var k := IndexOf(r.list, x);
    if k < |r.list| {
      StopListed(r, k);
    } else {
      assert r.list[..k] == r.list;
      if x < |r.watches| {
        StopUnlisted(r, x);
      }
    }
  }

  // ── What an onError does ────────────────────────────────────────────────

  /** The live watch, if any, is retrying. */
  predicate Ready(r: Reg) {
    forall i | 0 <= i < |r.watches| && r.watches[i].live :: r.watches[i].now == Retrying
  }

  lemma JoinReady(r: Reg)
    requires OneWatch(r) && Ready(r)
    ensures OneWatch(DoJoin(r))
  {
    hide DoJoin;
    if AnyLive(r) {
      var i :| 0 <= i < |r.watches| && r.watches[i].live;
      assert LastRetries(r);
      JoinReplaces(r);
    } else {
      JoinAdds(r);
    }
  }

  lemma {:induction false} StopsKeep(r: Reg, acts: seq<Act>)
    requires OneWatch(r) && JoinCount(acts) == 0
    ensures OneWatch(PerformAll(r, acts))
    decreases |acts|
  {
    hide OneWatch, DoStop;
    RangeOf(r);
    if acts != [] {
      StopKeeps(r, acts[0].w);
      StopsKeep(DoStop(r, acts[0].w), acts[1..]);
    }
  }

  lemma {:induction false} ActsWhileRetrying(r: Reg, acts: seq<Act>)
    requires OneWatch(r) && Ready(r) && JoinCount(acts) <= 1
    ensures OneWatch(PerformAll(r, acts))
    decreases |acts|
  {
    hide OneWatch, DoStop, DoJoin;
    RangeOf(r);
    if acts != [] {
      if acts[0].Join? {
        JoinReady(r);
        StopsKeep(DoJoin(r), acts[1..]);
      } else {
        StopKeeps(r, acts[0].w);
        ActsWhileRetrying(DoStop(r, acts[0].w), acts[1..]);
      }
    }
  }

  /** What is left when a watch that is not retried has ended. */
  function Over(r: Reg, w: nat): Reg
    requires w < |r.watches| && r.watches[w].attempt >= 1
  {
    Set(r, w, AfterFault(OLD_FORM, r.watches[w], false, false))
  }

  lemma OverKeeps(r: Reg, w: nat)
    requires OneWatch(r) && w < |r.watches| && r.watches[w].attempt >= 1
    ensures OneWatch(Over(r, w))
  {
    hide OneWatch, AfterFault;
    AfterFaultIs(r.watches[w], false);
    var s := AfterFault(OLD_FORM, r.watches[w], false, false);
    if r.watches[w].live { NewestKeeps(r, w, s); } else { OldKeeps(r, w, s); }
  }

  /** A stop while the ending watch's onError still runs. */
  lemma StopBeforeOver(r: Reg, w: nat, x: nat)
    requires InRange(r) && w < |r.watches| && r.watches[w].attempt >= 1 && OneWatch(Over(r, w))
    ensures OneWatch(Over(DoStop(r, x), w))
  {
    hide OneWatch, AfterFault, DoUnsubscribe;
    AfterFaultIs(r.watches[w], false);
    StopKeeps(Over(r, w), x);
    var t := DoStop(Over(r, w), x);
    var u := DoStop(r, x);
    assert t.list == u.list;
    if x == w {
      Stopped(r.watches[w]);
      assert u.watches[w] == DoUnsubscribe(r.watches[w]);
      AfterFaultIs(u.watches[w], false);
      Stopped(Over(r, w).watches[w]);
      OldKeeps(t, w, Over(u, w).watches[w]);
      assert Over(u, w) == Set(t, w, Over(u, w).watches[w]);
    } else {
      assert u.watches[w] == r.watches[w];
      assert Over(u, w) == t;
    }
  }

  lemma {:induction false} StopsBeforeOver(r: Reg, w: nat, acts: seq<Act>)
    requires InRange(r) && w < |r.watches| && r.watches[w].attempt >= 1 && OneWatch(Over(r, w))
    requires JoinCount(acts) == 0
    ensures OneWatch(Over(PerformAll(r, acts), w))
    decreases |acts|
  {
    hide OneWatch, DoStop, AfterFault;
    if acts != [] {
      StopBeforeOver(r, w, acts[0].w);
      StopsBeforeOver(DoStop(r, acts[0].w), w, acts[1..]);
    }
  }

  /** The ending watch is still live when the new one joins. */
  lemma JoinBeforeOver(r: Reg, w: nat)
    requires OneWatch(r) && w < |r.watches| && r.watches[w].attempt >= 1
    requires r.watches[w].live && r.watches[w].now != Retrying
    ensures OneWatch(Over(DoJoin(r), w))
  {
    hide FilterStop, DoJoin, AfterFault;
    OneWatchFilters(r);
    assert r.list[|r.list| - 1] == w && !LastRetries(r);
    JoinIs(r);
    RisingOn(r.list, |r.watches|);
    AfterFaultIs(r.watches[w], false);
    var t := Over(DoJoin(r), w);
    forall i | 0 <= i < |t.list| - 1 ensures !IsRetrying(t, t.list[i]) {
      assert t.list[i] == r.list[i] && !IsRetrying(r, r.list[i]);
    }
  }

  lemma {:induction false} ActsBeforeOver(r: Reg, w: nat, acts: seq<Act>)
    requires OneWatch(r) && w < |r.watches| && r.watches[w].attempt >= 1 && JoinCount(acts) <= 1
    requires forall i | 0 <= i < |r.watches| && r.watches[i].live :: i == w
    ensures InRange(r) && OneWatch(Over(PerformAll(r, acts), w))
    decreases |acts|
  {
    hide OneWatch, DoStop, DoJoin, AfterFault;
    RangeOf(r);
    if acts == [] {
      OverKeeps(r, w);
    } else if acts[0].Join? {
      if r.watches[w].live && r.watches[w].now != Retrying {
        JoinBeforeOver(r, w);
      } else {
        JoinReady(r);
        OverKeeps(DoJoin(r), w);
      }
      StopsBeforeOver(DoJoin(r), w, acts[1..]);
    } else {
      StopKeeps(r, acts[0].w);
      ActsBeforeOver(DoStop(r, acts[0].w), w, acts[1..]);
    }
  }

  // ── Every happening ─────────────────────────────────────────────────────

  lemma LiveIs(r: Reg, w: nat)
    requires OneWatch(r) && w < |r.watches| && r.watches[w].live
    ensures r.watches[w].now != Ended
    ensures forall i | 0 <= i < |r.watches| && r.watches[i].live :: i == w
  {}

  lemma RefusedKeeps(r: Reg, w: nat, retries: bool, acts: seq<Act>)
    requires OneWatch(r) && w < |r.watches| && r.watches[w].live && JoinCount(acts) <= 1
    ensures OneWatch(DoRefusedAt(r, w, retries, acts))
  {
    hide OneWatch, PerformAll, AfterFault, Faulted;
    RangeOf(r);
    LiveIs(r, w);
    FaultedIs(r.watches[w], retries);
    var t := Set(r, w, Faulted(r.watches[w], retries));
    NewestKeeps(r, w, t.watches[w]);
    LiveIs(t, w);
    var u := PerformAll(t, acts);
    AfterFaultIs(u.watches[w], retries);
    if retries {
      ActsWhileRetrying(t, acts);
      assert Set(u, w, u.watches[w]) == u;
    } else {
      ActsBeforeOver(t, w, acts);
    }
  }

  lemma TimerKeeps(r: Reg, w: nat, outcome: Outcome, acts: seq<Act>)
    requires OneWatch(r) && w < |r.watches| && JoinCount(acts) <= 1
    ensures OneWatch(DoTimer(r, w, outcome, acts))
  {
    hide OneWatch, DoStart, DoRefusedAt;
    RangeOf(r);
    var s := r.watches[w];
    if s.live {
      LiveIs(r, w);
    }
    if outcome.Threw? && s.live {
      NewestKeeps(r, w, s.(timer := None));
      RefusedKeeps(Set(r, w, s.(timer := None)), w, Retries(OLD_FORM, outcome.retryable, outcome.limited), acts);
    } else {
      StartedIs(s, outcome);
      var t := DoStart(OLD_FORM, s, outcome, STAY);
      if s.live { NewestKeeps(r, w, t); } else { OldKeeps(r, w, t); }
    }
  }

  lemma NextKeeps(r: Reg, h: Happening)
    requires OneWatch(r) && CardLike(r, h)
    ensures InRange(r) && OneWatch(Next(r, h))
  {
    hide DoValue, DoRefusedAt, DoTimer, DoJoin, DoStop, OneWatch;
    RangeOf(r);
    if Happens(r, h) {
      match h
      case Do(Join) => JoinReady(r);
      case Do(Stop(w)) => StopKeeps(r, w);
      case ValueAt(w) =>
        ValueNow(r.watches[w]);
        NewestKeeps(r, w, DoValue(OLD_FORM, r.watches[w], true, STAY));
      case RefusedAt(w, retryable, limited, acts) => RefusedKeeps(r, w, Retries(OLD_FORM, retryable, limited), acts);
      case TimerAt(w, outcome, acts) => TimerKeeps(r, w, outcome, acts);
    }
  }

  lemma {:induction false} RunKeeps(hs: seq<Happening>)
    requires CardRun(hs)
    ensures OneWatch(RegAfter(hs))
  {
    hide Next, CardLike;
    if hs != [] {
      RunKeeps(hs[..|hs| - 1]);
      NextKeeps(RegAfter(hs[..|hs| - 1]), hs[|hs| - 1]);
    }
  }

  /** In every run of such a card at most one watch is live, and it is the
      newest one and tracked; so the next subscription replaces every retrying
      watch there is and keeps every other. */
  lemma OneLiveWatch(hs: seq<Happening>)
    requires CardRun(hs)
    ensures var r := RegAfter(hs);
            var (t, kept) := FilterStop(r, 0, []);
            && (forall i, j | 0 <= i < |r.watches| && 0 <= j < |r.watches| && r.watches[i].live && r.watches[j].live ::
                  i == j)
            && (forall i | 0 <= i < |r.watches| && r.watches[i].live :: i in r.list)
            && ReplacesAll(r, t, kept)
  {
    hide RegAfter, FilterStop, ReplacesAll;
    RunKeeps(hs);
    OneWatchFilters(RegAfter(hs));
    NextJoinReplaces(hs);
  }

  /** A refusal whose onError subscribes again leaves exactly one live watch:
      the new one. */
  lemma ResubscribingLeavesTheNew(hs: seq<Happening>, w: nat, retryable: bool, limited: bool)
    requires CardRun(hs) && Happens(RegAfter(hs), RefusedAt(w, retryable, limited, [Join]))
    ensures var r, t := RegAfter(hs), RegAfter(hs + [RefusedAt(w, retryable, limited, [Join])]);
            |t.watches| == |r.watches| + 1
            && forall i | 0 <= i < |t.watches| :: t.watches[i].live <==> i == |r.watches|
  {
    hide RegAfter, DoStart, FilterStop, AfterFault, Faulted;
    var r, h := RegAfter(hs), RefusedAt(w, retryable, limited, [Join]);
    RunKeeps(hs);
    assert JoinCount([Join]) == 1 by { assert [Join][1..] == []; }
    NextKeeps(r, h);
    RunOn(hs, h);
    var retries := Retries(OLD_FORM, retryable, limited);
    var mid := Set(r, w, Faulted(r.watches[w], retries));
    assert PerformAll(mid, [Join]) == DoJoin(mid) by { assert [Join][1..] == []; }
    NewIsLive(mid);
    LiveIs(RegAfter(hs + [h]), |r.watches|);
  }

  lemma NewIsLive(r: Reg)
    requires InRange(r)
    ensures DoJoin(r).watches[|r.watches|].live
  {
    FilterShape(r, 0, []);
  }
}
