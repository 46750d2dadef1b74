/** Every run of the callback-form subscriptions to one source. */
module RegistryRuns {
  import opened Basics
  import opened Watch
  import opened Registry

  /** What a widget does: subscribe once more, or call a watch's stop. */
  datatype Act = Join | Stop(w: nat)

  /** `acts` is what the watch's onError does when it is called. What the data
      callback does comes last in its event, and so follows as `Do`. */
  datatype Happening =
    | Do(act: Act)
    | ValueAt(w: nat)
    | RefusedAt(w: nat, retryable: bool, limited: bool, acts: seq<Act>)
    | TimerAt(w: nat, outcome: Outcome, acts: seq<Act>)

  // ── The steps ───────────────────────────────────────────────────────────

  predicate Grown(r: Reg, t: Reg) {
    && InRange(t) && |r.watches| <= |t.watches|
    && forall x | 0 <= x < |r.watches| :: t.watches[x].attempt == r.watches[x].attempt
  }

  lemma {:induction false} FilterShape(r: Reg, k: nat, kept: seq<nat>)
    requires InRange(r)
    ensures var (t, all) := FilterStop(r, k, kept);
            && |t.watches| == |r.watches|
            && (forall x | 0 <= x < |r.watches| :: t.watches[x].attempt == r.watches[x].attempt)
            && ((forall x | x in kept :: x < |r.watches|) ==> forall x | x in all :: x < |r.watches|)
    decreases |r.list| - k
  {
    if k < |r.list| {
      if IsRetrying(r, r.list[k]) {
        FilterShape(StopAt(r, k), k + 1, kept);
      } else {
        FilterShape(r, k + 1, kept + [r.list[k]]);
      }
    }
  }

  /** `legacyWatch` with plain arguments and a port or a queue. */
  function DoJoin(r: Reg): (t: Reg)
    requires InRange(r)
    ensures Grown(r, t) && |t.watches| == |r.watches| + 1
  {
    var (rest, kept) := FilterStop(r, 0, []);
    FilterShape(r, 0, []);
    assert forall i | 0 <= i < |kept| :: kept[i] in kept;
    Reg(rest.watches + [DoStart(OLD_FORM, FRESH, Subscribed, STAY)], kept + [|r.watches|])
  }

  function IndexOf(list: seq<nat>, w: nat): (k: nat)
    ensures k <= |list| && w !in list[..k] && (k < |list| ==> list[k] == w)
  {
    if list == [] || list[0] == w then 0
    else
      var k := IndexOf(list[1..], w);
      assert list[..k + 1] == [list[0]] + list[1..][..k];
      k + 1
  }

  /** A watch's `stop`, called by the widget. */
  function DoStop(r: Reg, w: nat): (t: Reg)
    requires InRange(r)
    ensures Grown(r, t) && |t.watches| == |r.watches|
  {
    var k := IndexOf(r.list, w);
    if k < |r.list| then StopAt(r, k)
    else if w < |r.watches| then r.(watches := r.watches[w := DoUnsubscribe(r.watches[w])])
    else r
  }

  function Perform(r: Reg, act: Act): (t: Reg)
    requires InRange(r)
    ensures Grown(r, t)
  {
    if act.Join? then DoJoin(r) else DoStop(r, act.w)
  }

  function PerformAll(r: Reg, acts: seq<Act>): (t: Reg)
    requires InRange(r)
    ensures Grown(r, t)
    decreases |acts|
  {
    if acts == [] then r else PerformAll(Perform(r, acts[0]), acts[1..])
  }

  function Set(r: Reg, w: nat, s: State): Reg
    requires w < |r.watches|
  {
    r.(watches := r.watches[w := s])
  }

  /** A live watch when its onError is called. */
  function Faulted(s: State, retries: bool): (t: State)
    ensures t.attempt == s.attempt + 1
  {
    DoFault(OLD_FORM, BeforeFault(OLD_FORM, s, retries), retries, false)
  }

  /** A refusal: the onError runs between the two halves. */
  function DoRefusedAt(r: Reg, w: nat, retries: bool, acts: seq<Act>): (t: Reg)
    requires InRange(r) && w < |r.watches|
    ensures InRange(t)
  {
    var u := PerformAll(Set(r, w, Faulted(r.watches[w], retries)), acts);
    Set(u, w, AfterFault(OLD_FORM, u.watches[w], retries, false))
  }

  /** A retry's timer: the subscribe may throw, which is a refusal at once. */
  function DoTimer(r: Reg, w: nat, outcome: Outcome, acts: seq<Act>): (t: Reg)
    requires InRange(r) && w < |r.watches|
    ensures InRange(t)
  {
    if outcome.Threw? && r.watches[w].live then
      var retries := Retries(OLD_FORM, outcome.retryable, outcome.limited);
      DoRefusedAt(Set(r, w, r.watches[w].(timer := None)), w, retries, acts)
    else Set(r, w, DoStart(OLD_FORM, r.watches[w], outcome, STAY))
  }

  /** A subscribe throws only without a port and a queue, and then so does a
      subscription from inside the onError. */
  predicate Happens(r: Reg, h: Happening) {
    match h
    case Do(_) => true
    case ValueAt(w) => w < |r.watches| && r.watches[w].live && r.watches[w].off
    case RefusedAt(w, _, _, _) => w < |r.watches| && r.watches[w].live && r.watches[w].off
    case TimerAt(w, outcome, acts) => w < |r.watches| && r.watches[w].timer.Some? && (outcome.Threw? ==> Join !in acts)
  }

  function Next(r: Reg, h: Happening): (t: Reg)
    requires InRange(r)
    ensures InRange(t)
  {
    if !Happens(r, h) then r
    else
      match h
      case Do(act) => Perform(r, act)
      case ValueAt(w) => Set(r, w, DoValue(OLD_FORM, r.watches[w], true, STAY))
      case RefusedAt(w, retryable, limited, acts) => DoRefusedAt(r, w, Retries(OLD_FORM, retryable, limited), acts)
      case TimerAt(w, outcome, acts) => DoTimer(r, w, outcome, acts)
  }

  const NONE := Reg([], [])

  /** A run from no subscription. */
  function RegAfter(hs: seq<Happening>): (t: Reg)
    ensures InRange(t)
  {
    if hs == [] then NONE else Next(RegAfter(hs[..|hs| - 1]), hs[|hs| - 1])
  }

  /** With an onError that does nothing a refusal is the watch's own. */
  lemma RefusedIsTheWatchs(r: Reg, w: nat, retryable: bool, limited: bool)
    requires InRange(r) && w < |r.watches| && r.watches[w].live
    ensures DoRefusedAt(r, w, Retries(OLD_FORM, retryable, limited), [])
         == Set(r, w, DoRefused(OLD_FORM, r.watches[w], retryable, limited, STAY))
  {
    hide DoFault, BeforeFault, AfterFault;
    var mid := Faulted(r.watches[w], Retries(OLD_FORM, retryable, limited));
    assert PerformAll(Set(r, w, mid), []) == Set(r, w, mid);
  }

  /** The watch's own event, for a happening in which the widget does nothing. */
  function EventOf(h: Happening): Event
    requires !h.Do?
  {
    match h
    case ValueAt(_) => Value(true, STAY)
    case RefusedAt(_, retryable, limited, _) => Refused(retryable, limited, STAY)
    case TimerAt(_, outcome, _) => Fire(outcome, STAY)
  }

  /** Without acts of the widget each watch of the source is a watch on its own. */
  lemma HappeningIsTheWatchs(r: Reg, h: Happening)
    requires InRange(r) && Happens(r, h) && !h.Do? && (h.RefusedAt? || h.TimerAt? ==> h.acts == [])
    ensures Next(r, h) == Set(r, h.w, Watch.Step(OLD_FORM, r.watches[h.w], EventOf(h)))
  {
    hide DoFault, BeforeFault, AfterFault, DoRefusedAt, DoRefused, DoValue;
    var s := r.watches[h.w];
    match h
    case RefusedAt(w, retryable, limited, _) => RefusedIsTheWatchs(r, w, retryable, limited);
    case TimerAt(w, outcome, _) =>
      if outcome.Threw? && s.live {
        RefusedIsTheWatchs(Set(r, w, s.(timer := None)), w, outcome.retryable, outcome.limited);
      }
    case ValueAt(_) =>
  }

  // ── What every run keeps ────────────────────────────────────────────────

  /** No watch is listed twice, and a listed one that is retrying is live. */
  predicate Sound(r: Reg) {
    InRange(r) && Distinct(r.list) && RetryingIsLive(r)
  }

  /** What the filter keeps: distinct watches, none of them retrying. */
  predicate Kept(r: Reg, kept: seq<nat>) {
    Distinct(kept) && forall i | 0 <= i < |kept| :: kept[i] < |r.watches| && !IsRetrying(r, kept[i])
  }

  predicate Ahead(list: seq<nat>, k: nat, kept: seq<nat>) {
    forall i, j | k <= i < |list| && 0 <= j < |kept| :: list[i] != kept[j]
  }

  lemma {:induction false} FilterKept(r: Reg, k: nat, kept: seq<nat>)
    requires InRange(r) && Distinct(r.list) && Kept(r, kept) && Ahead(r.list, k, kept)
    ensures var (t, all) := FilterStop(r, k, kept); Kept(t, all)
    decreases |r.list| - k
  {
    if k < |r.list| {
      if IsRetrying(r, r.list[k]) {
        AheadOfCut(r, k, kept);
        CutDistinct(r.list, k);
        hide Distinct, Kept, Ahead, StopAt, Cut;
        FilterKept(StopAt(r, k), k + 1, kept);
      } else {
        KeptOneMore(r, k, kept);
        hide Distinct, Kept, Ahead;
        FilterKept(r, k + 1, kept + [r.list[k]]);
      }
    }
  }

  lemma AheadOfCut(r: Reg, k: nat, kept: seq<nat>)
    requires InRange(r) && k < |r.list| && Kept(r, kept) && Ahead(r.list, k, kept)
    ensures Kept(StopAt(r, k), kept) && Ahead(StopAt(r, k).list, k + 1, kept)
    ensures StopAt(r, k).list == Cut(r.list, k)
  {
    hide Distinct;
    var list := Cut(r.list, k);
    assert forall i | k <= i < |list| :: list[i] == r.list[i + 1];
  }

  lemma KeptOneMore(r: Reg, k: nat, kept: seq<nat>)
    requires InRange(r) && Distinct(r.list) && k < |r.list| && !IsRetrying(r, r.list[k])
    requires Kept(r, kept) && Ahead(r.list, k, kept)
    ensures Kept(r, kept + [r.list[k]]) && Ahead(r.list, k + 1, kept + [r.list[k]])
  {}

  lemma JoinSound(r: Reg)
    requires Sound(r)
    ensures Sound(DoJoin(r))
  {
    hide FilterStop, Distinct;
    var (rest, kept) := FilterStop(r, 0, []);
    NothingKept(r);
    FilterKept(r, 0, []);
    FilterShape(r, 0, []);
    var t := DoJoin(r);
    assert t.list == kept + [|r.watches|];
    DistinctOn(kept, |r.watches|);
    forall i | 0 <= i < |t.list| ensures !IsRetrying(t, t.list[i]) {
      if i < |kept| {
        assert t.list[i] == kept[i] && t.watches[kept[i]] == rest.watches[kept[i]];
      }
    }
  }

  lemma NothingKept(r: Reg)
    ensures Kept(r, []) && Ahead(r.list, 0, [])
  {}

  lemma DistinctOn(list: seq<nat>, n: nat)
    requires Distinct(list) && forall i | 0 <= i < |list| :: list[i] < n
    ensures Distinct(list + [n])
  {}

  lemma StopSound(r: Reg, w: nat)
    requires Sound(r)
    ensures Sound(DoStop(r, w))
  {
    var k := IndexOf(r.list, w);
    var t := DoStop(r, w);
    if k < |r.list| {
      CutDistinct(r.list, k);
      forall i | 0 <= i < |t.list| ensures t.list[i] != w && t.list[i] in r.list {
        assert t.list[i] == r.list[if i < k then i else i + 1];
      }
    } else {
      assert forall i | 0 <= i < |r.list| :: r.list[i] in r.list[..k];
    }
  }

  lemma {:induction false} ActsSound(r: Reg, acts: seq<Act>)
    requires Sound(r)
    ensures Sound(PerformAll(r, acts))
    decreases |acts|
  {
    hide Sound, DoJoin, DoStop;
    assert InRange(r) by { SoundInRange(r); }
    if acts != [] {
      if acts[0].Join? { JoinSound(r); } else { StopSound(r, acts[0].w); }
      ActsSound(Perform(r, acts[0]), acts[1..]);
    }
  }

  lemma SoundInRange(r: Reg)
    requires Sound(r)
    ensures InRange(r)
  {}

  lemma SetSound(r: Reg, w: nat, s: State)
    requires Sound(r) && w < |r.watches| && (s.now == Retrying ==> s.live || w !in r.list)
    ensures Sound(Set(r, w, s))
  {}

  lemma FaultedIs(s: State, retries: bool)
    requires s.live
    ensures Faulted(s, retries).live && Faulted(s, retries).now == if retries then Retrying else s.now
  {}

  lemma AfterFaultIs(s: State, retries: bool)
    requires s.attempt >= 1
    ensures var t := AfterFault(OLD_FORM, s, retries, false);
            && (retries ==> t == s)
            && (!retries ==> !t.live && t.now == if s.live then Ended else s.now)
  {}

  lemma RefusedSound(r: Reg, w: nat, retries: bool, acts: seq<Act>)
    requires Sound(r) && w < |r.watches| && r.watches[w].live
    ensures Sound(DoRefusedAt(r, w, retries, acts))
  {
    hide PerformAll, Faulted, AfterFault, Distinct;
    var mid := Set(r, w, Faulted(r.watches[w], retries));
    FaultedIs(r.watches[w], retries);
    SetSound(r, w, Faulted(r.watches[w], retries));
    ActsSound(mid, acts);
    var u := PerformAll(mid, acts);
    AfterFaultIs(u.watches[w], retries);
    SetSound(u, w, AfterFault(OLD_FORM, u.watches[w], retries, false));
  }

  lemma StartedIs(s: State, outcome: Outcome)
    requires outcome.Subscribed? || !s.live
    ensures var t := DoStart(OLD_FORM, s, outcome, STAY); t.live == s.live && t.now == s.now
  {}

  lemma TimerSound(r: Reg, w: nat, outcome: Outcome, acts: seq<Act>)
    requires Sound(r) && w < |r.watches|
    ensures Sound(DoTimer(r, w, outcome, acts))
  {
    hide DoStart, Distinct, DoRefusedAt;
    var s := r.watches[w];
    if outcome.Threw? && s.live {
      SetSound(r, w, s.(timer := None));
      RefusedSound(Set(r, w, s.(timer := None)), w, Retries(OLD_FORM, outcome.retryable, outcome.limited), acts);
    } else {
      StartedIs(s, outcome);
      assert w in r.list && s.now == Retrying ==> s.live;
      SetSound(r, w, DoStart(OLD_FORM, s, outcome, STAY));
    }
  }

  lemma ValueNow(s: State)
    requires s.live
    ensures var t := DoValue(OLD_FORM, s, true, STAY); t.live && t.now == Live
  {}

  lemma NextSound(r: Reg, h: Happening)
    requires Sound(r)
    ensures Sound(Next(r, h))
  {
    hide DoJoin, DoStop, DoValue, DoRefusedAt, DoTimer, Distinct;
    if Happens(r, h) {
      match h
      case Do(Join) => JoinSound(r);
      case Do(Stop(w)) => StopSound(r, w);
      case ValueAt(w) =>
        ValueNow(r.watches[w]);
        SetSound(r, w, DoValue(OLD_FORM, r.watches[w], true, STAY));
      case RefusedAt(w, retryable, limited, acts) => RefusedSound(r, w, Retries(OLD_FORM, retryable, limited), acts);
      case TimerAt(w, outcome, acts) => TimerSound(r, w, outcome, acts);
    }
  }

  lemma {:induction false} RunSound(hs: seq<Happening>)
    ensures Sound(RegAfter(hs))
  {
    hide Next, Sound;
    if hs == [] {
      NoneSound();
    } else {
      RunSound(hs[..|hs| - 1]);
      NextSound(RegAfter(hs[..|hs| - 1]), hs[|hs| - 1]);
    }
  }

  lemma NoneSound()
    ensures Sound(NONE)
  {}

  const OPENED := State(true, 0, Unset, true, None, [Opened])

  predicate LastRetries(r: Reg) {
    r.list != [] && IsRetrying(r, r.list[|r.list| - 1])
  }

  /** Joining with at most one listed watch retrying, the last: it is stopped,
      the others stay, the new one comes last. */
  lemma JoinIs(r: Reg)
    requires InRange(r) && OnlyLastRetries(r)
    ensures LastRetries(r) ==>
              DoJoin(r) == Reg(StopAt(r, |r.list| - 1).watches + [OPENED], r.list[..|r.list| - 1] + [|r.watches|])
    ensures !LastRetries(r) ==> DoJoin(r) == Reg(r.watches + [OPENED], r.list + [|r.watches|])
  {
    hide FilterStop, StopAt;
    FilterWhenLast(r);
    assert DoStart(OLD_FORM, FRESH, Subscribed, STAY) == OPENED by { assert [] + [Opened] == [Opened]; }
    var (rest, kept) := FilterStop(r, 0, []);
    assert DoJoin(r) == Reg(rest.watches + [OPENED], kept + [|r.watches|]);
  }

  // ── The laws ────────────────────────────────────────────────────────────

  /** After every run: the next subscription replaces every retrying watch of
      the list and keeps every other exactly when no watch of the list but the
      last is retrying. */
  lemma NextJoinReplaces(hs: seq<Happening>)
    ensures var r := RegAfter(hs);
            var (t, kept) := FilterStop(r, 0, []);
            ReplacesAll(r, t, kept) <==> OnlyLastRetries(r)
  {
    hide RegAfter, FilterStop, ReplacesAll, OnlyLastRetries;
    RunSound(hs);
    ReplacesAllExactly(RegAfter(hs));
  }

  /** A stop ends that watch, takes it off the list, and touches nothing else. */
  lemma StopStops(r: Reg, w: nat)
    requires Sound(r) && w < |r.watches|
    ensures var t := Next(r, Do(Stop(w)));
            && !t.watches[w].live && w !in t.list && t.list == Without(r.list, w)
            && |t.watches| == |r.watches|
            && forall x | 0 <= x < |r.watches| && x != w :: t.watches[x] == r.watches[x]
  {
    hide Without, RetryingIsLive, DoUnsubscribe;
    UnsubscribeEnds(r.watches[w]);
    var k := IndexOf(r.list, w);
    if k < |r.list| {
      NotAfter(r.list, k);
      WithoutFirst(r.list, w, k);
    } else {
      assert r.list[..k] == r.list;
      WithoutAbsent(r.list, w);
    }
  }

  lemma NotAfter(list: seq<nat>, k: nat)
    requires Distinct(list) && k < |list|
    ensures list[k] !in list[k + 1..]
  {
    forall i | k < i < |list| ensures list[i] != list[k] {
      Apart(list, k, i);
    }
  }

  function Without(list: seq<nat>, w: nat): seq<nat> {
    if list == [] then [] else (if list[0] == w then [] else [list[0]]) + Without(list[1..], w)
  }

  lemma {:induction false} WithoutAbsent(list: seq<nat>, w: nat)
    requires w !in list
    ensures Without(list, w) == list
  {
    if list != [] {
      assert list == [list[0]] + list[1..];
      WithoutAbsent(list[1..], w);
    }
  }

  lemma {:induction false} WithoutFirst(list: seq<nat>, w: nat, k: nat)
    requires k < |list| && list[k] == w && w !in list[..k] && w !in list[k + 1..]
    ensures Without(list, w) == list[..k] + list[k + 1..]
  {
    if k == 0 {
      WithoutAbsent(list[1..], w);
    } else {
      var rest := list[1..];
      assert list[..k] == [list[0]] + rest[..k - 1] && list[k + 1..] == rest[k..];
      WithoutFirst(rest, w, k - 1);
    }
  }

  predicate Dead(r: Reg, w: nat) {
    w < |r.watches| && !r.watches[w].live
  }

  lemma UnsubscribeEnds(s: State)
    ensures !DoUnsubscribe(s).live
  {}

  lemma {:induction false} FilterRevivesNone(r: Reg, k: nat, kept: seq<nat>, w: nat)
    requires InRange(r) && Dead(r, w)
    ensures Dead(FilterStop(r, k, kept).0, w)
    decreases |r.list| - k
  {
    hide DoUnsubscribe;
    if k < |r.list| {
      if IsRetrying(r, r.list[k]) {
        UnsubscribeEnds(r.watches[r.list[k]]);
        FilterRevivesNone(StopAt(r, k), k + 1, kept, w);
      } else {
        FilterRevivesNone(r, k + 1, kept + [r.list[k]], w);
      }
    }
  }

  lemma {:induction false} ActsReviveNone(r: Reg, acts: seq<Act>, w: nat)
    requires InRange(r) && Dead(r, w)
    ensures Dead(PerformAll(r, acts), w)
    decreases |acts|
  {
    hide FilterStop, DoUnsubscribe, DoStart, InRange;
    if acts != [] {
      FilterRevivesNone(r, 0, [], w);
      if acts[0].Stop? && acts[0].w < |r.watches| {
        UnsubscribeEnds(r.watches[acts[0].w]);
      }
      ActsReviveNone(Perform(r, acts[0]), acts[1..], w);
    }
  }

  lemma RefusalRevivesNone(r: Reg, x: nat, retries: bool, acts: seq<Act>, w: nat)
    requires InRange(r) && x < |r.watches| && Dead(r, w) && w != x
    ensures Dead(DoRefusedAt(r, x, retries, acts), w)
  {
    hide PerformAll, AfterFault, Faulted;
    ActsReviveNone(Set(r, x, Faulted(r.watches[x], retries)), acts, w);
  }

  lemma NextRevivesNone(r: Reg, h: Happening, w: nat)
    requires InRange(r) && Dead(r, w)
    ensures Dead(Next(r, h), w)
  {
    hide DoStart, DoRefusedAt, DoValue, PerformAll, Perform;
    match h
    case Do(act) =>
      ActsReviveNone(r, [act], w);
      assert PerformAll(r, [act]) == Perform(r, act) by { PerformOne(r, act); }
    case ValueAt(_) =>
    case RefusedAt(x, retryable, limited, acts) =>
      if Happens(r, h) {
        RefusalRevivesNone(r, x, Retries(OLD_FORM, retryable, limited), acts, w);
      }
    case TimerAt(x, outcome, acts) =>
      if Happens(r, h) {
        StartedIsDead(r.watches[x], outcome);
        if outcome.Threw? && r.watches[x].live {
          var u := Set(r, x, r.watches[x].(timer := None));
          RefusalRevivesNone(u, x, Retries(OLD_FORM, outcome.retryable, outcome.limited), acts, w);
        }
      }
  }

  lemma PerformOne(r: Reg, act: Act)
    requires InRange(r)
    ensures PerformAll(r, [act]) == Perform(r, act)
  {
    hide Perform;
    assert [act][1..] == [];
  }

  lemma StartedIsDead(s: State, outcome: Outcome)
    ensures !s.live ==> !DoStart(OLD_FORM, s, outcome, STAY).live
  {}

  /** A watch whose stop was called is never live again, whatever happens after. */
  lemma {:induction false} StoppedForever(before: seq<Happening>, w: nat, after: seq<Happening>)
    requires w < |RegAfter(before).watches|
    ensures Dead(RegAfter(before + [Do(Stop(w))] + after), w)
    decreases |after|
  {
    hide Next, RegAfter;
    if after == [] {
      RunOn(before, Do(Stop(w)));
      RunSound(before);
      StopStops(RegAfter(before), w);
      assert before + [Do(Stop(w))] + [] == before + [Do(Stop(w))];
    } else {
      var n := |after| - 1;
      StoppedForever(before, w, after[..n]);
      RunOn(before + [Do(Stop(w))] + after[..n], after[n]);
      assert before + [Do(Stop(w))] + after == before + [Do(Stop(w))] + after[..n] + [after[n]];
      NextRevivesNone(RegAfter(before + [Do(Stop(w))] + after[..n]), after[n], w);
    }
  }

  const REFUSED_ONCE :=
    State(true, 1, Retrying, false, Some(1000),
          [Opened, Refusal, StateCall(Retrying), Scheduled(1000), ErrorCall(true)])

  const TWO_REFUSED := [Do(Join), Do(Join), RefusedAt(0, true, false, []), RefusedAt(1, true, false, [])]

  lemma OpenedThenRefused()
    ensures DoRefused(OLD_FORM, OPENED, true, false, STAY) == REFUSED_ONCE
  {
    assert Delay(1) == 1000;
  }

  lemma RunOn(hs: seq<Happening>, h: Happening)
    ensures RegAfter(hs + [h]) == Next(RegAfter(hs), h)
  {
    hide Next;
    assert (hs + [h])[..|hs|] == hs;
  }

  lemma OneJoined()
    ensures RegAfter([Do(Join)]) == Reg([OPENED], [0])
  {
    hide RegAfter, DoJoin, FilterStop, DoStart, DoStop, DoValue, DoTimer, DoRefusedAt;
    RunNothing();
    RunOn([], Do(Join));
    assert [] + [Do(Join)] == [Do(Join)];
    JoinIs(NONE);
    assert [] + [OPENED] == [OPENED] && [] + [0] == [0];
  }

  lemma TwoJoined()
    ensures RegAfter([Do(Join), Do(Join)]) == Reg([OPENED, OPENED], [0, 1])
  {
    hide RegAfter, DoJoin, FilterStop, DoStart, DoStop, DoValue, DoTimer, DoRefusedAt;
    OneJoined();
    RunOn([Do(Join)], Do(Join));
    assert [Do(Join)] + [Do(Join)] == [Do(Join), Do(Join)];
    var one := Reg([OPENED], [0]);
    JoinIs(one);
    assert !IsRetrying(one, 0);
    assert one.watches + [OPENED] == [OPENED, OPENED] && one.list + [1] == [0, 1];
  }

  lemma RunNothing()
    ensures RegAfter([]) == NONE
  {}

  lemma TwoAreRetrying()
    ensures RegAfter(TWO_REFUSED) == Reg([REFUSED_ONCE, REFUSED_ONCE], [0, 1])
  {
    hide RegAfter, DoRefused, DoRefusedAt, Retries;
    OpenedThenRefused();
    TwoJoined();
    var joined, h0, h1 := [Do(Join), Do(Join)], RefusedAt(0, true, false, []), RefusedAt(1, true, false, []);
    RunOn(joined, h0);
    RunOn(joined + [h0], h1);
    assert joined + [h0] + [h1] == TWO_REFUSED;
    var r := Reg([OPENED, OPENED], [0, 1]);
    RefusedIsTheWatchs(r, 0, true, false);
    assert RegAfter(joined + [h0]) == Reg([REFUSED_ONCE, OPENED], [0, 1]);
    RefusedIsTheWatchs(RegAfter(joined + [h0]), 1, true, false);
  }

  /** The filter touches listed watches only. */
  lemma {:induction false} FilterLeaves(r: Reg, k: nat, kept: seq<nat>, x: nat)
    requires InRange(r) && x < |r.watches| && x !in r.list && x !in kept
    ensures var (t, all) := FilterStop(r, k, kept);
            |t.watches| == |r.watches| && t.watches[x] == r.watches[x] && x !in all
    decreases |r.list| - k
  {
    if k < |r.list| {
      if IsRetrying(r, r.list[k]) {
        assert x !in Cut(r.list, k);
        FilterLeaves(StopAt(r, k), k + 1, kept, x);
      } else {
        FilterLeaves(r, k + 1, kept + [r.list[k]], x);
      }
    }
  }

  function Joins(n: nat): seq<Happening> {
    if n == 0 then [] else Joins(n - 1) + [Do(Join)]
  }

  /** Retries do pile up: two callbacks subscribe to one source and both are
      refused; a third subscription stops the first watch only, and however
      many follow, the second goes on retrying and is on no list. */
  lemma {:induction false} RetriesPileUp(n: nat)
    requires n >= 1
    ensures var r := RegAfter(TWO_REFUSED + Joins(n));
            |r.watches| == 2 + n && r.watches[1] == REFUSED_ONCE && 1 !in r.list
    decreases n
  {
    hide RegAfter, FilterStop, DoStart;
    var before := RegAfter(TWO_REFUSED + Joins(n - 1));
    assert TWO_REFUSED + Joins(n) == TWO_REFUSED + Joins(n - 1) + [Do(Join)];
    RunOn(TWO_REFUSED + Joins(n - 1), Do(Join));
    if n == 1 {
      TwoAreRetrying();
      assert TWO_REFUSED + Joins(0) == TWO_REFUSED;
      SkippedIsLost(before, 0);
    } else {
      RetriesPileUp(n - 1);
      FilterLeaves(before, 0, [], 1);
    }
    FilterShape(before, 0, []);
  }
}
