/** What every run of a retried subscription keeps. */
module WatchRuns {
  import opened Basics
  import opened Watch

  // ── What the log says ───────────────────────────────────────────────────

  /** Refusals since the last good value. */
  function Row(log: seq<Effect>): nat {
    if log == [] then 0
    else
      var front, last := log[..|log| - 1], log[|log| - 1];
      match last
      case GoodValue => 0
      case Refusal => Row(front) + 1
      case _ => Row(front)
  }

  /** The state last told to the state handler. */
  function Told(log: seq<Effect>): Phase {
    if log == [] then Unset
    else if log[|log| - 1].StateCall? then log[|log| - 1].phase
    else Told(log[..|log| - 1])
  }

  /** What the documentation promises of the n-th refusal's wait. */
  function Wait(n: int): nat
    requires n >= 1
  {
    if 1000 * Pow2(n - 1) < 30000 then 1000 * Pow2(n - 1) else 30000
  }

  /** An effect that may follow the effects `before`. */
  predicate Fits(c: Config, before: seq<Effect>, e: Effect) {
    match e
    case Scheduled(d) => Row(before) >= 1 && d == Wait(Row(before))
    case StateCall(p) => p != Told(before) && Told(before) != Ended
    case Report(retrying) => !c.hasError && (retrying ==> Row(before) <= 1)
    case ErrorCall(_) => c.hasError
    case _ => true
  }

  predicate AllFit(c: Config, log: seq<Effect>) {
    forall k | 0 <= k < |log| :: Fits(c, log[..k], log[k])
  }

  /** Between events a live watch is open or scheduled, never both. */
  predicate Inv(c: Config, s: State) {
    Inside(c, s) && (s.live ==> (s.off <==> s.timer.None?))
  }

  /** Also inside an event. */
  predicate Inside(c: Config, s: State) {
    && AllFit(c, s.log)
    && s.attempt == Row(s.log)
    && (c.hasState ==> s.now == Told(s.log))
    && (s.now == Ended ==> !s.live)
    && (!s.live ==> !s.off)
    && !(s.off && s.timer.Some?)
  }

  lemma RowOn(log: seq<Effect>, e: Effect)
    ensures Row(log + [e]) == if e.GoodValue? then 0 else if e.Refusal? then Row(log) + 1 else Row(log)
    ensures Told(log + [e]) == if e.StateCall? then e.phase else Told(log)
  {
    assert (log + [e])[..|log|] == log;
  }

  lemma FitOn(c: Config, log: seq<Effect>, e: Effect)
    requires AllFit(c, log) && Fits(c, log, e)
    ensures AllFit(c, log + [e])
  {
    hide Fits;
    var r := log + [e];
    forall k | 0 <= k < |r| ensures Fits(c, r[..k], r[k]) {
      if k < |log| {
        assert r[..k] == log[..k];
      } else {
        assert r[..k] == log;
      }
    }
  }

  /** The doubling capped at the fifth step is the doubling capped at 30 s. */
  lemma DelayIsWait(n: int)
    requires n >= 1
    ensures Delay(n) == Wait(n)
  {
    assert Pow2(5) == 32 && Pow2(4) == 16 && Pow2(3) == 8 && Pow2(2) == 4 && Pow2(1) == 2 && Pow2(0) == 1 by {
      Powers();
    }
    if n >= 6 {
      Pow2Grows(5, n - 1);
    }
  }

  lemma Powers()
    ensures Pow2(0) == 1 && Pow2(1) == 2 && Pow2(2) == 4 && Pow2(3) == 8 && Pow2(4) == 16 && Pow2(5) == 32
  {
    assert Pow2(2) == 2 * Pow2(1);
    assert Pow2(4) == 2 * Pow2(3);
  }

  // ── Each step ───────────────────────────────────────────────────────────

  lemma UnsubscribeKeeps(c: Config, s: State)
    requires Inside(c, s)
    ensures Inside(c, DoUnsubscribe(s)) && !DoUnsubscribe(s).live && DoUnsubscribe(s).attempt == s.attempt
    ensures s.live ==> DoUnsubscribe(s).timer == None
    ensures !s.live ==> DoUnsubscribe(s) == s
  {
    hide AllFit, Row, Told;
    if s.live {
      var a := s.log + [Quit];
      Plainly(c, s.log, Quit);
      var b := if s.timer.Some? then a + [Cleared] else a;
      Plainly(c, a, Cleared);
      Plainly(c, b, Closed);
      var d := if s.off then b + [Closed] else b;
      assert DoUnsubscribe(s).log == d;
    }
  }

  /** An effect that counts for nothing. */
  lemma Plainly(c: Config, log: seq<Effect>, e: Effect)
    requires AllFit(c, log) && (e.Quit? || e.Cleared? || e.Closed? || e.Opened? || e.DataCall?)
    ensures AllFit(c, log + [e]) && Row(log + [e]) == Row(log) && Told(log + [e]) == Told(log)
  {
    hide AllFit, Row, Told;
    FitOn(c, log, e);
    RowOn(log, e);
  }

  lemma StateKeeps(c: Config, s: State, phase: Phase, quit: bool)
    requires Inside(c, s) && (phase == Ended ==> !s.off && s.timer == None)
    ensures var t := DoState(c, s, phase, quit);
            && t.attempt == s.attempt
            && (if phase == Ended then Inside(c, t.(live := false)) else Inside(c, t))
            && (s.live ==> t == DoUnsubscribe(t) || t.live)
            && (t.live ==> t.timer == s.timer && t.off == s.off && s.live)
            && (!s.live ==> t == s)
            && (phase == Ended ==> t.timer == None && !t.off)
  {
    hide AllFit, Row, Told;
    if s.live && phase != s.now && c.hasState {
      FitOn(c, s.log, StateCall(phase));
      RowOn(s.log, StateCall(phase));
      if phase != Ended {
        UnsubscribeKeeps(c, Log(s.(now := phase), StateCall(phase)));
      } else {
        EndedUnsubscribes(c, s, phase);
      }
    }
  }

  lemma EndedUnsubscribes(c: Config, s: State, phase: Phase)
    requires AllFit(c, s.log + [StateCall(phase)]) && s.live && s.timer == None && !s.off
    ensures var t := DoUnsubscribe(Log(s.(now := phase), StateCall(phase)));
            && AllFit(c, t.log) && Row(t.log) == Row(s.log + [StateCall(phase)])
            && Told(t.log) == Told(s.log + [StateCall(phase)])
  {
    hide AllFit, Row, Told;
    var log := s.log + [StateCall(phase)];
    Plainly(c, log, Quit);
    assert log + [Quit] + [] + [] == log + [Quit];
  }

  lemma FaultKeeps(c: Config, s: State, retrying: bool, quit: bool)
    requires Inside(c, s)
    ensures var t := DoFault(c, s, retrying, quit);
            && Inside(c, t) && t.attempt == s.attempt && (!t.live ==> !t.off)
            && (t.live ==> t.timer == s.timer && t.off == s.off && s.live)
            && (s.off || s.timer.Some? || (!t.off && t.timer.None?))
  {
    hide AllFit, Row, Told;
    if s.live {
      if c.hasError {
        FitOn(c, s.log, ErrorCall(retrying));
        RowOn(s.log, ErrorCall(retrying));
        UnsubscribeKeeps(c, Log(s, ErrorCall(retrying)));
      } else {
        RowOn(s.log, Report(retrying));
        if !(retrying && s.attempt > 1) {
          FitOn(c, s.log, Report(retrying));
        }
      }
    }
  }

  lemma ValueKeeps(c: Config, s: State, good: bool, q: Quits)
    requires Inv(c, s)
    ensures Inv(c, DoValue(c, s, good, q))
  {
    hide AllFit, Row, Told, DoState, DoFault, DoUnsubscribe;
    if s.live {
      if c.guarded && !good {
        FaultKeeps(c, s, true, q.inError);
      } else {
        var a := Log(s.(attempt := 0), GoodValue);
        FitOn(c, s.log, GoodValue);
        RowOn(s.log, GoodValue);
        StateKeeps(c, a, Live, q.inState);
        var t := DoState(c, a, Live, q.inState);
        Plainly(c, t.log, DataCall);
        UnsubscribeKeeps(c, Log(t, DataCall));
      }
    }
  }

  lemma ScheduleKeeps(c: Config, s: State, quit: bool)
    requires Inside(c, s) && !s.off && s.attempt >= 1
    ensures var t := Schedule(c, s, quit);
            Inside(c, t) && t.attempt == s.attempt && !t.off && t.timer.Some?
  {
    hide AllFit, Row, Told, DoState, Wait, Delay;
    StateKeeps(c, s, Retrying, quit);
    var t := DoState(c, s, Retrying, quit);
    DelayIsWait(t.attempt);
    FitOn(c, t.log, Scheduled(Delay(t.attempt)));
    RowOn(t.log, Scheduled(Delay(t.attempt)));
  }

  lemma BeforeFaultKeeps(c: Config, s: State, retries: bool)
    requires Inside(c, s) && s.live && s.timer == None
    ensures var t := BeforeFault(c, s, retries);
            && Inside(c, t) && !t.off
            && (if retries && c.legacy then t.timer.Some? else t.timer == None)
  {
    hide AllFit, Row, Told, Schedule;
    var t := Log(s.(off := false, attempt := s.attempt + 1), Refusal);
    FitOn(c, s.log, Refusal);
    RowOn(s.log, Refusal);
    if retries && c.legacy {
      ScheduleKeeps(c, t, false);
    }
  }

  lemma RefusedKeeps(c: Config, s: State, retryable: bool, limited: bool, q: Quits)
    requires Inside(c, s) && (s.live ==> s.timer == None)
    ensures Inv(c, DoRefused(c, s, retryable, limited, q))
  {
    hide AllFit, Row, Told, Schedule, DoFault, BeforeFault, DoState;
    if s.live {
      var retries := Retries(c, retryable, limited);
      BeforeFaultKeeps(c, s, retries);
      var t := BeforeFault(c, s, retries);
      FaultKeeps(c, t, retries, q.inError);
      var u := DoFault(c, t, retries, q.inError);
      if !retries {
        StateKeeps(c, u, Ended, q.inState);
      } else if !c.legacy {
        ScheduleKeeps(c, u, q.inState);
      }
    }
  }

  lemma StartKeeps(c: Config, s: State, outcome: Outcome, q: Quits)
    requires Inside(c, s) && (s.live ==> !s.off)
    ensures Inv(c, DoStart(c, s, outcome, q))
  {
    hide AllFit, Row, Told, DoRefused;
    var t := s.(timer := None);
    if s.live {
      match outcome
      case Subscribed => Plainly(c, t.log, Opened);
      case Threw(retryable, limited) => RefusedKeeps(c, t, retryable, limited, q);
    }
  }

  lemma StepKeepsInv(c: Config, s: State, e: Event)
    requires Inv(c, s)
    ensures Inv(c, Step(c, s, e))
  {
    hide AllFit, Row, Told, DoRefused, DoStart, DoValue, DoUnsubscribe;
    if Enabled(s, e) {
      match e
      case Fire(outcome, q) => StartKeeps(c, s, outcome, q);
      case Value(good, q) => ValueKeeps(c, s, good, q);
      case Refused(retryable, limited, q) => RefusedKeeps(c, s, retryable, limited, q);
      case Unsubscribe => UnsubscribeKeeps(c, s);
    }
  }

  lemma {:induction false} AfterKeepsInv(c: Config, s: State, events: seq<Event>)
    requires Inv(c, s)
    ensures Inv(c, After(c, s, events))
    decreases |events|
  {
    hide Inv, Step;
    if events != [] {
      StepKeepsInv(c, s, events[0]);
      AfterKeepsInv(c, Step(c, s, events[0]), events[1..]);
    }
  }

  lemma RunKeepsInv(c: Config, outcome: Outcome, q: Quits, events: seq<Event>)
    ensures Inv(c, Run(c, outcome, q, events))
  {
    hide DoStart, After;
    assert Inside(c, FRESH);
    StartKeeps(c, FRESH, outcome, q);
    AfterKeepsInv(c, DoStart(c, FRESH, outcome, q), events);
  }

  // ── The laws ────────────────────────────────────────────────────────────

  /** In every run a watch is never open and scheduled at once; while it is
      live it is one of them; the n-th refusal in a row waits
      min(30000, 1000 * 2^(n-1)) ms; two state calls in a row differ and none
      follows `ended`; without an error handler K2 hears of the first
      refusal of a row and of the last one only. */
  lemma WatchIsLawful(c: Config, outcome: Outcome, q: Quits, events: seq<Event>)
    ensures var s := Run(c, outcome, q, events);
            && !(s.off && s.timer.Some?)
            && (s.live ==> s.off || s.timer.Some?)
            && (forall k | 0 <= k < |s.log| :: Fits(c, s.log[..k], s.log[k]))
  {
    hide Run, Fits;
    RunKeepsInv(c, outcome, q, events);
  }

  /** Told to the handler or not, nothing at all follows `ended`. */
  lemma {:induction false} NothingAfterEnded(c: Config, outcome: Outcome, q: Quits, before: seq<Event>,
                                            later: seq<Event>)
    requires Run(c, outcome, q, before).now == Ended
    ensures Run(c, outcome, q, before + later).log == Run(c, outcome, q, before).log
  {
    hide After, DoStart;
    RunKeepsInv(c, outcome, q, before);
    AfterBoth(c, DoStart(c, FRESH, outcome, q), before, later);
    DeadIsStill(c, Run(c, outcome, q, before), later);
  }

  lemma {:induction false} DeadIsStill(c: Config, s: State, events: seq<Event>)
    requires !s.live
    ensures After(c, s, events).log == s.log && !After(c, s, events).live && After(c, s, events).now == s.now
    decreases |events|
  {
    if events != [] {
      DeadIsStill(c, Step(c, s, events[0]), events[1..]);
    }
  }

  lemma {:induction false} AfterBoth(c: Config, s: State, a: seq<Event>, b: seq<Event>)
    ensures After(c, s, a + b) == After(c, After(c, s, a), b)
    decreases |a|
  {
    hide Step;
    if a == [] {
      assert a + b == b;
    } else {
      assert (a + b)[1..] == a[1..] + b;
      AfterBoth(c, Step(c, s, a[0]), a[1..], b);
    }
  }

  // ── Every value and every refusal is answered ───────────────────────────

  /** What an event added to the log. */
  function Added(s: State, t: State): seq<Effect>
    requires |s.log| <= |t.log|
  {
    t.log[|s.log|..]
  }

  lemma AddedTwice(s: State, t: State, u: State)
    requires s.log <= t.log <= u.log
    ensures Added(s, u) == Added(s, t) + Added(t, u)
  {}

  lemma AddedOne(s: State, e: Effect)
    ensures Added(s, Log(s, e)) == [e] && Added(s, s) == []
  {}

  lemma UnsubscribeAdds(s: State)
    ensures s.log <= DoUnsubscribe(s).log
    ensures forall e | e in Added(s, DoUnsubscribe(s)) :: e.Quit? || e.Cleared? || e.Closed?
    ensures DoUnsubscribe(s).now == s.now
  {}

  lemma FaultAdds(c: Config, s: State, retrying: bool, quit: bool)
    requires s.live
    ensures var t := DoFault(c, s, retrying, quit);
            && s.log <= t.log && t.now == s.now
            && DataCall !in Added(s, t)
            && (c.hasError ==> ErrorCall(retrying) in Added(s, t))
            && (!c.hasError ==> (Report(retrying) in Added(s, t) <==> !retrying || s.attempt <= 1))
            && (t.live || (c.hasError && quit))
  {
    var u := Log(s, ErrorCall(retrying));
    UnsubscribeAdds(u);
    hide DoUnsubscribe;
    var t := DoFault(c, s, retrying, quit);
    if c.hasError {
      AddedOne(s, ErrorCall(retrying));
      AddedTwice(s, u, t);
    }
  }

  lemma StateAdds(c: Config, s: State, phase: Phase, quit: bool)
    requires s.live
    ensures var t := DoState(c, s, phase, quit);
            && s.log <= t.log && t.now == phase
            && (forall e | e in Added(s, t) :: e == StateCall(phase) || e.Quit? || e.Cleared? || e.Closed?)
            && (c.hasState && s.now != phase ==> StateCall(phase) in Added(s, t))
            && (t.live || (c.hasState && !c.legacy && quit))
  {
    var u := Log(s.(now := phase), StateCall(phase));
    UnsubscribeAdds(u);
    hide DoUnsubscribe;
    var t := DoState(c, s, phase, quit);
    if phase != s.now && c.hasState {
      assert Added(s, u) == [StateCall(phase)];
      AddedTwice(s, u, t);
    }
  }

  /** A live watch hands on every value of its shape, and every other one
      reaches the error handler, or K2 the first time. */
  lemma ValueIsAnswered(c: Config, s: State, good: bool, q: Quits)
    requires Inv(c, s) && s.live
    ensures var t := DoValue(c, s, good, q);
            && s.log <= t.log
            && (if c.guarded && !good then
                  && DataCall !in Added(s, t) && t.attempt == s.attempt
                  && (c.hasError ==> ErrorCall(true) in Added(s, t))
                  && (!c.hasError ==> (Report(true) in Added(s, t) <==> Row(s.log) <= 1))
                else
                  && DataCall in Added(s, t) && t.now == Live && t.attempt == 0
                  && (c.hasState && s.now != Live ==> StateCall(Live) in Added(s, t)))
            && (q == Quits(false, false, false) ==> t.live && t.off == s.off)
  {
    hide AllFit, Row, Told, DoState, DoFault, DoUnsubscribe, Added;
    if c.guarded && !good {
      FaultAdds(c, s, true, q.inError);
      FaultKeeps(c, s, true, q.inError);
    } else {
      var a := Log(s.(attempt := 0), GoodValue);
      FitOn(c, s.log, GoodValue);
      RowOn(s.log, GoodValue);
      StateAdds(c, a, Live, q.inState);
      StateKeeps(c, a, Live, q.inState);
      var t := DoState(c, a, Live, q.inState);
      var u := Log(t, DataCall);
      UnsubscribeAdds(u);
      UnsubscribeAttempt(u);
      var v := DoValue(c, s, good, q);
      GoodAdds(s);
      AddedOne(t, DataCall);
      AddedTwice(s, a, t);
      AddedTwice(s, t, u);
      AddedTwice(s, u, v);
    }
  }

  lemma GoodAdds(s: State)
    ensures Added(s, Log(s.(attempt := 0), GoodValue)) == [GoodValue]
  {}

  lemma UnsubscribeAttempt(s: State)
    ensures DoUnsubscribe(s).attempt == s.attempt
  {}

  /** A live watch answers every refusal: the error handler hears of it, or K2
      of the first in a row and of the last; then the retry is scheduled for the
      row's wait, or the watch ends. */
  lemma RefusalIsAnswered(c: Config, s: State, retryable: bool, limited: bool, q: Quits)
    requires Inv(c, s) && s.live && s.off
    ensures var t, retries := DoRefused(c, s, retryable, limited, q), retryable && (c.legacy ==> !limited);
            && s.log <= t.log && !t.off
            && (c.hasError ==> ErrorCall(retries) in Added(s, t))
            && (!c.hasError ==> (Report(retries) in Added(s, t) <==> !retries || Row(s.log) == 0))
            && (t.live ==> retries && t.now == Retrying && t.timer == Some(Wait(Row(s.log) + 1)))
            && (!retries && !(c.hasError && q.inError) ==> t.now == Ended)
            && (retries && q == Quits(false, false, false) ==> t.live)
  {
    hide AllFit, Row, Told, DoState, DoFault, DoUnsubscribe, Wait, Delay, Added, BeforeFault;
    var retries := Retries(c, retryable, limited);
    BeforeFaultKeeps(c, s, retries);
    var t := BeforeFault(c, s, retries);
    BeforeFaultAdds(c, s, retries);
    FaultKeeps(c, t, retries, q.inError);
    FaultAdds(c, t, retries, q.inError);
    var u := DoFault(c, t, retries, q.inError);
    AfterFaultAdds(c, u, retries, q.inState);
    var v := DoRefused(c, s, retryable, limited, q);
    assert v == AfterFault(c, u, retries, q.inState);
    AddedTwice(s, t, u);
    AddedTwice(s, u, v);
    RefusedKeeps(c, s, retryable, limited, q);
  }

  lemma ScheduleAdds(c: Config, s: State, quit: bool)
    requires s.attempt >= 1
    ensures var t := Schedule(c, s, quit);
            && s.log <= t.log && t.timer == Some(Wait(s.attempt)) && t.attempt == s.attempt
            && (s.live ==> t.now == Retrying) && (!s.live ==> !t.live)
            && (s.live && !(c.hasState && !c.legacy && quit) ==> t.live)
            && (forall e | e in Added(s, t) :: !e.ErrorCall? && !e.Report?)
  {
    hide DoState, Wait, Delay;
    StateAttempt(c, s, Retrying, quit);
    DelayIsWait(s.attempt);
    var t := DoState(c, s, Retrying, quit);
    if s.live {
      StateAdds(c, s, Retrying, quit);
      AddedTwice(s, t, Schedule(c, s, quit));
      assert Added(t, Schedule(c, s, quit)) == [Scheduled(Delay(t.attempt))];
    } else {
      StateOfDead(c, s, Retrying, quit);
      assert Added(s, Schedule(c, s, quit)) == [Scheduled(Delay(s.attempt))];
    }
  }

  lemma StateOfDead(c: Config, s: State, phase: Phase, quit: bool)
    requires !s.live
    ensures DoState(c, s, phase, quit) == s
  {}

  lemma BeforeFaultAdds(c: Config, s: State, retries: bool)
    requires s.live
    ensures var t := BeforeFault(c, s, retries);
            && s.log <= t.log && t.live
            && (retries && c.legacy ==> t.now == Retrying && t.timer == Some(Wait(t.attempt)))
            && (forall e | e in Added(s, t) :: !e.ErrorCall? && !e.Report?)
  {
    hide Schedule, Wait;
    var t := Log(s.(off := false, attempt := s.attempt + 1), Refusal);
    if retries && c.legacy {
      ScheduleAdds(c, t, false);
      assert Added(s, t) == [Refusal];
      AddedTwice(s, t, Schedule(c, t, false));
    } else {
      assert Added(s, t) == [Refusal];
    }
  }

  lemma AfterFaultAdds(c: Config, s: State, retries: bool, quit: bool)
    requires s.attempt >= 1
    ensures var t := AfterFault(c, s, retries, quit);
            && s.log <= t.log && (t.live ==> retries && s.live)
            && (retries && !c.legacy && s.live ==> t.now == Retrying && t.timer == Some(Wait(s.attempt)))
            && (retries && c.legacy ==> t == s)
            && (!retries && s.live ==> t.now == Ended)
            && (s.live && retries && !quit ==> t.live)
            && (forall e | e in Added(s, t) :: !e.ErrorCall? && !e.Report?)
  {
    hide Schedule, DoState, Wait;
    AddedOne(s, Refusal);
    if !retries {
      if s.live { StateAdds(c, s, Ended, quit); } else { StateOfDead(c, s, Ended, quit); }
      assert Added(s, AfterFault(c, s, retries, quit)) == Added(s, DoState(c, s, Ended, quit));
    } else if !c.legacy {
      ScheduleAdds(c, s, quit);
    }
  }

  // ── When a watch gives up ───────────────────────────────────────────────

  const STAYS := Quits(false, false, false)

  /** The widget does not unsubscribe in the event, from a handler or otherwise. */
  predicate Stays(e: Event) {
    match e
    case Fire(_, q) => q == STAYS
    case Value(_, q) => q == STAYS
    case Refused(_, _, q) => q == STAYS
    case Unsubscribe => false
  }

  /** The event brings a refusal that is not retryable. */
  predicate NotRetryable(e: Event) {
    match e
    case Refused(retryable, _, _) => !retryable
    case Fire(Threw(retryable, _), _) => !retryable
    case _ => false
  }

  /** The event brings a refusal for the rate of calls. */
  predicate RateLimited(e: Event) {
    match e
    case Refused(_, limited, _) => limited
    case Fire(Threw(_, limited), _) => limited
    case _ => false
  }

  /** Event `i` of the run happens, and `bad` holds of it. */
  ghost predicate Comes(c: Config, s: State, events: seq<Event>, i: nat, bad: Event -> bool) {
    i < |events| && Enabled(After(c, s, events[..i]), events[i]) && bad(events[i])
  }

  lemma RefusedStays(c: Config, s: State, retryable: bool, limited: bool)
    requires Inside(c, s) && s.live && s.timer == None
    ensures var t := DoRefused(c, s, retryable, limited, STAYS);
            if !retryable || (c.legacy && limited) then !t.live && t.now == Ended else t.live && t.now != Ended
  {
    hide AllFit, Row, Told, Schedule, DoState, DoFault;
    var retries := Retries(c, retryable, limited);
    BeforeFaultKeeps(c, s, retries);
    BeforeFaultAdds(c, s, retries);
    var t := BeforeFault(c, s, retries);
    FaultKeeps(c, t, retries, false);
    FaultAdds(c, t, retries, false);
    var u := DoFault(c, t, retries, false);
    AfterFaultAdds(c, u, retries, false);
    RefusedKeeps(c, s, retryable, limited, STAYS);
  }

  /** While the widget stays, an event ends a live watch exactly when it brings
      a refusal that is not retryable, or to the old form one for the rate. */
  lemma StepStays(c: Config, s: State, e: Event)
    requires Inv(c, s) && s.live && Stays(e) && Enabled(s, e)
    ensures var t := Step(c, s, e);
            if NotRetryable(e) || (c.legacy && RateLimited(e)) then !t.live && t.now == Ended
            else t.live && t.now != Ended
  {
    hide AllFit, Row, Told, DoRefused, DoValue, DoUnsubscribe;
    StepKeepsInv(c, s, e);
    match e
    case Refused(retryable, limited, q) => RefusedStays(c, s, retryable, limited);
    case Fire(Threw(retryable, limited), q) => RefusedStays(c, s.(timer := None), retryable, limited);
    case Value(good, q) => ValueIsAnswered(c, s, good, q);
    case _ =>
  }

  lemma ComesLater(c: Config, s: State, events: seq<Event>, i: nat, bad: Event -> bool)
    requires events != []
    ensures Comes(c, s, events, i + 1, bad) <==> Comes(c, Step(c, s, events[0]), events[1..], i, bad)
  {
    hide Step, Enabled;
    if i + 1 < |events| {
      assert events[..i + 1][1..] == events[1..][..i];
    }
  }

  /** A run in which the widget stays ends exactly when an event comes that
      ends a live watch. */
  lemma {:induction false} GivesUpFrom(c: Config, s: State, events: seq<Event>, bad: Event -> bool)
    requires Inv(c, s) && s.live && s.now != Ended && forall e | e in events :: Stays(e)
    requires forall e :: bad(e) <==> NotRetryable(e) || (c.legacy && RateLimited(e))
    ensures var t := After(c, s, events);
            && (t.live <==> t.now != Ended)
            && (t.live <==> !exists i: nat :: Comes(c, s, events, i, bad))
    decreases |events|
  {
    hide Inv, Step, Enabled;
    if events != [] {
      var e, rest := events[0], events[1..];
      assert events[..0] == [];
      StepKeepsInv(c, s, e);
      if !Enabled(s, e) {
        StepOfDisabled(c, s, e);
        GivesUpFrom(c, s, rest, bad);
        assert !Comes(c, s, events, 0, bad);
      } else {
        StepStays(c, s, e);
        assert Comes(c, s, events, 0, bad) <==> bad(e);
        if bad(e) {
          DeadIsStill(c, Step(c, s, e), rest);
        } else {
          GivesUpFrom(c, Step(c, s, e), rest, bad);
        }
      }
      forall i: nat ensures Comes(c, s, events, i + 1, bad) <==> Comes(c, Step(c, s, e), rest, i, bad) {
        ComesLater(c, s, events, i, bad);
      }
      if i: nat :| Comes(c, s, events, i, bad) {
        assert i > 0 ==> Comes(c, Step(c, s, e), rest, i - 1, bad);
      }
      if i: nat :| Comes(c, Step(c, s, e), rest, i, bad) {
        assert Comes(c, s, events, i + 1, bad);
      }
    }
  }

  lemma StepOfDisabled(c: Config, s: State, e: Event)
    requires !Enabled(s, e)
    ensures Step(c, s, e) == s
  {}

  predicate EndsOldForm(e: Event) {
    NotRetryable(e) || RateLimited(e)
  }

  lemma GivesUpInRun(c: Config, outcome: Outcome, events: seq<Event>, bad: Event -> bool)
    requires forall e | e in events :: Stays(e)
    requires forall e :: bad(e) <==> NotRetryable(e) || (c.legacy && RateLimited(e))
    ensures var s, t := DoStart(c, FRESH, outcome, STAYS), Run(c, outcome, STAYS, events);
            && (t.live <==> t.now != Ended)
            && (t.live <==> !bad(Fire(outcome, STAYS)) && !exists i: nat :: Comes(c, s, events, i, bad))
  {
    hide Inv, DoRefused, After;
    var s := DoStart(c, FRESH, outcome, STAYS);
    assert Inside(c, FRESH);
    StartKeeps(c, FRESH, outcome, STAYS);
    if outcome.Threw? {
      RefusedStays(c, FRESH, outcome.retryable, outcome.limited);
    }
    if s.live {
      GivesUpFrom(c, s, events, bad);
    } else {
      DeadIsStill(c, s, events);
    }
  }

  /** A handler-object watch whose widget stays lives on, through rate limits
      too, until a refusal comes that is not retryable, and ends with that. */
  lemma HandlerObjectGivesUp(c: Config, outcome: Outcome, events: seq<Event>)
    requires !c.legacy && forall e | e in events :: Stays(e)
    ensures var s, t := DoStart(c, FRESH, outcome, STAYS), Run(c, outcome, STAYS, events);
            && (t.live <==> t.now != Ended)
            && (t.live <==> !NotRetryable(Fire(outcome, STAYS))
                            && !exists i: nat :: Comes(c, s, events, i, NotRetryable))
  {
    hide Run, DoStart;
    GivesUpInRun(c, outcome, events, NotRetryable);
  }

  /** An old-form watch ends with the first refusal that is not retryable or is
      for the rate of calls, and with nothing else. */
  lemma OldFormGivesUp(c: Config, outcome: Outcome, events: seq<Event>)
    requires c.legacy && forall e | e in events :: Stays(e)
    ensures var s, t := DoStart(c, FRESH, outcome, STAYS), Run(c, outcome, STAYS, events);
            && (t.live <==> t.now != Ended)
            && (t.live <==> !EndsOldForm(Fire(outcome, STAYS))
                            && !exists i: nat :: Comes(c, s, events, i, EndsOldForm))
  {
    hide Run, DoStart;
    GivesUpInRun(c, outcome, events, EndsOldForm);
  }

  // ── Silence after the unsubscribe ───────────────────────────────────────

  predicate CallsWidget(e: Effect) {
    e.DataCall? || e.ErrorCall? || e.StateCall?
  }

  /** No handler runs after the unsubscribe. */
  predicate Silent(log: seq<Effect>) {
    forall i, k | 0 <= i < k < |log| && log[i].Quit? :: !CallsWidget(log[k])
  }

  /** The widget unsubscribes from inside its `live` state call. */
  predicate QuitsInLive(c: Config, s: State, e: Event) {
    && s.live && s.off && e.Value? && (c.guarded ==> e.good)
    && s.now != Live && c.hasState && !c.legacy && e.quits.inState
  }

  /** Some event of the run does. */
  predicate SomeQuitsInLive(c: Config, s: State, events: seq<Event>)
    decreases |events|
  {
    events != [] && (QuitsInLive(c, s, events[0]) || SomeQuitsInLive(c, Step(c, s, events[0]), events[1..]))
  }

  predicate NoQuit(log: seq<Effect>) {
    forall i | 0 <= i < |log| :: !log[i].Quit?
  }

  /** While live nothing was unsubscribed; afterwards the log is silent. */
  predicate Hushed(s: State) {
    if s.live then NoQuit(s.log) else Silent(s.log)
  }

  lemma NoQuitOn(log: seq<Effect>, e: Effect)
    requires NoQuit(log)
    ensures e.Quit? || NoQuit(log + [e])
    ensures Silent(log + [e]) && Silent(log)
  {}

  lemma QuietOn(log: seq<Effect>, e: Effect)
    requires Silent(log) && !CallsWidget(e)
    ensures Silent(log + [e])
  {}

  lemma UnsubscribeHushes(s: State)
    requires Hushed(s)
    ensures Hushed(DoUnsubscribe(s)) && Silent(DoUnsubscribe(s).log)
  {
    hide Silent, NoQuit, CallsWidget;
    if s.live {
      var a := s.log + [Quit];
      NoQuitOn(s.log, Quit);
      assert !CallsWidget(Cleared) && !CallsWidget(Closed) by { Unheard(); }
      var b := if s.timer.Some? then a + [Cleared] else a;
      QuietOn(a, Cleared);
      QuietOn(b, Closed);
      assert DoUnsubscribe(s).log == if s.off then b + [Closed] else b;
    }
  }

  lemma Unheard()
    ensures !CallsWidget(Cleared) && !CallsWidget(Closed) && !CallsWidget(Scheduled(0)) && !CallsWidget(Opened)
    ensures forall d :: !CallsWidget(Scheduled(d))
  {}

  lemma LoggedHushed(s: State, e: Effect)
    requires s.live && NoQuit(s.log) && !e.Quit?
    ensures Hushed(Log(s, e)) && Log(s, e).live && NoQuit(Log(s, e).log)
  {
    NoQuitOn(s.log, e);
  }

  lemma StateHushes(c: Config, s: State, phase: Phase, quit: bool)
    requires Hushed(s)
    ensures Hushed(DoState(c, s, phase, quit))
  {
    hide Silent, NoQuit, DoUnsubscribe;
    if s.live && phase != s.now && c.hasState {
      LoggedHushed(s.(now := phase), StateCall(phase));
      UnsubscribeHushes(Log(s.(now := phase), StateCall(phase)));
    }
  }

  lemma FaultHushes(c: Config, s: State, retrying: bool, quit: bool)
    requires Hushed(s)
    ensures Hushed(DoFault(c, s, retrying, quit))
  {
    hide Silent, NoQuit, DoUnsubscribe;
    if s.live {
      LoggedHushed(s, ErrorCall(retrying));
      LoggedHushed(s, Report(retrying));
      UnsubscribeHushes(Log(s, ErrorCall(retrying)));
    }
  }

  lemma ScheduleHushes(c: Config, s: State, quit: bool)
    requires Hushed(s) && s.attempt >= 1 && DoState(c, s, Retrying, quit).attempt >= 1
    ensures Hushed(Schedule(c, s, quit))
  {
    hide Silent, NoQuit, DoUnsubscribe, DoState, Delay;
    StateHushes(c, s, Retrying, quit);
    var t := DoState(c, s, Retrying, quit);
    NoQuitOrQuiet(t, Scheduled(Delay(t.attempt)));
  }

  lemma NoQuitOrQuiet(s: State, e: Effect)
    requires Hushed(s) && !CallsWidget(e) && !e.Quit?
    ensures Hushed(Log(s, e))
  {
    if !s.live {
      QuietOn(s.log, e);
    }
  }

  lemma EndHushes(s: State)
    requires Hushed(s)
    ensures Hushed(s.(live := false)) && Silent(s.log)
  {
    if s.live {
      NoQuitOn(s.log, Quit);
    }
  }

  lemma RefusedHushes(c: Config, s: State, retryable: bool, limited: bool, q: Quits)
    requires Hushed(s)
    ensures Hushed(DoRefused(c, s, retryable, limited, q))
  {
    hide Silent, NoQuit, DoState, DoFault, Schedule;
    if s.live {
      var retries := Retries(c, retryable, limited);
      var t := Log(s.(off := false, attempt := s.attempt + 1), Refusal);
      LoggedHushed(s.(off := false, attempt := s.attempt + 1), Refusal);
      if retries && c.legacy {
        StateAttempt(c, t, Retrying, false);
        ScheduleHushes(c, t, false);
      }
      var u := BeforeFault(c, s, retries);
      FaultHushes(c, u, retries, q.inError);
      var v := DoFault(c, u, retries, q.inError);
      FaultAttempt(c, u, retries, q.inError);
      if !retries {
        StateHushes(c, v, Ended, q.inState);
        EndHushes(DoState(c, v, Ended, q.inState));
      } else if !c.legacy {
        StateAttempt(c, v, Retrying, q.inState);
        ScheduleHushes(c, v, q.inState);
      }
    }
  }

  lemma StateAttempt(c: Config, s: State, phase: Phase, quit: bool)
    ensures DoState(c, s, phase, quit).attempt == s.attempt
  {}

  lemma FaultAttempt(c: Config, s: State, retrying: bool, quit: bool)
    ensures DoFault(c, s, retrying, quit).attempt == s.attempt
  {}

  lemma StartHushes(c: Config, s: State, outcome: Outcome, q: Quits)
    requires Hushed(s)
    ensures Hushed(DoStart(c, s, outcome, q))
  {
    hide Silent, NoQuit, DoRefused;
    if s.live {
      match outcome
      case Subscribed => NoQuitOn(s.log, Opened);
      case Threw(retryable, limited) => RefusedHushes(c, s.(timer := None), retryable, limited, q);
    }
  }

  lemma ValueHushes(c: Config, s: State, good: bool, q: Quits)
    requires Hushed(s) && s.live && s.off
    ensures var t := DoValue(c, s, good, q);
            if QuitsInLive(c, s, Value(good, q)) then !t.live && !Silent(t.log) else Hushed(t)
  {
    hide NoQuit, DoState, DoFault, DoUnsubscribe, Silent;
    if c.guarded && !good {
      FaultHushes(c, s, true, q.inError);
    } else {
      var a := Log(s.(attempt := 0), GoodValue);
      LoggedHushed(s.(attempt := 0), GoodValue);
      if QuitsInLive(c, s, Value(good, q)) {
        DataAfterQuit(c, a);
      } else {
        StateHushes(c, a, Live, q.inState);
        assert DoState(c, a, Live, q.inState).live by { StaysLive(c, a, q.inState); }
        LoggedHushed(DoState(c, a, Live, q.inState), DataCall);
        UnsubscribeHushes(Log(DoState(c, a, Live, q.inState), DataCall));
      }
    }
  }

  lemma StaysLive(c: Config, s: State, quit: bool)
    requires s.live && !(s.now != Live && c.hasState && !c.legacy && quit)
    ensures DoState(c, s, Live, quit).live
  {}

  /** The value's data handler runs on an unsubscribed watch. */
  lemma DataAfterQuit(c: Config, s: State)
    requires s.live && s.now != Live && c.hasState && !c.legacy
    ensures var t := DoState(c, s, Live, true);
            && !t.live && !Silent(Log(t, DataCall).log)
            && (forall quit :: MaybeQuit(Log(t, DataCall), quit) == Log(t, DataCall))
  {
    var t := DoState(c, s, Live, true);
    var k := |s.log| + 1;
    var log := Log(t, DataCall).log;
    assert t.log[k] == Quit;
    assert log[k].Quit? && CallsWidget(log[|log| - 1]);
  }

  lemma StepHushes(c: Config, s: State, e: Event)
    requires Hushed(s)
    ensures var t := Step(c, s, e);
            if QuitsInLive(c, s, e) then !t.live && !Silent(t.log) else Hushed(t)
  {
    hide Hushed, Silent, DoRefused, DoStart, DoValue, DoUnsubscribe;
    if Enabled(s, e) {
      match e
      case Fire(outcome, q) => StartHushes(c, s, outcome, q);
      case Value(good, q) => if s.live { ValueHushes(c, s, good, q); } else { ValueOfDead(c, s, good, q); }
      case Refused(retryable, limited, q) => RefusedHushes(c, s, retryable, limited, q);
      case Unsubscribe => UnsubscribeHushes(s);
    }
  }

  lemma ValueOfDead(c: Config, s: State, good: bool, q: Quits)
    requires !s.live
    ensures DoValue(c, s, good, q) == s
  {}

  /** No handler runs after the unsubscribe exactly when the widget never
      unsubscribes from inside its `live` state call. */
  lemma SilentAfterUnsubscribe(c: Config, outcome: Outcome, q: Quits, events: seq<Event>)
    ensures Silent(Run(c, outcome, q, events).log)
        <==> !SomeQuitsInLive(c, DoStart(c, FRESH, outcome, q), events)
  {
    hide DoStart, After, Silent, SomeQuitsInLive;
    assert Hushed(FRESH);
    StartHushes(c, FRESH, outcome, q);
    SilentFrom(c, DoStart(c, FRESH, outcome, q), events);
  }

  lemma {:induction false} SilentFrom(c: Config, s: State, events: seq<Event>)
    requires Hushed(s)
    ensures Silent(After(c, s, events).log) <==> !SomeQuitsInLive(c, s, events)
    decreases |events|
  {
    hide Step, Silent, QuitsInLive, Hushed;
    if events == [] {
      EndHushes(s);
    } else {
      var t := Step(c, s, events[0]);
      StepHushes(c, s, events[0]);
      if QuitsInLive(c, s, events[0]) {
        DeadIsStill(c, t, events[1..]);
      } else {
        SilentFrom(c, t, events[1..]);
      }
    }
  }

  /** The shortest such run: the first good value of a handler object. */
  lemma DataFollowsUnsubscribe()
    ensures var no := Quits(false, false, false);
            Run(Config(false, false, true, true), Subscribed, no, [Value(true, Quits(true, false, false))]).log
            == [Opened, GoodValue, StateCall(Live), Quit, Closed, DataCall]
  {
    var c, no := Config(false, false, true, true), Quits(false, false, false);
    var e := Value(true, Quits(true, false, false));
    var s := DoStart(c, FRESH, Subscribed, no);
    assert s.log == [Opened] && s.off && s.live && s.now == Unset;
    assert [e][1..] == [];
    assert After(c, s, [e]) == Step(c, s, e);
  }
}
