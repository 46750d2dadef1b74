/** Exactly what a watch does on each event, in order and in full. */
module WatchAnswers {
  import opened Basics
  import opened Watch
  import opened WatchRuns

  // ── A widget that stays ─────────────────────────────────────────────────

  function Telling(c: Config, before: Phase, phase: Phase): seq<Effect> {
    if c.hasState && before != phase then [StateCall(phase)] else []
  }

  /** Who hears of a fault: the error handler, or K2 unless it is a retry after
      the first of its row. */
  function Hearing(c: Config, row: nat, retrying: bool): seq<Effect> {
    if c.hasError then [ErrorCall(retrying)]
    else if !retrying || row <= 1 then [Report(retrying)]
    else []
  }

  function Retrial(c: Config, row: nat, now: Phase): seq<Effect> {
    Telling(c, now, Retrying) + [Scheduled(Wait(row + 1))]
  }

  /** The old form is retrying before its error handler hears of it. */
  function OfRefusal(c: Config, row: nat, now: Phase, retryable: bool, limited: bool): seq<Effect> {
    if !retryable || (c.legacy && limited) then [Refusal] + (Hearing(c, row + 1, false) + Telling(c, now, Ended))
    else if c.legacy then [Refusal] + (Retrial(c, row, now) + Hearing(c, row + 1, true))
    else [Refusal] + (Hearing(c, row + 1, true) + Retrial(c, row, now))
  }

  /** What the runtime does on an event if the widget does not unsubscribe in it. */
  function Answer(c: Config, row: nat, now: Phase, e: Event): seq<Effect> {
    match e
    case Fire(Subscribed, _) => [Opened]
    case Fire(Threw(retryable, limited), _) => OfRefusal(c, row, now, retryable, limited)
    case Refused(retryable, limited, _) => OfRefusal(c, row, now, retryable, limited)
    case Value(good, _) =>
      if c.guarded && !good then Hearing(c, row, true) else [GoodValue] + (Telling(c, now, Live) + [DataCall])
    case Unsubscribe => []
  }

  // ── A widget that unsubscribes ──────────────────────────────────────────

  function Bye(due: bool, open: bool): seq<Effect> {
    [Quit] + (if due then [Cleared] else []) + if open then [Closed] else []
  }

  /** The widget unsubscribes in this call; the old form's state handler is K2's. */
  predicate QuitsIn(c: Config, q: Quits, e: Effect) {
    match e
    case StateCall(_) => q.inState && !c.legacy
    case ErrorCall(_) => q.inError
    case DataCall => q.inData
    case _ => false
  }

  predicate Quitting(c: Config, q: Quits, a: seq<Effect>) {
    exists i | 0 <= i < |a| :: QuitsIn(c, q, a[i])
  }

  /** What an unsubscribe leaves of what was to come: no state and no error call. */
  function Leftover(a: seq<Effect>): seq<Effect> {
    if a == [] then []
    else (if a[0].StateCall? || a[0].ErrorCall? then [] else [a[0]]) + Leftover(a[1..])
  }

  /** The answer up to and with the first call in which the widget unsubscribes,
      what the unsubscribe does, and the leftover. */
  function Carried(c: Config, q: Quits, due: bool, open: bool, a: seq<Effect>): seq<Effect>
    decreases |a|
  {
    if a == [] then []
    else if QuitsIn(c, q, a[0]) then [a[0]] + Bye(due, open) + Leftover(a[1..])
    else [a[0]] + Carried(c, q, due || a[0].Scheduled?, open, a[1..])
  }

  predicate HasScheduled(a: seq<Effect>) {
    exists i | 0 <= i < |a| :: a[i].Scheduled?
  }

  lemma BothHave(c: Config, q: Quits, a: seq<Effect>, b: seq<Effect>)
    ensures Quitting(c, q, a + b) <==> Quitting(c, q, a) || Quitting(c, q, b)
    ensures HasScheduled(a + b) <==> HasScheduled(a) || HasScheduled(b)
  {
    hide QuitsIn;
    assert forall i | 0 <= i < |a| :: (a + b)[i] == a[i];
    assert forall i | 0 <= i < |b| :: (a + b)[|a| + i] == b[i];
  }

  lemma CarriedFirst(c: Config, q: Quits, due: bool, open: bool, e: Effect, rest: seq<Effect>)
    ensures Carried(c, q, due, open, [e] + rest)
         == [e] + if QuitsIn(c, q, e) then Bye(due, open) + Leftover(rest)
                  else Carried(c, q, due || e.Scheduled?, open, rest)
    ensures Quitting(c, q, [e] + rest) <==> QuitsIn(c, q, e) || Quitting(c, q, rest)
    ensures HasScheduled([e] + rest) <==> e.Scheduled? || HasScheduled(rest)
  {
    BothHave(c, q, [e], rest);
    CarriedOne(c, q, due, open, e);
    OneScheduled(e);
    hide QuitsIn, Bye, HasScheduled, Quitting, Leftover;
    assert ([e] + rest)[1..] == rest;
  }

  lemma {:induction false} CarriedOn(c: Config, q: Quits, due: bool, open: bool, a: seq<Effect>, b: seq<Effect>)
    ensures Carried(c, q, due, open, a + b)
         == if Quitting(c, q, a) then Carried(c, q, due, open, a) + Leftover(b)
            else a + Carried(c, q, due || HasScheduled(a), open, b)
    decreases |a|
  {
    hide QuitsIn, Bye, HasScheduled, Quitting, Leftover, Carried;
    if a == [] {
      assert a + b == b;
      assert !HasScheduled([]) by { NothingScheduled(); }
      CarriedOne(c, q, due, open, Quit);
    } else {
      var e, rest := a[0], a[1..];
      assert a == [e] + rest && a + b == [e] + (rest + b);
      CarriedFirst(c, q, due, open, e, rest);
      CarriedFirst(c, q, due, open, e, rest + b);
      if QuitsIn(c, q, e) {
        LeftoverOn(rest, b);
      } else {
        CarriedOn(c, q, due || e.Scheduled?, open, rest, b);
      }
    }
  }

  lemma OneScheduled(e: Effect)
    ensures HasScheduled([e]) <==> e.Scheduled?
  {
    assert [e][0] == e;
  }

  lemma {:induction false} LeftoverOn(a: seq<Effect>, b: seq<Effect>)
    ensures Leftover(a + b) == Leftover(a) + Leftover(b)
  {
    if a == [] {
      assert a + b == b;
    } else {
      assert (a + b)[1..] == a[1..] + b;
      LeftoverOn(a[1..], b);
    }
  }

  /** Effects that are no handler calls are carried as they are. */
  lemma CarriedOne(c: Config, q: Quits, due: bool, open: bool, e: Effect)
    ensures Carried(c, q, due, open, [e]) == [e] + if QuitsIn(c, q, e) then Bye(due, open) else []
    ensures Quitting(c, q, [e]) <==> QuitsIn(c, q, e)
    ensures Leftover([e]) == if e.StateCall? || e.ErrorCall? then [] else [e]
    ensures Carried(c, q, due, open, []) == [] == Leftover([]) && !Quitting(c, q, [])
  {
    hide QuitsIn, Bye;
    assert [e][1..] == [];
    assert [e][0] == e;
  }

  // ── The steps ───────────────────────────────────────────────────────────

  lemma ByeIs(s: State)
    requires s.live
    ensures DoUnsubscribe(s) == s.(live := false, timer := None, off := false, log := s.log + Bye(s.timer.Some?, s.off))
  {
    assert s.log + Bye(s.timer.Some?, s.off)
        == s.log + [Quit] + (if s.timer.Some? then [Cleared] else []) + (if s.off then [Closed] else []);
  }

  /** A step of the runtime on a live watch answers with `a`. */
  predicate Does(c: Config, q: Quits, s: State, t: State, a: seq<Effect>) {
    && t.log == s.log + Carried(c, q, s.timer.Some?, s.off, a)
    && (t.live <==> !Quitting(c, q, a))
  }

  lemma FaultDoes(c: Config, s: State, retrying: bool, q: Quits)
    requires s.live
    ensures var t := DoFault(c, s, retrying, q.inError);
            && Does(c, q, s, t, Hearing(c, s.attempt, retrying))
            && (t.live ==> t == s.(log := t.log)) && t.now == s.now && t.attempt == s.attempt && (!t.live ==> !t.off)
  {
    hide Bye, Carried, Quitting, DoUnsubscribe, Leftover;
    if c.hasError {
      CarriedOne(c, q, s.timer.Some?, s.off, ErrorCall(retrying));
      ByeIs(Log(s, ErrorCall(retrying)));
    } else {
      CarriedOne(c, q, s.timer.Some?, s.off, Report(retrying));
    }
  }

  lemma StateDoes(c: Config, s: State, phase: Phase, quit: bool, q: Quits)
    requires s.live && (quit && !c.legacy <==> q.inState && !c.legacy)
    ensures var t := DoState(c, s, phase, quit);
            && Does(c, q, s, t, Telling(c, s.now, phase))
            && (t.live ==> t == s.(now := phase, log := t.log)) && t.attempt == s.attempt && (!t.live ==> !t.off)
  {
    hide Bye, Carried, Quitting, DoUnsubscribe, Leftover;
    CarriedOne(c, q, s.timer.Some?, s.off, StateCall(phase));
    ByeIs(Log(s.(now := phase), StateCall(phase)));
  }

  /** Two steps, one after the other. */
  lemma Both(c: Config, q: Quits, s: State, t: State, u: State, a: seq<Effect>, b: seq<Effect>)
    requires Does(c, q, s, t, a)
    requires t.live ==> t.off == s.off && (t.timer.Some? <==> s.timer.Some? || HasScheduled(a)) && Does(c, q, t, u, b)
    requires !t.live ==> u.log == t.log + Leftover(b) && !u.live
    ensures Does(c, q, s, u, a + b)
  {
    hide Carried, Quitting, HasScheduled, Leftover;
    CarriedOn(c, q, s.timer.Some?, s.off, a, b);
    BothHave(c, q, a, b);
    if t.live {
      NoQuitCarries(c, q, s.timer.Some?, s.off, a);
    }
  }

  lemma {:induction false} NoQuitCarries(c: Config, q: Quits, due: bool, open: bool, a: seq<Effect>)
    requires !Quitting(c, q, a)
    ensures Carried(c, q, due, open, a) == a
    decreases |a|
  {
    if a != [] {
      assert forall i | 0 <= i < |a[1..]| :: a[1..][i] == a[i + 1];
      NoQuitCarries(c, q, due || a[0].Scheduled?, open, a[1..]);
    }
  }

  lemma NoneScheduled(c: Config, before: Phase, phase: Phase, row: nat, retrying: bool)
    ensures !HasScheduled(Telling(c, before, phase)) && !HasScheduled(Hearing(c, row, retrying))
    ensures Leftover(Telling(c, before, phase)) == []
  {
    OneScheduled(StateCall(phase));
    OneScheduled(ErrorCall(retrying));
    OneScheduled(Report(retrying));
    hide HasScheduled;
    CarriedOne(c, STAYS, false, false, StateCall(phase));
    assert !HasScheduled([]) by { NothingScheduled(); }
  }

  lemma NothingScheduled()
    ensures !HasScheduled([])
  {}

  lemma OneDoes(c: Config, q: Quits, s: State, e: Effect)
    requires s.live && !QuitsIn(c, q, e)
    ensures Does(c, q, s, Log(s, e), [e]) && Leftover([e]) == if e.StateCall? || e.ErrorCall? then [] else [e]
  {
    hide Carried, Quitting, QuitsIn, Leftover;
    CarriedOne(c, q, s.timer.Some?, s.off, e);
  }

  lemma ScheduleDoes(c: Config, s: State, quit: bool, q: Quits)
    requires s.live && s.attempt >= 1 && (quit && !c.legacy <==> q.inState && !c.legacy)
    ensures var t := Schedule(c, s, quit);
            && Does(c, q, s, t, Retrial(c, s.attempt - 1, s.now))
            && t.off == (s.off && t.live) && t.timer.Some? && t.attempt == s.attempt
            && (t.live ==> t.now == Retrying)
  {
    hide DoState, Delay, Wait, Telling, Carried, HasScheduled, Quitting, Leftover;
    var t, u, e := DoState(c, s, Retrying, quit), Schedule(c, s, quit), Scheduled(Wait(s.attempt));
    StateDoes(c, s, Retrying, quit, q);
    DelayIsWait(s.attempt);
    NoneScheduled(c, s.now, Retrying, 0, true);
    OneLeft(e);
    if t.live {
      OneDoes(c, q, t, e);
    }
    Both(c, q, s, t, u, Telling(c, s.now, Retrying), [e]);
  }

  lemma OneLeft(e: Effect)
    ensures Leftover([e]) == if e.StateCall? || e.ErrorCall? then [] else [e]
  {
    assert [e][1..] == [];
  }

  lemma RetrialHas(c: Config, row: nat, now: Phase)
    ensures HasScheduled(Retrial(c, row, now)) && Leftover(Retrial(c, row, now)) == [Scheduled(Wait(row + 1))]
  {
    hide Telling, Wait;
    var e := Scheduled(Wait(row + 1));
    NoneScheduled(c, now, Retrying, 0, true);
    OneScheduled(e);
    BothHave(c, STAYS, Telling(c, now, Retrying), [e]);
    LeftoverOn(Telling(c, now, Retrying), [e]);
    OneLeft(e);
  }

  /** The state when the refusal has come in. */
  function Counted(s: State): State {
    Log(s.(off := false, attempt := s.attempt + 1), Refusal)
  }

  lemma RetriedDoes(c: Config, s: State, q: Quits)
    requires s.live && !s.off && s.timer == None
    ensures var t := AfterFault(c, DoFault(c, BeforeFault(c, s, true), true, q.inError), true, q.inState);
            && Does(c, q, s, t, OfRefusal(c, s.attempt, s.now, true, false)) && !t.off
  {
    hide DoState, DoFault, Schedule, Wait, Telling, Hearing, Carried, HasScheduled, Quitting, Leftover, Retrial;
    var t, n := Counted(s), s.attempt + 1;
    OneDoes(c, q, s, Refusal);
    OneScheduled(Refusal);
    NoneScheduled(c, s.now, Retrying, n, true);
    RetrialHas(c, s.attempt, s.now);
    var retry, heard := Retrial(c, s.attempt, s.now), Hearing(c, n, true);
    if c.legacy {
      var u := Schedule(c, t, false);
      ScheduleDoes(c, t, false, q);
      var v := DoFault(c, u, true, q.inError);
      LegacyStays(c, t);
      FaultDoes(c, u, true, q);
      Both(c, q, t, u, v, retry, heard);
      Both(c, q, s, t, v, [Refusal], retry + heard);
    } else {
      var u := DoFault(c, t, true, q.inError);
      FaultDoes(c, t, true, q);
      var v := Schedule(c, u, q.inState);
      if u.live {
        ScheduleDoes(c, u, q.inState, q);
      } else {
        ScheduleOfDead(c, u, q.inState);
      }
      Both(c, q, t, u, v, heard, retry);
      Both(c, q, s, t, v, [Refusal], heard + retry);
    }
  }

  lemma LegacyStays(c: Config, s: State)
    requires c.legacy && s.live && s.attempt >= 1
    ensures Schedule(c, s, false).live
  {}

  lemma ScheduleOfDead(c: Config, s: State, quit: bool)
    requires !s.live && s.attempt >= 1
    ensures var t := Schedule(c, s, quit);
            t.log == s.log + [Scheduled(Wait(s.attempt))] && !t.live && t.off == s.off
  {
    hide Delay, Wait;
    DelayIsWait(s.attempt);
  }

  lemma EndedDoes(c: Config, s: State, retryable: bool, limited: bool, q: Quits)
    requires s.live && !s.off && s.timer == None && (!retryable || (c.legacy && limited))
    ensures var t := AfterFault(c, DoFault(c, BeforeFault(c, s, false), false, q.inError), false, q.inState);
            && t.log == s.log + Carried(c, q, false, false, OfRefusal(c, s.attempt, s.now, retryable, limited))
            && !t.live && !t.off
  {
    hide DoState, DoFault, Telling, Hearing, Carried, HasScheduled, Quitting, Leftover;
    var t, n := Counted(s), s.attempt + 1;
    OneDoes(c, q, s, Refusal);
    OneScheduled(Refusal);
    NoneScheduled(c, s.now, Ended, n, false);
    var u := DoFault(c, t, false, q.inError);
    FaultDoes(c, t, false, q);
    var v := DoState(c, u, Ended, q.inState);
    if u.live {
      StateDoes(c, u, Ended, q.inState, q);
    } else {
      StateOfDead(c, u, Ended, q.inState);
    }
    var heard, told := Hearing(c, n, false), Telling(c, s.now, Ended);
    Both(c, q, t, u, v, heard, told);
    Both(c, q, s, t, v, [Refusal], heard + told);
  }

  // ── The law ─────────────────────────────────────────────────────────────

  lemma SameAnswer(c: Config, row: nat, now: Phase, retryable: bool, limited: bool)
    requires retryable && (c.legacy ==> !limited)
    ensures OfRefusal(c, row, now, retryable, limited) == OfRefusal(c, row, now, true, false)
  {}

  lemma RefusalDoes(c: Config, s: State, retryable: bool, limited: bool, q: Quits)
    requires s.live && s.timer == None
    ensures var t, a := DoRefused(c, s, retryable, limited, q), OfRefusal(c, s.attempt, s.now, retryable, limited);
            && t.log == s.log + Carried(c, q, false, false, a) && !t.off
            && (t.live <==> !Quitting(c, q, a) && retryable && (c.legacy ==> !limited))
  {
    hide OfRefusal, Carried, Quitting, DoFault;
    var u := s.(off := false);
    assert BeforeFault(c, s, true) == BeforeFault(c, u, true) && BeforeFault(c, s, false) == BeforeFault(c, u, false);
    hide BeforeFault;
    if retryable && (c.legacy ==> !limited) {
      RetriedDoes(c, u, q);
      SameAnswer(c, s.attempt, s.now, retryable, limited);
    } else {
      EndedDoes(c, u, retryable, limited, q);
    }
  }

  lemma GoodDoes(c: Config, s: State, q: Quits)
    requires s.live
    ensures var told := DoState(c, Log(s.(attempt := 0), GoodValue), Live, q.inState);
            var t, a := MaybeQuit(Log(told, DataCall), q.inData), [GoodValue] + (Telling(c, s.now, Live) + [DataCall]);
            && t.log == s.log + Carried(c, q, s.timer.Some?, s.off, a) && (t.live <==> !Quitting(c, q, a))
            && (!t.live ==> !t.off)
  {
    hide DoState, Telling, Carried, HasScheduled, Quitting, Leftover, Bye, DoUnsubscribe;
    var a := Log(s.(attempt := 0), GoodValue);
    var b := DoState(c, a, Live, q.inState);
    var d := MaybeQuit(Log(b, DataCall), q.inData);
    OneDoes(c, q, s, GoodValue);
    OneScheduled(GoodValue);
    StateDoes(c, a, Live, q.inState, q);
    NoneScheduled(c, s.now, Live, 0, true);
    OneLeft(DataCall);
    if b.live {
      CarriedOne(c, q, b.timer.Some?, b.off, DataCall);
      ByeIs(Log(b, DataCall));
    } else {
      StillDead(Log(b, DataCall), q.inData);
    }
    Both(c, q, a, b, d, Telling(c, s.now, Live), [DataCall]);
    Both(c, q, s, a, d, [GoodValue], Telling(c, s.now, Live) + [DataCall]);
  }

  lemma StillDead(s: State, quit: bool)
    requires !s.live
    ensures MaybeQuit(s, quit) == s
  {}

  /** In order and in full: what a live watch does on every event. Up to and
      with the first handler call in which the widget unsubscribes it does what
      it does for a widget that stays; then the subscription is closed and a
      set timer cleared, and no state or error handler is called any more. */
  lemma EventIsAnswered(c: Config, s: State, e: Event)
    requires Inv(c, s) && s.live && Enabled(s, e)
    ensures e.Unsubscribe? ==> Step(c, s, e).log == s.log + Bye(s.timer.Some?, s.off) && !Step(c, s, e).live
    ensures !e.Unsubscribe? ==>
              var t, a := Step(c, s, e), Answer(c, Row(s.log), s.now, e);
              && t.log == s.log + Carried(c, e.quits, false, e.Value?, a)
              && (t.live <==> !Quitting(c, e.quits, a) && !NotRetryable(e) && (c.legacy ==> !RateLimited(e)))
              && (!t.live ==> !t.off)
  {
    hide DoState, DoFault, DoRefused, AllFit, Row, Telling, Hearing, OfRefusal, Carried, Quitting, DoUnsubscribe, Bye;
    hide WatchRuns.Told;
    match e
    case Fire(Threw(retryable, limited), q) => RefusalDoes(c, s.(timer := None), retryable, limited, q);
    case Fire(Subscribed, q) =>
      CarriedOne(c, q, false, false, Opened);
    case Refused(retryable, limited, q) => RefusalDoes(c, s, retryable, limited, q);
    case Value(good, q) =>
      if c.guarded && !good {
        FaultDoes(c, s, true, q);
      } else {
        GoodDoes(c, s, q);
      }
    case Unsubscribe => ByeIs(s);
  }
}
