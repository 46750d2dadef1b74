/** A subscription that K2 retries: its variables and what each happening does to them. */
module Watch {
  import opened Basics

  datatype Phase = Unset | Live | Retrying | Ended

  /** The handlers the widget gave; `guarded` values pass a shape guard first. */
  datatype Config = Config(guarded: bool, legacy: bool, hasError: bool, hasState: bool)

  /** What a watch does and what comes to it, in order. */
  datatype Effect =
    | Opened
    | Closed
    | Scheduled(delay: nat)
    | Cleared
    | Quit
    | GoodValue
    | Refusal
    | StateCall(phase: Phase)
    | DataCall
    | ErrorCall(retrying: bool)
    | Report(retrying: bool)

  /** `off` tells whether a subscription is open, `timer` the delay of the
      scheduled retry. */
  datatype State = State(
    live: bool,
    attempt: nat,
    now: Phase,
    off: bool,
    timer: Option<nat>,
    log: seq<Effect>)

  const FRESH := State(true, 0, Unset, false, None, [])

  /** Whether the widget unsubscribes inside each of its handlers. */
  datatype Quits = Quits(inState: bool, inError: bool, inData: bool)

  datatype Outcome = Subscribed | Threw(retryable: bool, limited: bool)

  datatype Event =
    | Fire(outcome: Outcome, quits: Quits)
    | Value(good: bool, quits: Quits)
    | Refused(retryable: bool, limited: bool, quits: Quits)
    | Unsubscribe

  // ── The steps ───────────────────────────────────────────────────────────

  function Log(s: State, e: Effect): State {
    s.(log := s.log + [e])
  }

  function DoUnsubscribe(s: State): State {
    if !s.live then s
    else
      var cleared := if s.timer.Some? then [Cleared] else [];
      var closed := if s.off then [Closed] else [];
      s.(live := false, timer := None, off := false, log := s.log + [Quit] + cleared + closed)
  }

  function MaybeQuit(s: State, quit: bool): State {
    if quit then DoUnsubscribe(s) else s
  }

  /** `state`; the old form's state handler is K2's own. */
  function DoState(c: Config, s: State, phase: Phase, quit: bool): State {
    if !s.live || phase == s.now then s
    else if !c.hasState then s.(now := phase)
    else MaybeQuit(Log(s.(now := phase), StateCall(phase)), quit && !c.legacy)
  }

  function DoFault(c: Config, s: State, retrying: bool, quit: bool): State {
    if !s.live then s
    else if !c.hasError then (if retrying && s.attempt > 1 then s else Log(s, Report(retrying)))
    else MaybeQuit(Log(s, ErrorCall(retrying)), quit)
  }

  function DoValue(c: Config, s: State, good: bool, q: Quits): State {
    if !s.live then s
    else if c.guarded && !good then DoFault(c, s, true, q.inError)
    else
      var t := DoState(c, Log(s.(attempt := 0), GoodValue), Live, q.inState);
      MaybeQuit(Log(t, DataCall), q.inData)
  }

  /** The wait before retry `attempt`. */
  function Delay(attempt: int): nat
    requires attempt >= 1
  {
    Min(30000, 1000 * Pow2(Min(attempt - 1, 5)))
  }

  function Min(a: int, b: int): int {
    if a <= b then a else b
  }

  function Schedule(c: Config, s: State, quit: bool): State
    requires s.attempt >= 1
  {
    var t := DoState(c, s, Retrying, quit);
    Log(t.(timer := Some(Delay(t.attempt))), Scheduled(Delay(t.attempt)))
  }

  predicate Retries(c: Config, retryable: bool, limited: bool) {
    retryable && !(c.legacy && limited)
  }

  /** A refusal before the fault: the old form schedules first. */
  function BeforeFault(c: Config, s: State, retries: bool): (t: State)
    ensures t.attempt == s.attempt + 1
  {
    var t := Log(s.(off := false, attempt := s.attempt + 1), Refusal);
    if retries && c.legacy then Schedule(c, t, false) else t
  }

  function AfterFault(c: Config, s: State, retries: bool, quit: bool): State
    requires s.attempt >= 1
  {
    if !retries then DoState(c, s, Ended, quit).(live := false)
    else if c.legacy then s
    else Schedule(c, s, quit)
  }

  function DoRefused(c: Config, s: State, retryable: bool, limited: bool, q: Quits): State {
    if !s.live then s
    else
      var retries := Retries(c, retryable, limited);
      AfterFault(c, DoFault(c, BeforeFault(c, s, retries), retries, q.inError), retries, q.inState)
  }

  /** `start`, at first and then when the timer fires. */
  function DoStart(c: Config, s: State, outcome: Outcome, q: Quits): State {
    var t := s.(timer := None);
    if !s.live then t
    else
      match outcome
      case Subscribed => Log(t.(off := true), Opened)
      case Threw(retryable, limited) => DoRefused(c, t, retryable, limited, q)
  }

  /** A timer fires when it is set; an open subscription brings values and one
      refusal, and a closed one may still bring a late refusal. */
  predicate Enabled(s: State, e: Event) {
    match e
    case Fire(_, _) => s.timer.Some?
    case Value(_, _) | Refused(_, _, _) => s.off || !s.live
    case Unsubscribe => true
  }

  function Step(c: Config, s: State, e: Event): State {
    if !Enabled(s, e) then s
    else
      match e
      case Fire(outcome, q) => DoStart(c, s, outcome, q)
      case Value(good, q) => DoValue(c, s, good, q)
      case Refused(retryable, limited, q) => DoRefused(c, s, retryable, limited, q)
      case Unsubscribe => DoUnsubscribe(s)
  }

  function After(c: Config, s: State, events: seq<Event>): State
    decreases |events|
  {
    if events == [] then s else After(c, Step(c, s, events[0]), events[1..])
  }

  /** A run: the first start, then the events. */
  function Run(c: Config, outcome: Outcome, q: Quits, events: seq<Event>): State {
    After(c, DoStart(c, FRESH, outcome, q), events)
  }
}
