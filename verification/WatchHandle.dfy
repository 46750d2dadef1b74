/** A retried subscription's variables, changed in place. The `quit` arguments
    tell whether the widget's handler unsubscribes when it is called. */
module WatchHandle {
  import opened Basics
  import opened Watch
  import opened WatchRuns

  class Handle {
    const config: Config
    var live: bool
    var attempt: nat
    var now: Phase
    var off: bool
    var timer: Option<nat>
    var log: seq<Effect>

    /** `watch`, up to and with its first start. */
    constructor (config: Config, outcome: Outcome, q: Quits)
      ensures this.config == config && Contents() == DoStart(config, FRESH, outcome, q) && Valid()
    {
      this.config := config;
      live, attempt, now, off, timer, log := true, 0, Unset, false, None, [];
      new;
      Start(outcome, q);
    }

    function Contents(): State
      reads this
    {
      State(live, attempt, now, off, timer, log)
    }

    /** What every run keeps between events. */
    ghost predicate Valid()
      reads this
    {
      Inv(config, Contents())
    }

    /** Also inside an event. */
    ghost predicate Sound()
      reads this
    {
      Inside(config, Contents())
    }

    method Unsubscribe()
      modifies this
      ensures Contents() == DoUnsubscribe(old(Contents()))
      ensures old(Sound()) ==> Sound() && (old(Valid()) ==> Valid())
    {
      ghost var s := Contents();
      if Sound() {
        UnsubscribeKeeps(config, s);
      }
      if !live {
        return;
      }
      live := false;
      log := log + [Quit];
      if timer.Some? {
        log := log + [Cleared];
      }
      timer := None;
      if off {
        log := log + [Closed];
      }
      off := false;
    }

    /** `state` */
    method Tell(phase: Phase, quit: bool)
      modifies this
      ensures Contents() == DoState(config, old(Contents()), phase, quit)
    {
      if !live || phase == now {
        return;
      }
      now := phase;
      if config.hasState {
        log := log + [StateCall(phase)];
        if quit && !config.legacy {
          Unsubscribe();
        }
      }
    }

    /** `fault` */
    method Fault(retrying: bool, quit: bool)
      modifies this
      ensures Contents() == DoFault(config, old(Contents()), retrying, quit)
    {
      if !live {
        return;
      }
      if !config.hasError {
        if retrying && attempt > 1 {
          return;
        }
        log := log + [Report(retrying)];
        return;
      }
      log := log + [ErrorCall(retrying)];
      if quit {
        Unsubscribe();
      }
    }

    /** `data` */
    method OnData(good: bool, q: Quits)
      requires Valid()
      modifies this
      ensures Valid() && Contents() == DoValue(config, old(Contents()), good, q)
    {
      hide Inside;
      ValueKeeps(config, Contents(), good, q);
      if !live {
        return;
      }
      if config.guarded && !good {
        Fault(true, q.inError);
        return;
      }
      attempt := 0;
      log := log + [GoodValue];
      Tell(Live, q.inState);
      log := log + [DataCall];
      if q.inData {
        Unsubscribe();
      }
    }

    /** The retry's timer, set after the state call. */
    method SetTimer(quit: bool)
      requires attempt >= 1
      modifies this
      ensures Contents() == Schedule(config, old(Contents()), quit)
    {
      Tell(Retrying, quit);
      timer := Some(Delay(attempt));
      log := log + [Scheduled(Delay(attempt))];
    }

    /** `refusal` */
    method OnRefusal(retryable: bool, limited: bool, q: Quits)
      requires Sound() && (live ==> timer == None)
      modifies this
      ensures Valid() && Contents() == DoRefused(config, old(Contents()), retryable, limited, q)
    {
      hide Inside, DoState, DoFault, Schedule, Delay;
      RefusedKeeps(config, Contents(), retryable, limited, q);
      if !live {
        return;
      }
      off := false;
      attempt := attempt + 1;
      log := log + [Refusal];
      if retryable && !(config.legacy && limited) {
        if !config.legacy {
          FaultAttempt(config, Contents(), true, q.inError);
          Fault(true, q.inError);
          SetTimer(q.inState);
        } else {
          SetTimer(false);
          Fault(true, q.inError);
        }
        return;
      }
      Fault(false, q.inError);
      Tell(Ended, q.inState);
      live := false;
    }

    /** `start` */
    method Start(outcome: Outcome, q: Quits)
      requires Sound() && (live ==> !off)
      modifies this
      ensures Valid() && Contents() == DoStart(config, old(Contents()), outcome, q)
    {
      StartKeeps(config, Contents(), outcome, q);
      hide AllFit, Row, Told;
      timer := None;
      if !live {
        return;
      }
      match outcome {
        case Subscribed =>
          off := true;
          log := log + [Opened];
        case Threw(retryable, limited) =>
          OnRefusal(retryable, limited, q);
      }
    }
  }
}
