/** Which requests of a widget act, and who hears of a refused subscription: its handler or K2. */
module TransportRefusals {
  import opened Basics
  import opened Transport
  import opened TransportRuns

  /** Event `k` of the run opens the subscription `id`: a subscribe of the
      widget, or K2's own in the hello. */
  predicate Opens(events: seq<Event>, k: nat, id: nat) {
    && k < |events|
    && var s := After(INIT, events[..k]);
       && s.nextId == id
       && match events[k]
          case Subscribe(plain, _, _) => plain && Open(s)
          case Hello => !s.port && s.waiting == []
          case _ => false
  }

  /** The event gave the subscription an onError. */
  predicate Handled(e: Event) {
    e.Subscribe? && e.handled
  }

  lemma NextIdGrows(s: State, e: Event)
    ensures Step(s, e).nextId >= s.nextId
  {}

  lemma {:induction false} NextIdGrowsOn(s: State, events: seq<Event>)
    ensures After(s, events).nextId >= s.nextId
    decreases |events|
  {
    hide Step;
    if events != [] {
      NextIdGrows(s, events[0]);
      NextIdGrowsOn(Step(s, events[0]), events[1..]);
    }
  }

  lemma OpensMovesOn(events: seq<Event>, k: nat, id: nat)
    requires Opens(events, k, id)
    ensures After(INIT, events[..k + 1]).nextId == id + 1
  {
    assert events[..k + 1] == events[..k] + [events[k]];
    AfterOn(INIT, events[..k], events[k]);
  }

  /** One event at most opens an id. */
  lemma OpensOnce(events: seq<Event>, j: nat, k: nat, id: nat)
    requires Opens(events, j, id) && Opens(events, k, id)
    ensures j == k
  {
    if j < k {
      OpensLater(events, j, k, id);
    } else if k < j {
      OpensLater(events, k, j, id);
    }
  }

  lemma OpensLater(events: seq<Event>, j: nat, k: nat, id: nat)
    requires j < k < |events| && Opens(events, j, id)
    ensures After(INIT, events[..k]).nextId > id
  {
    hide After;
    OpensMovesOn(events, j, id);
    assert events[..k] == events[..j + 1] + events[j + 1..k];
    AfterBoth(INIT, events[..j + 1], events[j + 1..k]);
    NextIdGrowsOn(After(INIT, events[..j + 1]), events[j + 1..k]);
  }

  predicate Kept(s: State, sub: Sub) {
    sub in s.subs || sub in s.waiting
  }

  /** A step keeps entries as they are, or adds the one it opens. */
  lemma EntriesCome(s: State, e: Event, sub: Sub)
    requires Inv(s) && Kept(Step(s, e), sub)
    ensures Kept(s, sub) ||
            (&& sub == Sub(s.nextId, Handled(e))
             && ((e.Subscribe? && e.plain && Open(s)) || (e.Hello? && !s.port && s.waiting == [])))
  {
    hide Life, Has, Agrees, Drop, Without, Rejected, Get;
    if e.Unsubscribe? {
      WithoutIs(s.subs, e.id);
    } else if e.SubError? {
      WithoutIs(s.subs, e.id);
    }
  }

  /** Every entry is as the event that opened it said. */
  lemma {:induction false} EntryIsAsOpened(events: seq<Event>, sub: Sub)
    requires Kept(After(INIT, events), sub)
    ensures exists k: nat :: Opens(events, k, sub.id) && (sub.handled <==> Handled(events[k]))
    decreases |events|
  {
    hide Step, Inv;
    if events != [] {
      var n := |events| - 1;
      var front, e := events[..n], events[n];
      assert events == front + [e];
      AfterOn(INIT, front, e);
      InitInv();
      RunKeepsInv(INIT, front);
      EntriesCome(After(INIT, front), e, sub);
      if Kept(After(INIT, front), sub) {
        EntryIsAsOpened(front, sub);
        var k: nat :| Opens(front, k, sub.id) && (sub.handled <==> Handled(front[k]));
        assert front[..k] == events[..k];
        assert Opens(events, k, sub.id);
      } else {
        assert Opens(events, n, sub.id);
      }
    }
  }

  /** The step refuses `id`. */
  predicate Refuses(s: State, e: Event, id: nat) {
    Step(s, e).log == s.log + [Refused(id)]
  }

  lemma TimeoutSettles(s: State)
    ensures var t := DoTimeout(s);
            s.log <= t.log && forall i | |s.log| <= i < |t.log| :: t.log[i].Settled?
  {}

  lemma RefusersAre(s: State, e: Event, id: nat)
    requires Refuses(s, e, id)
    ensures Enabled(s, e)
    ensures (e == SubError(id) && Has(s.subs, id)) || (e.RefuseNext? && s.waiting != [] && s.waiting[0].id == id)
  {
    hide Life, Drop, Without, Has;
    assert |Step(s, e).log| == |s.log| + 1 && Step(s, e).log[|s.log|] == Refused(id);
    TimeoutSettles(s);
  }

  lemma RefusedEntry(s: State, e: Event, id: nat) returns (sub: Sub)
    requires Inv(s) && Refuses(s, e, id)
    ensures Kept(s, sub) && sub.id == id
    ensures Offer(s, e) == if sub.handled then [] else [Note(REFUSAL)]
  {
    hide Life, Agrees, Drop, Without, Refuses;
    RefusersAre(s, e, id);
    sub := if e.SubError? then Get(s.subs, id) else s.waiting[0];
  }

  /** In every run a refusal hands K2's note to `send` exactly when the event
      that opened the subscription gave it no onError; with a port the note, or
      nothing, is what the wire gets. */
  lemma RefusalIsHeard(events: seq<Event>, e: Event, id: nat)
    requires Refuses(After(INIT, events), e, id)
    ensures exists k: nat :: Opens(events, k, id)
    ensures forall k: nat | Opens(events, k, id) ::
              var s := After(INIT, events);
              && (Offer(s, e) == if Handled(events[k]) then [] else [Note(REFUSAL)])
              && (s.port ==> Step(s, e).wire == s.wire + if Handled(events[k]) then [] else [Note(REFUSAL)])
  {
    hide After, Step, Offer, Inv, Refuses;
    var s := After(INIT, events);
    InitInv();
    RunKeepsInv(INIT, events);
    var sub := RefusedEntry(s, e, id);
    EntryIsAsOpened(events, sub);
    if s.port {
      WiredStep(s, e);
    }
    forall k: nat | Opens(events, k, id) ensures Handled(events[k]) <==> sub.handled {
      var j: nat :| Opens(events, j, sub.id) && (sub.handled <==> Handled(events[j]));
      OpensOnce(events, j, k, id);
    }
  }

  // ── The requests ────────────────────────────────────────────────────────

  /** Event `k` handed an unsubscribe function for `id` to the widget. */
  predicate HandsOut(events: seq<Event>, k: nat, id: nat) {
    Opens(events, k, id) && events[k].Subscribe?
  }

  lemma FlagsCome(s: State, e: Event, id: nat)
    ensures id in Step(s, e).live
       <==> id in s.live || (e.Subscribe? && e.plain && Open(s) && id == s.nextId)
  {
    hide Has, Without, Drop, Rejected, Get;
  }

  lemma {:induction false} FlagsAreOfSubscribes(events: seq<Event>, id: nat)
    ensures id in After(INIT, events).live <==> exists k: nat :: HandsOut(events, k, id)
    decreases |events|
  {
    hide Step;
    if events != [] {
      var n := |events| - 1;
      var front, e := events[..n], events[n];
      assert events == front + [e];
      AfterOn(INIT, front, e);
      FlagsCome(After(INIT, front), e, id);
      FlagsAreOfSubscribes(front, id);
      var s := After(INIT, front);
      assert HandsOut(events, n, id) <==> e.Subscribe? && e.plain && Open(s) && s.nextId == id;
      forall k: nat | k < n ensures HandsOut(events, k, id) <==> HandsOut(front, k, id) {
        assert front[..k] == events[..k];
      }
    }
  }

  /** In every run, with s the state reached. A call or a subscription of plain
      data takes a new id while there is a port or a queue, and is refused
      otherwise; the first unsubscribe of a subscription acts, whether or not it
      has ended, and nothing else does. */
  lemma RequestsAreTaken(events: seq<Event>, plain: bool, handled: bool, body: string, id: nat)
    ensures var s := After(INIT, events);
            && (var t := Step(s, Call(plain, body));
                if plain && Open(s) then t.log == s.log + [Called(s.nextId)] && s.nextId in t.pending
                else t == s.(log := s.log + [CallRefused]))
            && (var t := Step(s, Subscribe(plain, handled, body));
                if plain && Open(s) then t.log == s.log + [Subscribed(s.nextId)] && Has(t.subs, s.nextId)
                else t == s.(log := s.log + [SubscribeThrew]))
            && (var t := Step(s, Unsubscribe(id));
                if (exists k: nat :: HandsOut(events, k, id)) && Unsubscribed(id) !in s.log then
                  t.log == s.log + [Unsubscribed(id)] && !Has(t.subs, id) && Offer(s, Unsubscribe(id)) == [UnsubMsg(id)]
                else t == s)
  {
    hide After, Life, Has, Without;
    var s := After(INIT, events);
    InitInv();
    RunKeepsInv(INIT, events);
    FlagsAreOfSubscribes(events, id);
    assert Agrees(s, id);
    LifeTells(s.log, id);
    HasWithout(s.subs, id, id);
    HasLast(s.subs, Sub(s.nextId, handled));
  }

  lemma HasLast(subs: seq<Sub>, sub: Sub)
    ensures Has(subs + [sub], sub.id)
  {
    assert (subs + [sub])[|subs|] == sub;
  }
}
