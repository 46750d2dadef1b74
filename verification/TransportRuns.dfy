/** What every run of the transport keeps. */
module TransportRuns {
  import opened Basics
  import opened Transport

  // ── One id's life, read from the effects ────────────────────────────────

  datatype Phase = Fresh | Calling | Done | Listening | Over(unsubscribed: bool, refused: bool) | Bad

  /** The life of `id`: a call settles once; a subscription gets values while
      it listens, is refused at most once and unsubscribed at most once, and
      gets no value after either. A refusal may still follow an unsubscribe. */
  function Next(p: Phase, id: nat, e: Effect): Phase {
    match e
    case Called(i) => if i != id then p else if p.Fresh? then Calling else Bad
    case Settled(i, _) => if i != id then p else if p.Calling? then Done else Bad
    case Subscribed(i) => if i != id then p else if p.Fresh? then Listening else Bad
    case Delivered(i, _) => if i != id then p else if p.Listening? then p else Bad
    case Refused(i) =>
      if i != id then p
      else if p.Listening? then Over(false, true)
      else if p == Over(true, false) then Over(true, true)
      else Bad
    case Unsubscribed(i) =>
      if i != id then p
      else if p.Listening? then Over(true, false)
      else if p == Over(false, true) then Over(true, true)
      else Bad
    case _ => p
  }

  function Life(log: seq<Effect>, id: nat): Phase {
    if log == [] then Fresh else Next(Life(log[..|log| - 1], id), id, log[|log| - 1])
  }

  // ── The invariant ───────────────────────────────────────────────────────

  predicate SubsRise(subs: seq<Sub>) {
    forall i, j | 0 <= i < j < |subs| :: subs[i].id < subs[j].id
  }

  /** The state and the effects agree about `id`. */
  predicate Agrees(s: State, id: nat) {
    var p := Life(s.log, id);
    && !p.Bad?
    && (id >= s.nextId ==> p.Fresh?)
    && (p.Calling? <==> id in s.pending)
    && (p.Listening? <==> Has(s.subs, id) || (Has(s.waiting, id) && !(id in s.live && !s.live[id])))
    && (Has(s.waiting, id) ==> p.Listening? || p == Over(true, false))
    && !(Has(s.waiting, id) && Has(s.subs, id))
    && (id in s.live ==> if s.live[id] then p.Listening? || p == Over(false, true) else p.Over? && p.unsubscribed)
    && (p.Over? && p.unsubscribed ==> id in s.live && !s.live[id])
  }

  ghost predicate Inv(s: State) {
    && Rising(s.pending) && SubsRise(s.subs) && SubsRise(s.waiting)
    && (!Open(s) ==> s.pending == [] && s.subs == [])
    && (s.waiting != [] ==> !Open(s))
    && (s.early.Some? ==> !s.port && |s.early.value| <= QUEUE_LIMIT)
    && (!s.port ==> s.wire == [])
    && (forall id: nat :: Agrees(s, id))
  }

  lemma LifeOn(log: seq<Effect>, e: Effect, id: nat)
    ensures Life(log + [e], id) == Next(Life(log, id), id, e)
  {
    assert (log + [e])[..|log|] == log;
  }

  lemma SubsRiseRest(subs: seq<Sub>)
    requires SubsRise(subs) && subs != []
    ensures SubsRise(subs[1..]) && forall sub | sub in subs[1..] :: subs[0].id < sub.id
  {
    var rest := subs[1..];
    forall i, j | 0 <= i < j < |rest| ensures rest[i].id < rest[j].id {
      assert subs[i + 1].id < subs[j + 1].id;
    }
  }

  lemma SubsRiseOn(sub: Sub, rest: seq<Sub>)
    requires SubsRise(rest) && forall x | x in rest :: sub.id < x.id
    ensures SubsRise([sub] + rest)
  {
    var r := [sub] + rest;
    forall i, j | 0 <= i < j < |r| ensures r[i].id < r[j].id {
      assert r[j] == rest[j - 1];
      assert i > 0 ==> r[i] == rest[i - 1];
    }
  }

  lemma {:induction false} WithoutIs(subs: seq<Sub>, id: nat)
    requires SubsRise(subs)
    ensures SubsRise(Without(subs, id))
    ensures forall sub :: sub in Without(subs, id) <==> sub in subs && sub.id != id
  {
    hide SubsRise;
    if subs == [] {
      assert Without(subs, id) == [];
    } else {
      SubsRiseRest(subs);
      WithoutIs(subs[1..], id);
      assert forall sub :: sub in subs <==> sub == subs[0] || sub in subs[1..];
      if subs[0].id != id {
        SubsRiseOn(subs[0], Without(subs[1..], id));
      }
    }
  }

  lemma {:induction false} DropIs(ids: seq<nat>, id: nat)
    requires Rising(ids)
    ensures Rising(Drop(ids, id))
    ensures forall i :: i in Drop(ids, id) <==> i in ids && i != id
  {
    hide Rising;
    if ids != [] {
      RisingRest(ids);
      DropIs(ids[1..], id);
      assert forall i :: i in ids <==> i == ids[0] || i in ids[1..];
      if ids[0] != id {
        RisingOn(ids[0], Drop(ids[1..], id));
      }
    }
  }

  lemma RisingRest(ids: seq<nat>)
    requires Rising(ids) && ids != []
    ensures Rising(ids[1..]) && forall i | i in ids[1..] :: ids[0] < i
  {
    var rest := ids[1..];
    forall i, j | 0 <= i < j < |rest| ensures rest[i] < rest[j] {
      assert ids[i + 1] < ids[j + 1];
    }
  }

  lemma RisingOn(id: nat, rest: seq<nat>)
    requires Rising(rest) && forall x | x in rest :: id < x
    ensures Rising([id] + rest)
  {
    var r := [id] + rest;
    forall i, j | 0 <= i < j < |r| ensures r[i] < r[j] {
      assert r[j] == rest[j - 1] && rest[j - 1] in rest;
      assert i > 0 ==> r[i] == rest[i - 1];
    }
  }

  lemma HasIs(subs: seq<Sub>, id: nat)
    ensures Has(subs, id) <==> exists sub :: sub in subs && sub.id == id
  {}

  lemma HasWithout(subs: seq<Sub>, id: nat, j: nat)
    requires SubsRise(subs)
    ensures Has(Without(subs, id), j) <==> Has(subs, j) && j != id
  {
    WithoutIs(subs, id);
    hide Without;
    HasIs(subs, j);
    HasIs(Without(subs, id), j);
  }

  lemma HasOn(subs: seq<Sub>, sub: Sub, j: nat)
    ensures Has(subs + [sub], j) <==> Has(subs, j) || j == sub.id
  {
    HasIs(subs, j);
    HasIs(subs + [sub], j);
    assert sub in subs + [sub];
  }

  lemma HasRest(subs: seq<Sub>, j: nat)
    requires subs != [] && SubsRise(subs)
    ensures Has(subs, j) <==> Has(subs[1..], j) || j == subs[0].id
    ensures !Has(subs[1..], subs[0].id) && SubsRise(subs[1..])
  {
    assert [subs[0]] + subs[1..] == subs;
    if Has(subs, j) && j != subs[0].id {
      var i :| 0 <= i < |subs| && subs[i].id == j;
      assert subs[1..][i - 1].id == j;
    }
    if Has(subs[1..], j) {
      var i :| 0 <= i < |subs[1..]| && subs[1..][i].id == j;
      assert subs[i + 1].id == j;
    }
  }

  lemma {:induction false} LifeRejected(log: seq<Effect>, ids: seq<nat>, id: nat)
    requires Rising(ids)
    ensures Life(log + Rejected(ids), id)
         == if id in ids then Next(Life(log, id), id, Settled(id, false)) else Life(log, id)
    decreases |ids|
  {
    if ids == [] {
      assert log + Rejected(ids) == log;
    } else {
      var front, last := ids[..|ids| - 1], ids[|ids| - 1];
      assert Rejected(ids) == Rejected(front) + [Settled(last, false)];
      assert log + Rejected(ids) == (log + Rejected(front)) + [Settled(last, false)];
      LifeRejected(log, front, id);
      LifeOn(log + Rejected(front), Settled(last, false), id);
      assert ids == front + [last];
    }
  }

  // ── Every step keeps the invariant ──────────────────────────────────────

  lemma SendKeeps(s: State, m: Message)
    requires Inv(s)
    ensures Inv(DoSend(s, m))
  {
    hide Life, Has, SubsRise;
    var t := DoSend(s, m);
    forall id: nat ensures Agrees(t, id) {
      assert Agrees(s, id);
    }
  }

  /** An effect that names no id. */
  lemma NoteKeeps(s: State, e: Effect)
    requires Inv(s) && (e.CallRefused? || e.SubscribeThrew?)
    ensures Inv(Log(s, e))
  {
    hide Life, Has, SubsRise;
    var t := Log(s, e);
    forall id: nat ensures Agrees(t, id) {
      assert Agrees(s, id);
      LifeOn(s.log, e, id);
    }
  }

  lemma CallKeeps(s: State, body: string)
    requires Inv(s) && Open(s)
    ensures Inv(DoCall(s, true, body))
  {
    hide Life, Has, SubsRise;
    var t := s.(nextId := s.nextId + 1, pending := s.pending + [s.nextId], log := s.log + [Called(s.nextId)]);
    forall id: nat ensures Agrees(t, id) {
      assert Agrees(s, id);
      LifeOn(s.log, Called(s.nextId), id);
    }
    forall i | 0 <= i < |s.pending| ensures s.pending[i] < s.nextId {
      assert Agrees(s, s.pending[i]);
    }
    SendKeeps(t, CallMsg(s.nextId, body));
    assert DoSend(t, CallMsg(s.nextId, body)) == DoCall(s, true, body);
  }

  lemma SubsBelow(s: State)
    requires Inv(s)
    ensures forall i | 0 <= i < |s.subs| :: s.subs[i].id < s.nextId
  {
    hide Life, SubsRise;
    forall i | 0 <= i < |s.subs| ensures s.subs[i].id < s.nextId {
      assert Agrees(s, s.subs[i].id) && Has(s.subs, s.subs[i].id);
    }
  }

  lemma OpenSubKeeps(s: State, handled: bool, body: string)
    requires Inv(s) && Open(s)
    ensures Inv(OpenSub(s, handled, body))
    ensures var t := OpenSub(s, handled, body); Life(t.log, s.nextId).Listening? && s.nextId !in t.live
  {
    hide Life, Has;
    var sub := Sub(s.nextId, handled);
    var t := s.(nextId := s.nextId + 1, subs := s.subs + [sub], log := s.log + [Subscribed(s.nextId)]);
    SubsBelow(s);
    assert Agrees(s, s.nextId);
    forall id: nat ensures Agrees(t, id) {
      assert Agrees(s, id);
      LifeOn(s.log, Subscribed(s.nextId), id);
      HasOn(s.subs, sub, id);
    }
    SendKeeps(t, SubMsg(s.nextId, body));
    assert DoSend(t, SubMsg(s.nextId, body)) == OpenSub(s, handled, body);
    assert Agrees(t, s.nextId);
    LifeOn(s.log, Subscribed(s.nextId), s.nextId);
  }

  lemma SubscribeKeeps(s: State, handled: bool, body: string)
    requires Inv(s) && Open(s)
    ensures Inv(DoSubscribe(s, true, handled, body))
  {
    hide Life, Has, SubsRise, OpenSub;
    OpenSubKeeps(s, handled, body);
    var t := OpenSub(s, handled, body);
    OpenSubLive(s, handled, body);
    var u := t.(live := t.live[s.nextId := true]);
    forall id: nat ensures Agrees(u, id) {
      assert Agrees(t, id);
    }
  }

  lemma OpenSubLive(s: State, handled: bool, body: string)
    ensures OpenSub(s, handled, body).live == s.live && OpenSub(s, handled, body).waiting == s.waiting
  {}

  lemma UnsubscribeKeeps(s: State, id: nat)
    requires Inv(s)
    ensures Inv(DoUnsubscribe(s, id))
  {
    hide Life, Has, Without, SubsRise;
    if id in s.live && s.live[id] {
      var t := Log(s.(live := s.live[id := false], subs := Without(s.subs, id)), Unsubscribed(id));
      WithoutIs(s.subs, id);
      assert Agrees(s, id);
      assert s.subs == [] ==> t.subs == [] by { WithoutNothing(id); }
      forall j: nat ensures Agrees(t, j) {
        assert Agrees(s, j);
        LifeOn(s.log, Unsubscribed(id), j);
        HasWithout(s.subs, id, j);
      }
      SendKeeps(t, UnsubMsg(id));
    }
  }

  lemma WithoutNothing(id: nat)
    ensures Without([], id) == []
  {}

  lemma HelloKeeps(s: State)
    requires Inv(s) && s.waiting == []
    ensures Inv(DoHello(s))
  {
    hide Life, Has, SubsRise, OpenSub;
    if !s.port {
      var u := s.(port := true, early := None);
      forall id: nat ensures Agrees(u, id) {
        assert Agrees(s, id);
      }
      OpenSubKeeps(u, false, THEME);
      var t := OpenSub(u, false, THEME);
      HelloIs(s);
      var v := DoHello(s);
      forall id: nat ensures Agrees(v, id) {
        assert Agrees(t, id);
      }
    }
  }

  lemma HelloIs(s: State)
    requires !s.port
    ensures var t := OpenSub(s.(port := true, early := None), false, THEME);
            DoHello(s) == t.(wire := t.wire + if s.early.Some? then s.early.value else [])
            && t.wire == s.wire + [SubMsg(s.nextId, THEME)] && t.early == None && t.port
  {}

  lemma TimeoutKeeps(s: State)
    requires Inv(s) && s.waiting == []
    ensures Inv(DoTimeout(s))
  {
    hide Life, SubsRise;
    if !s.port {
      var t := DoTimeout(s);
      forall id: nat ensures Agrees(t, id) {
        assert Agrees(s, id);
        LifeRejected(s.log, s.pending, id);
      }
    }
  }

  lemma RefuseKeeps(s: State, t: State, sub: Sub)
    requires Inv(s) && Has(s.subs, sub.id) != Has(s.waiting, sub.id)
    requires t == s.(subs := t.subs, waiting := t.waiting)
    requires SubsRise(t.subs) && SubsRise(t.waiting) && (s.subs == [] ==> t.subs == [])
    requires s.waiting == [] ==> t.waiting == []
    requires forall j: nat :: Has(t.subs, j) <==> Has(s.subs, j) && j != sub.id
    requires forall j: nat :: Has(t.waiting, j) <==> Has(s.waiting, j) && j != sub.id
    ensures Inv(DoRefuse(t, sub))
  {
    hide Life, Has, SubsRise;
    var u := Log(t, Refused(sub.id));
    forall j: nat ensures Agrees(u, j) {
      assert Agrees(s, j);
      LifeOn(s.log, Refused(sub.id), j);
    }
    SendKeeps(u, Note(REFUSAL));
  }

  lemma RefuseNextKeeps(s: State)
    requires Inv(s) && s.waiting != []
    ensures Inv(DoRefuseNext(s))
  {
    hide Life, Has, Agrees;
    var sub := s.waiting[0];
    var t := s.(waiting := s.waiting[1..]);
    forall j: nat ensures Has(t.waiting, j) <==> Has(s.waiting, j) && j != sub.id {
      HasRest(s.waiting, j);
    }
    HasRest(s.waiting, sub.id);
    assert !Has(s.subs, sub.id) by { NothingHas(sub.id); }
    forall j: nat ensures Has(t.subs, j) <==> Has(s.subs, j) && j != sub.id {
      NothingHas(j);
    }
    RefuseKeeps(s, t, sub);
  }

  lemma NothingHas(id: nat)
    ensures !Has([], id)
  {}

  lemma ReplyKeeps(s: State, id: nat, ok: bool)
    requires Inv(s)
    ensures Inv(DoReply(s, id, ok))
  {
    hide Life, Has, Drop, SubsRise;
    if id in s.pending {
      var t := DoReply(s, id, ok);
      DropIs(s.pending, id);
      assert s.pending != [];
      forall j: nat ensures Agrees(t, j) {
        assert Agrees(s, j);
        LifeOn(s.log, Settled(id, ok), j);
      }
    }
  }

  lemma ValueKeeps(s: State, id: nat, value: string)
    requires Inv(s) && s.waiting == []
    ensures Inv(DoValue(s, id, value))
  {
    hide Life, Has, SubsRise;
    var t := DoValue(s, id, value);
    forall j: nat ensures Agrees(t, j) {
      assert Agrees(s, j);
      LifeOn(s.log, Delivered(id, value), j);
    }
  }

  lemma SubErrorKeeps(s: State, id: nat)
    requires Inv(s) && s.waiting == []
    ensures Inv(DoSubError(s, id))
  {
    hide Life, Has, SubsRise, Without, Agrees;
    if Has(s.subs, id) {
      var t := s.(subs := Without(s.subs, id));
      WithoutIs(s.subs, id);
      WithoutNothing(id);
      forall j: nat ensures Has(t.subs, j) <==> Has(s.subs, j) && j != id {
        HasWithout(s.subs, id, j);
      }
      forall j: nat ensures !Has(s.waiting, j) {
        NothingHas(j);
      }
      RefuseKeeps(s, t, Get(s.subs, id));
    }
  }

  lemma StepKeepsInv(s: State, e: Event)
    requires Inv(s)
    ensures Inv(Step(s, e))
  {
    hide Inv, DoSend, DoUnsubscribe, DoHello, DoTimeout, DoReply, DoValue, DoSubError;
    if Enabled(s, e) {
      match e
      case Send(body) => SendKeeps(s, Note(body));
      case Call(plain, body) =>
        if plain && Open(s) { CallKeeps(s, body); } else { NoteKeeps(s, CallRefused); }
      case Subscribe(plain, handled, body) =>
        if plain && Open(s) { SubscribeKeeps(s, handled, body); } else { NoteKeeps(s, SubscribeThrew); }
      case Unsubscribe(id) => UnsubscribeKeeps(s, id);
      case Hello => HelloKeeps(s);
      case Timeout => TimeoutKeeps(s);
      case RefuseNext => if s.waiting != [] { RefuseNextKeeps(s); }
      case Reply(id, ok) => ReplyKeeps(s, id, ok);
      case Value(id, value) => ValueKeeps(s, id, value);
      case SubError(id) => SubErrorKeeps(s, id);
    }
  }

  lemma InitInv()
    ensures Inv(INIT)
  {}

  lemma {:induction false} RunKeepsInv(s: State, events: seq<Event>)
    requires Inv(s)
    ensures Inv(After(s, events))
    decreases |events|
  {
    hide Inv, Step;
    if events != [] {
      StepKeepsInv(s, events[0]);
      RunKeepsInv(Step(s, events[0]), events[1..]);
    }
  }

  // ── What the effects say ────────────────────────────────────────────────

  /** The phase sums up what was done to `id`. */
  lemma {:induction false} LifeTells(log: seq<Effect>, id: nat)
    ensures var p := Life(log, id);
            !p.Bad? ==>
              && (Called(id) in log <==> p.Calling? || p.Done?)
              && (Subscribed(id) in log <==> p.Listening? || p.Over?)
              && (p.Done? <==> Settled(id, true) in log || Settled(id, false) in log)
              && (p.Over? ==> p.unsubscribed || p.refused)
              && (p.Over? && p.unsubscribed <==> Unsubscribed(id) in log)
              && (p.Over? && p.refused <==> Refused(id) in log)
  {
    if log != [] {
      var front, last := log[..|log| - 1], log[|log| - 1];
      LifeTells(front, id);
      hide Life;
      assert log == front + [last];
      LifeOn(front, last, id);
    }
  }

  lemma {:induction false} LifeBefore(log: seq<Effect>, k: nat, id: nat)
    requires k <= |log| && !Life(log, id).Bad?
    ensures !Life(log[..k], id).Bad?
    decreases |log|
  {
    if k < |log| {
      var front := log[..|log| - 1];
      assert front[..k] == log[..k];
      LifeBefore(front, k, id);
    } else {
      assert log[..k] == log;
    }
  }

  /** What may happen at one moment, after the earlier effects `before`. */
  predicate Lawful(before: seq<Effect>, e: Effect) {
    match e
    case Called(id) => Called(id) !in before && Subscribed(id) !in before
    case Subscribed(id) => Called(id) !in before && Subscribed(id) !in before
    case Settled(id, _) =>
      Called(id) in before && Settled(id, true) !in before && Settled(id, false) !in before
    case Delivered(id, _) => Subscribed(id) in before && Unsubscribed(id) !in before && Refused(id) !in before
    case Refused(id) => Subscribed(id) in before && Refused(id) !in before
    case Unsubscribed(id) => Subscribed(id) in before && Unsubscribed(id) !in before
    case _ => true
  }

  /** In every run no id is given out twice, a call settles once at most, and a
      subscription gets values only until it is refused or unsubscribed, each
      of which happens once at most. */
  lemma EffectsAreLawful(events: seq<Event>, k: nat)
    requires k < |After(INIT, events).log|
    ensures Lawful(After(INIT, events).log[..k], After(INIT, events).log[k])
  {
    hide Life, After, Has;
    var log := After(INIT, events).log;
    InitInv();
    RunKeepsInv(INIT, events);
    var e := log[k];
    if !e.CallRefused? && !e.SubscribeThrew? {
      var id := e.id;
      assert Agrees(After(INIT, events), id);
      LifeBefore(log, k, id);
      LifeBefore(log, k + 1, id);
      assert log[..k + 1] == log[..k] + [e];
      LifeOn(log[..k], e, id);
      LifeTells(log[..k], id);
    }
  }

  /** In every reachable state: pending are exactly the calls not settled,
      `subs` exactly the subscriptions neither ended nor waiting for the
      timeout's refusal; both are empty when there is no port and no queue. */
  lemma EntriesAreTheOpenOnes(events: seq<Event>, id: nat)
    ensures var s := After(INIT, events);
            && (id in s.pending <==>
                Called(id) in s.log && Settled(id, true) !in s.log && Settled(id, false) !in s.log)
            && (Has(s.subs, id) <==>
                && Subscribed(id) in s.log && Refused(id) !in s.log && Unsubscribed(id) !in s.log
                && !Has(s.waiting, id))
            && !(id in s.pending && Has(s.subs, id))
            && (id in s.pending || Has(s.subs, id) ==> id < s.nextId)
            && (!Open(s) ==> s.pending == [] && s.subs == [])
  {
    hide Life, After, Has;
    InitInv();
    RunKeepsInv(INIT, events);
    var s := After(INIT, events);
    assert Agrees(s, id);
    LifeTells(s.log, id);
  }

  /** In every reachable state the host's answers and the timeout reach whom
      they are for: a pending call settles as the reply says, an open
      subscription gets the value or the refusal, and a timeout before the hello
      leaves every call settled and every open subscription listed. */
  lemma AnswersArrive(events: seq<Event>, id: nat, ok: bool, value: string)
    ensures var s := After(INIT, events);
            && (s.port && id in s.pending ==>
                  Step(s, Reply(id, ok)).log == s.log + [Settled(id, ok)] && id !in Step(s, Reply(id, ok)).pending)
            && (s.port && Has(s.subs, id) ==>
                  && Step(s, Value(id, value)).log == s.log + [Delivered(id, value)]
                  && Step(s, SubError(id)).log == s.log + [Refused(id)] && !Has(Step(s, SubError(id)).subs, id))
            && (!s.port && s.waiting == [] ==>
                  var t := Step(s, Timeout);
                  && t.pending == [] && t.subs == [] && t.waiting == s.subs && !Open(t)
                  && (id in s.pending ==> Settled(id, false) in t.log))
  {
    hide After, Has, Drop, Without, Get, Life;
    InitInv();
    RunKeepsInv(INIT, events);
    var s := After(INIT, events);
    if s.port {
      PortWaits(s);
      DropIs(s.pending, id);
      HasWithout(s.subs, id, id);
    } else if id in s.pending {
      var i :| 0 <= i < |s.pending| && s.pending[i] == id;
      assert (s.log + Rejected(s.pending))[|s.log| + i] == Settled(id, false);
    }
  }

  lemma PortWaits(s: State)
    requires Inv(s) && s.port
    ensures s.waiting == []
  {}

  // ── A refusal after the unsubscribe ─────────────────────────────────────

  /** The unsubscribe was called; whether a refusal came. */
  ghost predicate Left(s: State, id: nat, refused: bool) {
    Inv(s) && Life(s.log, id) == Over(true, refused)
  }

  lemma CalledIdsAreOthers(s: State, id: nat, refused: bool)
    requires Left(s, id, refused)
    ensures id != s.nextId && id !in s.pending && !Has(s.subs, id) && (Has(s.waiting, id) ==> !refused)
    ensures id in s.live && !s.live[id]
  {
    hide Life, Has;
    assert Agrees(s, id);
  }

  lemma LeftStays(s: State, e: Event, id: nat, refused: bool)
    requires Left(s, id, refused) && !e.RefuseNext? && !e.Timeout?
    ensures Life(Step(s, e).log, id) == Over(true, refused) && Step(s, e).waiting == s.waiting
  {
    hide Life, Has, Inv, Without, Drop;
    CalledIdsAreOthers(s, id, refused);
    var t := Step(s, e);
    if t.log != s.log {
      var last := t.log[|t.log| - 1];
      assert t.log == s.log + [last];
      LifeOn(s.log, last, id);
    }
  }

  lemma LeftTimesOut(s: State, id: nat, refused: bool)
    requires Left(s, id, refused) && s.waiting == []
    ensures Life(DoTimeout(s).log, id) == Over(true, refused) && !Has(DoTimeout(s).waiting, id)
  {
    hide Life;
    CalledIdsAreOthers(s, id, refused);
    LifeRejected(s.log, s.pending, id);
  }

  lemma LeftIsRefusedNext(s: State, id: nat, refused: bool)
    requires Left(s, id, refused) && s.waiting != []
    ensures var t := DoRefuseNext(s);
            if s.waiting[0].id == id then Life(t.log, id) == Over(true, true) && !Has(t.waiting, id)
            else Life(t.log, id) == Over(true, refused) && (Has(t.waiting, id) <==> Has(s.waiting, id))
  {
    hide Life;
    CalledIdsAreOthers(s, id, refused);
    LifeOn(s.log, Refused(s.waiting[0].id), id);
    HasRest(s.waiting, id);
  }

  /** One step refuses it only from the timeout's list. */
  lemma LeftSteps(s: State, e: Event, id: nat, refused: bool)
    requires Left(s, id, refused)
    ensures var t := Step(s, e);
            (Left(t, id, refused) && (Has(t.waiting, id) <==> Has(s.waiting, id)))
            || (Left(t, id, true) && Has(s.waiting, id) && !Has(t.waiting, id))
  {
    StepKeepsInv(s, e);
    hide Life, Has, Inv, DoTimeout, DoRefuseNext;
    if Enabled(s, e) && e.Timeout? {
      LeftTimesOut(s, id, refused);
      HasNothing(s, id);
    } else if e.RefuseNext? && s.waiting != [] {
      LeftIsRefusedNext(s, id, refused);
      HasFirst(s.waiting);
    } else if e.RefuseNext? || e.Timeout? {
      assert Step(s, e) == s by { RestIsStill(s, e); }
    } else {
      LeftStays(s, e, id, refused);
    }
  }

  lemma HasNothing(s: State, id: nat)
    ensures s.waiting == [] ==> !Has(s.waiting, id)
  {}

  lemma HasFirst(subs: seq<Sub>)
    requires subs != []
    ensures Has(subs, subs[0].id)
  {}

  lemma RestIsStill(s: State, e: Event)
    requires (e.Timeout? && s.waiting != []) || (e.RefuseNext? && s.waiting == [])
    ensures Step(s, e) == s
  {}

  /** After its unsubscribe a subscription is refused exactly when the timeout
      had already listed it: some other subscription's handler called the
      unsubscribe from inside the timeout's loop. */
  lemma {:induction false} RefusedAfterUnsubscribe(s: State, events: seq<Event>, id: nat)
    requires Left(s, id, false)
    ensures var t := After(s, events);
            && (Refused(id) in t.log ==> Has(s.waiting, id))
            && (Has(s.waiting, id) && t.waiting == [] ==> Refused(id) in t.log)
    decreases |events|
  {
    hide Life, Inv, Has, Step;
    LifeTells(s.log, id);
    if events == [] {
      HasNothing(s, id);
    } else {
      LeftSteps(s, events[0], id, false);
      var t := Step(s, events[0]);
      if Left(t, id, false) && (Has(t.waiting, id) <==> Has(s.waiting, id)) {
        RefusedAfterUnsubscribe(t, events[1..], id);
      } else {
        LeftForGood(t, events[1..], id);
      }
    }
  }

  lemma {:induction false} LeftForGood(s: State, events: seq<Event>, id: nat)
    requires Left(s, id, true)
    ensures Refused(id) in After(s, events).log
    decreases |events|
  {
    hide Life, Inv, Has, Step;
    LifeTells(s.log, id);
    if events != [] {
      LeftSteps(s, events[0], id, true);
      LeftForGood(Step(s, events[0]), events[1..], id);
    }
  }

  // ── The wire ────────────────────────────────────────────────────────────

  /** What a step hands to `send`, the hello's own messages aside. */
  function Offer(s: State, e: Event): seq<Message> {
    if !Enabled(s, e) then []
    else
      match e
      case Send(body) => [Note(body)]
      case Call(plain, body) => if plain && Open(s) then [CallMsg(s.nextId, body)] else []
      case Subscribe(plain, _, body) => if plain && Open(s) then [SubMsg(s.nextId, body)] else []
      case Unsubscribe(id) => if id in s.live && s.live[id] then [UnsubMsg(id)] else []
      case RefuseNext => if s.waiting != [] && !s.waiting[0].handled then [Note(REFUSAL)] else []
      case SubError(id) => if Has(s.subs, id) && !Get(s.subs, id).handled then [Note(REFUSAL)] else []
      case _ => []
  }

  function Offered(s: State, events: seq<Event>): seq<Message>
    decreases |events|
  {
    if events == [] then []
    else
      var front := events[..|events| - 1];
      Offered(s, front) + Offer(After(s, front), events[|events| - 1])
  }

  lemma {:induction false} AfterOn(s: State, events: seq<Event>, e: Event)
    ensures After(s, events + [e]) == Step(After(s, events), e)
    decreases |events|
  {
    hide Step;
    if events == [] {
      assert (events + [e])[1..] == [];
    } else {
      assert (events + [e])[1..] == events[1..] + [e];
      AfterOn(Step(s, events[0]), events[1..], e);
    }
  }

  lemma {:induction false} AfterBoth(s: State, a: seq<Event>, b: seq<Event>)
    ensures After(s, a + b) == After(After(s, a), b)
    decreases |a|
  {
    hide Step;
    if a == [] {
      assert a + b == b;
    } else {
      assert (a + b)[1..] == a[1..] + b;
      AfterBoth(Step(s, a[0]), a[1..], b);
    }
  }

  /** The queue holds its first 1000 messages. */
  function Kept(messages: seq<Message>): seq<Message> {
    if |messages| <= 1000 then messages else messages[..1000]
  }

  lemma WiredStep(s: State, e: Event)
    requires Inv(s) && s.port
    ensures Step(s, e).port && Step(s, e).wire == s.wire + Offer(s, e)
  {
    hide Inv, Has, Without, Drop, Rejected, Get;
    assert s.wire + [] == s.wire;
  }

  lemma QueuedStep(s: State, e: Event)
    requires Inv(s) && !s.port && !Step(s, e).port
    ensures Step(s, e).early
         == if s.early.None? || (e.Timeout? && s.waiting == []) then None
            else if |s.early.value| < QUEUE_LIMIT then Some(s.early.value + Offer(s, e))
            else s.early
    ensures e.Timeout? && s.waiting != [] ==> s.early.None?
    ensures |Offer(s, e)| <= 1
  {
    hide Has, Without, Drop, Rejected, Agrees, SubsRise, Rising, Get;
    if s.early.Some? {
      assert s.early.value + [] == s.early.value;
    }
  }

  lemma {:induction false} Wired(s: State, events: seq<Event>)
    requires Inv(s) && s.port
    ensures After(s, events).port && After(s, events).wire == s.wire + Offered(s, events)
    decreases |events|
  {
    hide Inv, Step, Offer;
    if events == [] {
      assert s.wire + [] == s.wire;
    } else {
      var front, last := events[..|events| - 1], events[|events| - 1];
      assert events == front + [last];
      Wired(s, front);
      RunKeepsInv(s, front);
      AfterOn(s, front, last);
      WiredStep(After(s, front), last);
      hide *;
      var u, v, w := s.wire, Offered(s, front), Offer(After(s, front), last);
      assert u + v + w == u + (v + w);
      OfferedIs(s, events);
    }
  }

  lemma OfferedIs(s: State, events: seq<Event>)
    requires events != []
    ensures var front := events[..|events| - 1];
            Offered(s, events) == Offered(s, front) + Offer(After(s, front), events[|events| - 1])
  {}

  lemma KeptOn(a: seq<Message>, b: seq<Message>)
    requires |b| <= 1
    ensures Kept(a + b) == if |Kept(a)| < QUEUE_LIMIT then Kept(a) + b else Kept(a)
  {
    if |a| >= QUEUE_LIMIT {
      assert (a + b)[..QUEUE_LIMIT] == a[..QUEUE_LIMIT];
    }
  }

  lemma StaysConnected(s: State, e: Event)
    ensures s.port ==> Step(s, e).port
  {}

  /** Before the hello nothing is on the wire, and the queue holds the first
      1000 messages, unless the timeout dropped it. */
  lemma {:induction false} BeforeHello(events: seq<Event>)
    requires !After(INIT, events).port
    ensures var s := After(INIT, events);
            s.wire == [] && s.early == if Timeout in events then None else Some(Kept(Offered(INIT, events)))
    decreases |events|
  {
    hide Inv, Step, Offer, Kept;
    InitInv();
    RunKeepsInv(INIT, events);
    assert After(INIT, events).wire == [] by { NoWire(After(INIT, events)); }
    if events == [] {
      KeptNothing();
    } else {
      var front, last := events[..|events| - 1], events[|events| - 1];
      assert events == front + [last];
      AfterOn(INIT, front, last);
      StaysConnected(After(INIT, front), last);
      BeforeHello(front);
      RunKeepsInv(INIT, front);
      QueuedStep(After(INIT, front), last);
      KeptOn(Offered(INIT, front), Offer(After(INIT, front), last));
      OfferedIs(INIT, events);
    }
  }

  lemma NoWire(s: State)
    requires Inv(s) && !s.port
    ensures s.wire == []
  {}

  lemma KeptNothing()
    ensures Kept([]) == []
  {}

  /** Every run with a hello, whenever it comes: the wire is the theme
      subscription, then the first 1000 messages sent before it (none if the
      timeout came first), then all later messages in order. */
  lemma WireLaw(before: seq<Event>, later: seq<Event>)
    requires !After(INIT, before).port && After(INIT, before).waiting == []
    ensures var s := After(INIT, before);
            After(INIT, before + [Hello] + later).wire
            == [SubMsg(s.nextId, THEME)] + (if Timeout in before then [] else Kept(Offered(INIT, before)))
             + Offered(After(INIT, before + [Hello]), later)
  {
    hide Inv, After, Step, Offer, Offered, Kept;
    var s, t := After(INIT, before), After(INIT, before + [Hello]);
    BeforeHello(before);
    AfterOn(INIT, before, Hello);
    AfterBoth(INIT, before + [Hello], later);
    InitInv();
    RunKeepsInv(INIT, before + [Hello]);
    HelloStep(s);
    Wired(t, later);
  }

  lemma HelloStep(s: State)
    requires !s.port && s.waiting == [] && s.wire == []
    ensures var t := Step(s, Hello);
            t.port && t.wire == [SubMsg(s.nextId, THEME)] + (if s.early.Some? then s.early.value else [])
  {
    HelloIs(s);
  }

  /** Every message sent reaches the wire, in order, exactly when none was sent
      before the hello, or the hello beat the timeout and there were at most
      1000. */
  lemma NothingLost(before: seq<Event>, later: seq<Event>)
    requires !After(INIT, before).port && After(INIT, before).waiting == []
    ensures var early := Offered(INIT, before);
            After(INIT, before + [Hello] + later).wire
            == [SubMsg(After(INIT, before).nextId, THEME)] + early + Offered(After(INIT, before + [Hello]), later)
            <==> early == [] || (Timeout !in before && |early| <= 1000)
  {
    hide After, Offered;
    WireLaw(before, later);
    var early := Offered(INIT, before);
    var kept := if Timeout in before then [] else Kept(early);
    assert kept == early <==> early == [] || (Timeout !in before && |early| <= QUEUE_LIMIT);
    SameMiddle([SubMsg(After(INIT, before).nextId, THEME)], kept, early, Offered(After(INIT, before + [Hello]), later));
  }

  lemma SameMiddle(a: seq<Message>, b: seq<Message>, c: seq<Message>, d: seq<Message>)
    ensures a + b + d == a + c + d <==> b == c
  {
    if a + b + d == a + c + d {
      assert |b| == |c|;
      assert b == (a + b + d)[|a|..|a| + |b|] == (a + c + d)[|a|..|a| + |c|] == c;
    }
  }

  const TWO_LISTED := State(false, None, 3, [], [], map[1 := true, 2 := true], [Sub(1, true), Sub(2, true)], [],
                            [Subscribed(1), Subscribed(2)])

  lemma TwoAreListed()
    ensures After(INIT, [Subscribe(true, true, "a"), Subscribe(true, true, "b"), Timeout]) == TWO_LISTED
  {
    var e1, e2 := Subscribe(true, true, "a"), Subscribe(true, true, "b");
    var s2 := Step(Step(INIT, e1), e2);
    assert s2.subs == [Sub(1, true), Sub(2, true)] && s2.log == [Subscribed(1), Subscribed(2)];
    AfterThree(INIT, e1, e2, Timeout);
  }

  /** The timeout's loop has refused the first one. */
  const ONE_REFUSED := TWO_LISTED.(waiting := [Sub(2, true)], log := [Subscribed(1), Subscribed(2), Refused(1)])

  lemma OneIsRefused()
    ensures Step(TWO_LISTED, RefuseNext) == ONE_REFUSED
  {}

  lemma SecondUnsubscribes()
    ensures Step(ONE_REFUSED, Unsubscribe(2)).waiting == [Sub(2, true)]
    ensures Step(ONE_REFUSED, Unsubscribe(2)).log == ONE_REFUSED.log + [Unsubscribed(2)]
  {}

  lemma LastIsRefused(s: State)
    requires s.waiting == [Sub(2, true)]
    ensures Step(s, RefuseNext).log == s.log + [Refused(2)]
  {}

  /** It does happen: two subscriptions wait for a hello that never comes, and
      the first one's handler unsubscribes the second. */
  lemma RefusalFollowsUnsubscribe()
    ensures After(INIT, [Subscribe(true, true, "a"), Subscribe(true, true, "b"), Timeout, RefuseNext, Unsubscribe(2),
                         RefuseNext]).log
         == [Subscribed(1), Subscribed(2), Refused(1), Unsubscribed(2), Refused(2)]
  {
    hide After, Step;
    var first := [Subscribe(true, true, "a"), Subscribe(true, true, "b"), Timeout];
    var rest := [RefuseNext, Unsubscribe(2), RefuseNext];
    TwoAreListed();
    OneIsRefused();
    SecondUnsubscribes();
    LastIsRefused(Step(ONE_REFUSED, Unsubscribe(2)));
    AfterBoth(INIT, first, rest);
    AfterThree(TWO_LISTED, RefuseNext, Unsubscribe(2), RefuseNext);
    assert first + rest == [Subscribe(true, true, "a"), Subscribe(true, true, "b"), Timeout, RefuseNext, Unsubscribe(2),
                            RefuseNext];
  }

  lemma AfterThree(s: State, a: Event, b: Event, c: Event)
    ensures After(s, [a, b, c]) == Step(Step(Step(s, a), b), c)
  {
    hide Step;
    AfterOn(s, [a, b], c);
    AfterOn(s, [a], b);
    AfterOn(s, [], a);
    assert [a, b] + [c] == [a, b, c] && [a] + [b] == [a, b] && [] + [a] == [a];
  }
}
