/** The transport's variables, changed in place by its handlers. */
module TransportPort {
  import opened Basics
  import opened Transport
  import opened TransportRuns

  class Frame {
    var port: bool
    var early: Option<seq<Message>>
    var nextId: nat
    var pending: seq<nat>
    var subs: seq<Sub>
    var live: map<nat, bool>
    var waiting: seq<Sub>
    var wire: seq<Message>
    var log: seq<Effect>

    constructor ()
      ensures Contents() == INIT && Valid()
    {
      port, early, nextId, pending, subs := false, Some([]), 1, [], [];
      live, waiting, wire, log := map[], [], [], [];
      new;
      InitInv();
    }

    function Contents(): State
      reads this
    {
      State(port, early, nextId, pending, subs, live, waiting, wire, log)
    }

    /** What every run keeps. */
    ghost predicate Valid()
      reads this
    {
      Inv(Contents())
    }

    /** `send` */
    method Post(m: Message)
      modifies `wire, `early
      ensures Contents() == DoSend(old(Contents()), m)
      ensures old(Valid()) ==> Valid()
    {
      hide Inv;
      if Valid() {
        SendKeeps(Contents(), m);
      }
      if port {
        wire := wire + [m];
      } else if early.Some? && |early.value| < QUEUE_LIMIT {
        early := Some(early.value + [m]);
      }
    }

    /** `transport.call`: the id of the pending promise, or a refused one. */
    method Call(plain: bool, body: string) returns (id: Option<nat>)
      requires Valid()
      modifies this
      ensures Valid() && Contents() == Step(old(Contents()), Event.Call(plain, body))
      ensures id == if plain && Open(old(Contents())) then Some(old(nextId)) else None
    {
      hide Inv;
      StepKeepsInv(Contents(), Event.Call(plain, body));
      if !plain || (!port && early.None?) {
        log := log + [CallRefused];
        return None;
      }
      var n := nextId;
      nextId := nextId + 1;
      pending := pending + [n];
      Post(CallMsg(n, body));
      log := log + [Called(n)];
      id := Some(n);
    }

    /** The part of `transport.subscribe` before its unsubscribe function. */
    method Listen(handled: bool, body: string) returns (n: nat)
      modifies this
      ensures Contents() == OpenSub(old(Contents()), handled, body) && n == old(nextId)
    {
      n := nextId;
      nextId := nextId + 1;
      subs := subs + [Sub(n, handled)];
      Post(SubMsg(n, body));
      log := log + [Subscribed(n)];
    }

    /** `transport.subscribe` */
    method Subscribe(plain: bool, handled: bool, body: string) returns (id: Option<nat>)
      requires Valid()
      modifies this
      ensures Valid() && Contents() == Step(old(Contents()), Event.Subscribe(plain, handled, body))
      ensures id == if plain && Open(old(Contents())) then Some(old(nextId)) else None
    {
      hide Inv;
      StepKeepsInv(Contents(), Event.Subscribe(plain, handled, body));
      if !plain || (!port && early.None?) {
        log := log + [SubscribeThrew];
        return None;
      }
      var n := Listen(handled, body);
      live := live[n := true];
      id := Some(n);
    }

    /** The unsubscribe function of one subscription. */
    method Unsubscribe(id: nat)
      requires Valid()
      modifies this
      ensures Valid() && Contents() == Step(old(Contents()), Event.Unsubscribe(id))
    {
      hide Inv;
      StepKeepsInv(Contents(), Event.Unsubscribe(id));
      if id !in live || !live[id] {
        return;
      }
      live := live[id := false];
      subs := Without(subs, id);
      log := log + [Unsubscribed(id)];
      Post(UnsubMsg(id));
    }

    /** `onHello`, for a hello that passes its checks. */
    method OnHello()
      requires Valid() && waiting == []
      modifies this
      ensures Valid() && Contents() == Step(old(Contents()), Hello)
    {
      hide Inv;
      StepKeepsInv(Contents(), Hello);
      if port {
        return;
      }
      port := true;
      var theme := Listen(false, THEME);
      var queue := if early.Some? then early.value else [];
      early := None;
      label before:
      for i := 0 to |queue|
        invariant Contents() == old@before(Contents()).(wire := old@before(wire) + queue[..i])
      {
        Post(queue[i]);
        assert queue[..i + 1] == queue[..i] + [queue[i]];
      }
      assert queue[..|queue|] == queue;
    }

    /** The connect timer, up to its loop over the waiting subscriptions. */
    method OnTimeout()
      requires Valid() && waiting == []
      modifies this
      ensures Valid() && Contents() == Step(old(Contents()), Timeout)
    {
      hide Inv;
      StepKeepsInv(Contents(), Timeout);
      if port {
        return;
      }
      early := None;
      var calls := pending;
      label before:
      for i := 0 to |calls|
        invariant Contents() == old@before(Contents()).(log := old@before(log) + Rejected(calls[..i]))
      {
        log := log + [Settled(calls[i], false)];
        assert Rejected(calls[..i + 1]) == Rejected(calls[..i]) + [Settled(calls[i], false)];
      }
      assert calls[..|calls|] == calls;
      pending := [];
      waiting := subs;
      subs := [];
    }

    /** `refused` */
    method Refuse(sub: Sub)
      modifies this
      ensures Contents() == DoRefuse(old(Contents()), sub)
    {
      log := log + [Refused(sub.id)];
      if !sub.handled {
        Post(Note(REFUSAL));
      }
    }

    /** One turn of the timeout's loop. */
    method RefuseWaiting()
      requires Valid()
      modifies this
      ensures Valid() && Contents() == Step(old(Contents()), RefuseNext)
    {
      hide Inv;
      StepKeepsInv(Contents(), RefuseNext);
      if waiting != [] {
        var sub := waiting[0];
        waiting := waiting[1..];
        Refuse(sub);
      }
    }

    /** `onPortMessage`, the reply to a call. */
    method OnReply(id: nat, ok: bool)
      requires Valid() && port && waiting == []
      modifies this
      ensures Valid() && Contents() == Step(old(Contents()), Reply(id, ok))
    {
      hide Inv;
      StepKeepsInv(Contents(), Reply(id, ok));
      if id in pending {
        pending := Drop(pending, id);
        log := log + [Settled(id, ok)];
      }
    }

    /** `onPortMessage`, a subscription's value. */
    method OnValue(id: nat, value: string)
      requires Valid() && port && waiting == []
      modifies this
      ensures Valid() && Contents() == Step(old(Contents()), Value(id, value))
    {
      hide Inv;
      StepKeepsInv(Contents(), Value(id, value));
      if Has(subs, id) {
        log := log + [Delivered(id, value)];
      }
    }

    /** `onPortMessage`, a subscription's refusal. */
    method OnSubError(id: nat)
      requires Valid() && port && waiting == []
      modifies this
      ensures Valid() && Contents() == Step(old(Contents()), SubError(id))
    {
      hide Inv;
      StepKeepsInv(Contents(), SubError(id));
      if Has(subs, id) {
        var gone := Get(subs, id);
        subs := Without(subs, id);
        Refuse(gone);
      }
    }
  }
}
