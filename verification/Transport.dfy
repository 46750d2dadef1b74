/** The frame's transport: the early queue, pending calls, subscriptions and the port. */
module Transport {
  import opened Basics

  const QUEUE_LIMIT := 1000

  datatype Message =
    | CallMsg(id: nat, body: string)
    | SubMsg(id: nat, body: string)
    | UnsubMsg(id: nat)
    | Note(body: string)

  datatype Sub = Sub(id: nat, handled: bool)

  /** What the transport does to the widget, in order. `Subscribed` is also
      written for K2's own theme subscription. */
  datatype Effect =
    | Called(id: nat)
    | CallRefused
    | Settled(id: nat, ok: bool)
    | Subscribed(id: nat)
    | SubscribeThrew
    | Delivered(id: nat, value: string)
    | Refused(id: nat)
    | Unsubscribed(id: nat)

  /** `live` holds the flag of each unsubscribe function handed out. `waiting`
      is what the timeout's last loop still has to refuse: the handlers it
      calls may act in between. `wire` is what the port was given. */
  datatype State = State(
    port: bool,
    early: Option<seq<Message>>,
    nextId: nat,
    pending: seq<nat>,
    subs: seq<Sub>,
    live: map<nat, bool>,
    waiting: seq<Sub>,
    wire: seq<Message>,
    log: seq<Effect>)

  const INIT := State(false, Some([]), 1, [], [], map[], [], [], [])

  datatype Event =
    | Send(body: string)
    | Call(plain: bool, body: string)
    | Subscribe(plain: bool, handled: bool, body: string)
    | Unsubscribe(id: nat)
    | Hello
    | Timeout
    | RefuseNext
    | Reply(id: nat, ok: bool)
    | Value(id: nat, value: string)
    | SubError(id: nat)

  // ── The steps ───────────────────────────────────────────────────────────

  function DoSend(s: State, m: Message): State {
    if s.port then s.(wire := s.wire + [m])
    else if s.early.Some? && |s.early.value| < QUEUE_LIMIT then s.(early := Some(s.early.value + [m]))
    else s
  }

  function Log(s: State, e: Effect): State {
    s.(log := s.log + [e])
  }

  predicate Open(s: State) {
    s.port || s.early.Some?
  }

  function DoCall(s: State, plain: bool, body: string): State {
    if !plain || !Open(s) then Log(s, CallRefused)
    else
      var t := s.(nextId := s.nextId + 1, pending := s.pending + [s.nextId]);
      Log(DoSend(t, CallMsg(s.nextId, body)), Called(s.nextId))
  }

  function DoSubscribe(s: State, plain: bool, handled: bool, body: string): State {
    if !plain || !Open(s) then Log(s, SubscribeThrew)
    else
      var t := OpenSub(s, handled, body);
      t.(live := t.live[s.nextId := true])
  }

  /** A subscription under the next id. */
  function OpenSub(s: State, handled: bool, body: string): State {
    var t := s.(nextId := s.nextId + 1, subs := s.subs + [Sub(s.nextId, handled)]);
    Log(DoSend(t, SubMsg(s.nextId, body)), Subscribed(s.nextId))
  }

  function Without(subs: seq<Sub>, id: nat): seq<Sub> {
    if subs == [] then []
    else if subs[0].id == id then Without(subs[1..], id)
    else [subs[0]] + Without(subs[1..], id)
  }

  function Drop(ids: seq<nat>, id: nat): seq<nat> {
    if ids == [] then [] else if ids[0] == id then Drop(ids[1..], id) else [ids[0]] + Drop(ids[1..], id)
  }

  function DoUnsubscribe(s: State, id: nat): State {
    if id !in s.live || !s.live[id] then s
    else
      var t := s.(live := s.live[id := false], subs := Without(s.subs, id));
      DoSend(Log(t, Unsubscribed(id)), UnsubMsg(id))
  }

  const THEME := "theme.changed"

  function DoHello(s: State): State {
    if s.port then s
    else
      var t := OpenSub(s.(port := true), false, THEME);
      t.(early := None, wire := t.wire + if s.early.Some? then s.early.value else [])
  }

  function Rejected(ids: seq<nat>): seq<Effect> {
    seq(|ids|, i requires 0 <= i < |ids| => Settled(ids[i], false))
  }

  function DoTimeout(s: State): State {
    if s.port then s
    else s.(early := None, pending := [], subs := [], waiting := s.subs, log := s.log + Rejected(s.pending))
  }

  const REFUSAL := "refused"

  /** `refused`: the handler runs, or K2 hears of it. */
  function DoRefuse(s: State, sub: Sub): State {
    var t := Log(s, Refused(sub.id));
    if sub.handled then t else DoSend(t, Note(REFUSAL))
  }

  function DoRefuseNext(s: State): State {
    if s.waiting == [] then s else DoRefuse(s.(waiting := s.waiting[1..]), s.waiting[0])
  }

  function DoReply(s: State, id: nat, ok: bool): State {
    if id !in s.pending then s else Log(s.(pending := Drop(s.pending, id)), Settled(id, ok))
  }

  predicate Has(subs: seq<Sub>, id: nat) {
    exists i | 0 <= i < |subs| :: subs[i].id == id
  }

  function Get(subs: seq<Sub>, id: nat): (sub: Sub)
    requires Has(subs, id)
    ensures sub in subs && sub.id == id
  {
    if subs[0].id == id then subs[0] else Get(subs[1..], id)
  }

  function DoValue(s: State, id: nat, value: string): State {
    if Has(s.subs, id) then Log(s, Delivered(id, value)) else s
  }

  function DoSubError(s: State, id: nat): State {
    if !Has(s.subs, id) then s else DoRefuse(s.(subs := Without(s.subs, id)), Get(s.subs, id))
  }

  /** No message and no timer interrupts the timeout's loop, and only a port
      brings messages of the host. */
  predicate Enabled(s: State, e: Event) {
    match e
    case Hello | Timeout => s.waiting == []
    case Reply(_, _) | Value(_, _) | SubError(_) => s.waiting == [] && s.port
    case _ => true
  }

  function Step(s: State, e: Event): State {
    if !Enabled(s, e) then s
    else
      match e
      case Send(body) => DoSend(s, Note(body))
      case Call(plain, body) => DoCall(s, plain, body)
      case Subscribe(plain, handled, body) => DoSubscribe(s, plain, handled, body)
      case Unsubscribe(id) => DoUnsubscribe(s, id)
      case Hello => DoHello(s)
      case Timeout => DoTimeout(s)
      case RefuseNext => DoRefuseNext(s)
      case Reply(id, ok) => DoReply(s, id, ok)
      case Value(id, value) => DoValue(s, id, value)
      case SubError(id) => DoSubError(s, id)
  }

  function After(s: State, events: seq<Event>): State
    decreases |events|
  {
    if events == [] then s else After(Step(s, events[0]), events[1..])
  }
}
