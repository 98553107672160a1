/** The client's session logic as a function on states: publish senders, the queue and the send
    window, the QoS 2 receive table, subscriptions and the waiters on incoming messages.

    A user callback may start further operations before it returns. In any one run each receiver is
    called at most once and starts some finite list of operations, so a receiver carries that list,
    and the receivers of those operations carry theirs. */
module Engine {
  import opened Bytes
  import opened Primitives
  import opened Records
  import opened Packets
  import TopicFilter

  type Filter = ls: seq<text> | ls != [] witness [[]]

  datatype Receiver = Receiver(token: nat, reaction: seq<Op>)

  /** A `start()` on one of the client's senders. */
  datatype Op =
    | StartPublish(message: Publish, receiver: Receiver)
    | StartSubscribe(subscribe: Subscribe, receiver: Receiver)
    | StartUnsubscribe(unsubscribe: Unsubscribe, receiver: Receiver)
    | StartWaiting(filter: Filter, receiver: Receiver)

  datatype PublishState = WaitingPuback | WaitingPubrec | WaitingPubcomp

  /** What a publish receiver is told: a reason code, or done without one. */
  datatype PublishResult = Value(code: byte) | Done

  /** A publish with an identifier. `serial` is history: how many identifiers were given out
      before this one. */
  datatype Pending = Pending(message: Publish, receiver: Receiver, serial: nat)

  datatype InFlight = InFlight(pending: Pending, state: PublishState) {
    function Id(): uint16 { pending.message.packetIdentifier }
  }

  datatype OpenSubscribe = OpenSubscribe(message: Subscribe, receiver: Receiver, serial: nat)

  datatype OpenUnsubscribe = OpenUnsubscribe(message: Unsubscribe, receiver: Receiver, serial: nat)

  datatype Waiter = Waiter(filter: Filter, receivers: seq<Receiver>)

  /** What the user observes, in order. */
  datatype Event =
    | Sent(token: nat)
    | Completed(pending: Pending, result: PublishResult)
    | Subscribed(subscribe: OpenSubscribe, codes: bytes)
    | Unsubscribed(unsubscribe: OpenUnsubscribe, codes: bytes)
    | Delivered(token: nat, message: Publish)
    | Closed

  datatype State = State(
    nextId: uint16,
    published: seq<InFlight>,
    queue: seq<Pending>,
    subscribes: seq<OpenSubscribe>,
    unsubscribes: seq<OpenUnsubscribe>,
    waiters: seq<Waiter>,
    received: seq<Publish>,
    maxQuota: uint16,
    sendQuota: uint16,
    receiveQuota: uint16,
    receiveMaximum: uint16,
    // history: packets written, events, starts with QoS above 0, identifiers given out, messages
    // the PUBREC and PUBCOMP handlers took out of flight, messages that finished by a PUBACK and by
    // a PUBCOMP, and messages handed to the waiters at once and on a PUBREL
    sent: seq<Packet>,
    log: seq<Event>,
    started: seq<Pending>,
    issued: nat,
    leaked: nat,
    acknowledged: seq<Publish>,
    finished: seq<Publish>,
    direct: seq<Publish>,
    released: seq<Publish>)

  // ---------------------------------------------------------------- starting operations

  function Send(s: State, p: Packet): State {
    s.(sent := s.sent + [p])
  }

  /** `packet_identifier_generator_t`: 16 bits, skipping 0. */
  function NextAfter(id: uint16): uint16 {
    var n := Low16(id + 1);
    if n == 0 then 1 else n
  }

  function Allocate(s: State): State {
    s.(nextId := NextAfter(s.nextId), issued := s.issued + 1)
  }

  /** The starter closure: takes one unit of quota, writes the packet, stores it in flight. The
      decrement is unguarded and wraps. */
  function Launch(s: State, p: Pending): State {
    s.(sendQuota := Low16(s.sendQuota + 0xFFFF),
       sent := s.sent + [PublishPacket(p.message)],
       published := s.published + [InFlight(p, if p.message.Qos() == 2 then WaitingPubrec else WaitingPuback)])
  }

  function LaunchOrQueue(s: State, p: Pending): State {
    var t := s.(started := s.started + [p]);
    if s.sendQuota > 0 then Launch(t, p) else t.(queue := t.queue + [p])
  }

  function WaiterIndex(ws: seq<Waiter>, f: Filter): (i: nat)
    ensures i <= |ws|
    ensures i < |ws| ==> ws[i].filter == f
    ensures forall j :: 0 <= j < i ==> ws[j].filter != f
  {
    if ws == [] || ws[0].filter == f then 0 else 1 + WaiterIndex(ws[1..], f)
  }

  function AddWaiter(ws: seq<Waiter>, f: Filter, rx: Receiver): seq<Waiter> {
    var i := WaiterIndex(ws, f);
    if i < |ws| then ws[i := ws[i].(receivers := ws[i].receivers + [rx])] else ws + [Waiter(f, [rx])]
  }

  function Start(s: State, op: Op): State
    decreases op
  {
    match op
    case StartPublish(m, rx) =>
      if m.Qos() == 0 then Callback(Send(s, PublishPacket(m)), rx, Sent(rx.token))
      else LaunchOrQueue(Allocate(s), Pending(m.(packetIdentifier := s.nextId), rx, s.issued))
    case StartSubscribe(m, rx) =>
      var n := m.(packetIdentifier := s.nextId);
      Send(Allocate(s), SubscribePacket(n)).(subscribes := s.subscribes + [OpenSubscribe(n, rx, s.issued)])
    case StartUnsubscribe(m, rx) =>
      var n := m.(packetIdentifier := s.nextId);
      Send(Allocate(s), UnsubscribePacket(n)).(unsubscribes := s.unsubscribes + [OpenUnsubscribe(n, rx, s.issued)])
    case StartWaiting(f, rx) => s.(waiters := AddWaiter(s.waiters, f, rx))
  }

  function RunOps(s: State, ops: seq<Op>): State
    decreases ops
  {
    if ops == [] then s else RunOps(Start(s, ops[0]), ops[1..])
  }

  /** A receiver is told something and reacts. */
  function Callback(s: State, rx: Receiver, e: Event): State
    decreases rx
  {
    RunOps(s.(log := s.log + [e]), rx.reaction)
  }

  // ---------------------------------------------------------------- delivery to waiters

  function MatchingReceivers(ws: seq<Waiter>, topic: text): seq<Receiver> {
    if ws == [] then []
    else (if TopicFilter.Matches(ws[0].filter, topic) then ws[0].receivers else []) + MatchingReceivers(ws[1..], topic)
  }

  function OtherWaiters(ws: seq<Waiter>, topic: text): seq<Waiter> {
    if ws == [] then []
    else (if TopicFilter.Matches(ws[0].filter, topic) then [] else [ws[0]]) + OtherWaiters(ws[1..], topic)
  }

  function CallAll(s: State, rxs: seq<Receiver>, m: Publish): State
    decreases rxs
  {
    if rxs == [] then s else CallAll(Callback(s, rxs[0], Delivered(rxs[0].token, m)), rxs[1..], m)
  }

  /** `deliver_to_publish_waiters`: takes every matching entry out first, then calls. */
  function Deliver(s: State, m: Publish): State {
    CallAll(s.(waiters := OtherWaiters(s.waiters, m.topic)), MatchingReceivers(s.waiters, m.topic), m)
  }

  // ---------------------------------------------------------------- packet handlers

  function Remove<T>(xs: seq<T>, i: nat): seq<T>
    requires i < |xs|
  {
    xs[..i] + xs[i + 1..]
  }

  /** `std::find_if` on the identifier. */
  function InFlightIndex(ms: seq<InFlight>, id: uint16): (i: nat)
    ensures i <= |ms|
    ensures i < |ms| ==> ms[i].Id() == id
    ensures forall j :: 0 <= j < i ==> ms[j].Id() != id
  {
    if ms == [] || ms[0].Id() == id then 0 else 1 + InFlightIndex(ms[1..], id)
  }

  function ReceivedIndex(ms: seq<Publish>, id: uint16): (i: nat)
    ensures i <= |ms|
    ensures i < |ms| ==> ms[i].packetIdentifier == id
    ensures forall j :: 0 <= j < i ==> ms[j].packetIdentifier != id
  {
    if ms == [] || ms[0].packetIdentifier == id then 0 else 1 + ReceivedIndex(ms[1..], id)
  }

  function SubscribeIndex(ms: seq<OpenSubscribe>, id: uint16): (i: nat)
    ensures i <= |ms|
    ensures i < |ms| ==> ms[i].message.packetIdentifier == id
    ensures forall j :: 0 <= j < i ==> ms[j].message.packetIdentifier != id
  {
    if ms == [] || ms[0].message.packetIdentifier == id then 0 else 1 + SubscribeIndex(ms[1..], id)
  }

  function UnsubscribeIndex(ms: seq<OpenUnsubscribe>, id: uint16): (i: nat)
    ensures i <= |ms|
    ensures i < |ms| ==> ms[i].message.packetIdentifier == id
    ensures forall j :: 0 <= j < i ==> ms[j].message.packetIdentifier != id
  {
    if ms == [] || ms[0].message.packetIdentifier == id then 0 else 1 + UnsubscribeIndex(ms[1..], id)
  }

  /** The two quotas start from the server's and the client's receive maximum. */
  function HandleConnack(s: State, serverMaximum: uint16): State {
    s.(maxQuota := serverMaximum, sendQuota := serverMaximum, receiveQuota := s.receiveMaximum)
  }

  function MaybeSendQueued(s: State): State {
    if s.sendQuota < s.maxQuota then
      var t := s.(sendQuota := s.sendQuota + 1);
      if t.queue != [] then Launch(t.(queue := t.queue[1..]), t.queue[0]) else t
    else s
  }

  /** Takes the i-th publish out of flight and tells its receiver. */
  function Finish(s: State, i: nat, r: PublishResult): State
    requires i < |s.published|
  {
    var p := s.published[i].pending;
    Callback(s.(published := Remove(s.published, i)), p.receiver, Completed(p, r))
  }

  function Close(s: State): State {
    s.(log := s.log + [Closed])
  }

  function HandlePuback(s: State, a: Ack): State {
    var i := InFlightIndex(s.published, a.packetIdentifier);
    if i == |s.published| then MaybeSendQueued(s)
    else if s.published[i].state == WaitingPuback then
      var t := s.(acknowledged := s.acknowledged + [s.published[i].pending.message]);
      MaybeSendQueued(Finish(t, i, Value(a.reasonCode)))
    else MaybeSendQueued(Close(Finish(s, i, Done)))
  }

  const NO_MATCHING_SUBSCRIBERS: byte := 16
  const IDENTIFIER_NOT_FOUND: byte := 146
  const QUOTA_EXCEEDED: byte := 151

  function Reply(id: uint16, code: byte): Ack {
    Ack(id, code, NO_REASON)
  }

  function HandlePubrec(s: State, a: Ack): State {
    var i, id := InFlightIndex(s.published, a.packetIdentifier), a.packetIdentifier;
    if i == |s.published| then Send(s, PubrelPacket(Reply(id, IDENTIFIER_NOT_FOUND)))
    else if a.reasonCode > NO_MATCHING_SUBSCRIBERS then
      Finish(s.(leaked := s.leaked + 1), i, Value(a.reasonCode))
    else if s.published[i].state == WaitingPuback then
      Close(Finish(s.(leaked := s.leaked + 1), i, Done))
    else
      Send(s.(published := s.published[i := s.published[i].(state := WaitingPubcomp)]), PubrelPacket(Reply(id, 0)))
  }

  /** The state of the message is not looked at. */
  function HandlePubcomp(s: State, a: Ack): State {
    var i := InFlightIndex(s.published, a.packetIdentifier);
    if i == |s.published| then s
    else
      var t := s.(leaked := s.leaked + 1, finished := s.finished + [s.published[i].pending.message]);
      Finish(t, i, Value(a.reasonCode))
  }

  function HandleSuback(s: State, c: Codes): State {
    var i := SubscribeIndex(s.subscribes, c.packetIdentifier);
    if i == |s.subscribes| then s
    else
      var o := s.subscribes[i];
      Callback(s.(subscribes := Remove(s.subscribes, i)), o.receiver, Subscribed(o, c.reasonCodes))
  }

  function HandleUnsuback(s: State, c: Codes): State {
    var i := UnsubscribeIndex(s.unsubscribes, c.packetIdentifier);
    if i == |s.unsubscribes| then s
    else
      var o := s.unsubscribes[i];
      Callback(s.(unsubscribes := Remove(s.unsubscribes, i)), o.receiver, Unsubscribed(o, c.reasonCodes))
  }

  /** Every PUBLISH above QoS 0 takes one unit of the receive quota; when none is left a DISCONNECT
      is written, and the packet is processed all the same. */
  function TakeReceiveQuota(s: State, m: Publish): State {
    if m.Qos() == 0 then s
    else if s.receiveQuota > 0 then s.(receiveQuota := s.receiveQuota - 1)
    else Close(Send(s, DisconnectPacket(Disconnect(QUOTA_EXCEEDED, NO_DISCONNECT))))
  }

  function HandlePublish(s: State, m: Publish): State {
    var t := TakeReceiveQuota(s, m);
    if m.Qos() == 1 then
      Deliver(Send(t, PubackPacket(Reply(m.packetIdentifier, 0))).(direct := t.direct + [m]), m)
    else if m.Qos() == 2 then
      var i := ReceivedIndex(t.received, m.packetIdentifier);
      Send(if i == |t.received| then t.(received := t.received + [m]) else t,
          PubrecPacket(Reply(m.packetIdentifier, 0)))
    else Deliver(t.(direct := t.direct + [m]), m)
  }

  function HandlePubrel(s: State, a: Ack): State {
    var i, id := ReceivedIndex(s.received, a.packetIdentifier), a.packetIdentifier;
    if i == |s.received| then Send(s, PubcompPacket(Reply(id, IDENTIFIER_NOT_FOUND)))
    else
      var m := s.received[i];
      Deliver(Send(s.(received := Remove(s.received, i), released := s.released + [m]), PubcompPacket(Reply(id, 0))), m)
  }

  /** `puback_sent_evt`: only a written PUBACK gives receive quota back. */
  function HandlePubackWritten(s: State): State {
    if s.receiveQuota < s.receiveMaximum then s.(receiveQuota := s.receiveQuota + 1) else s
  }

  // ---------------------------------------------------------------- runs of a connected session

  datatype Input = App(op: Op) | Recv(packet: Packet) | PubackWritten

  function Step(s: State, e: Input): State {
    match e
    case App(op) => Start(s, op)
    case PubackWritten => HandlePubackWritten(s)
    case Recv(p) =>
      match p
      case PubackPacket(a) => HandlePuback(s, a)
      case SubackPacket(c) => HandleSuback(s, c)
      case UnsubackPacket(c) => HandleUnsuback(s, c)
      case PublishPacket(m) => HandlePublish(s, m)
      case PubrecPacket(a) => HandlePubrec(s, a)
      case PubrelPacket(a) => HandlePubrel(s, a)
      case PubcompPacket(a) => HandlePubcomp(s, a)
      case _ => s
  }

  function Run(s: State, es: seq<Input>): State
    decreases es
  {
    if es == [] then s else Run(Step(s, es[0]), es[1..])
  }

  /** A client as constructed, with the receive maximum of its connect options. */
  function Initial(receiveMaximum: uint16): State {
    State(1, [], [], [], [], [], [], 0xFFFF, 0xFFFF, 0xFFFF, receiveMaximum, [], [], [], 0, 0, [], [], [], [])
  }

  /** The same after a CONNACK that came before anything was started. */
  function Connected(receiveMaximum: uint16, serverMaximum: uint16): State {
    HandleConnack(Initial(receiveMaximum), serverMaximum)
  }
}
