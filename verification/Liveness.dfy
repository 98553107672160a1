/** Exchanges between the two clients of `Duplex` come to an end: every delivered packet uses up part
    of a finite budget, in which whatever the callbacks will ever start is already counted. */
module Liveness {
  import opened Bytes
  import opened Primitives
  import opened Packets
  import Records
  import opened Engine
  import opened Duplex
  import opened Starts
  import Window
  import TopicFilter
  import Waiters

  // ---------------------------------------------------------------- the budget

  /** More than what handling the packet can cost in turn. */
  function Cost(p: Packet): nat {
    match p
    case PublishPacket(m) => if m.Qos() == 2 then 5 else if m.Qos() != 0 then 3 else 1
    case PubrecPacket(_) => 3
    case PubrelPacket(_) => 2
    case _ => 1
  }

  function Costs(ps: seq<Packet>): nat {
    if ps == [] then 0 else Cost(ps[0]) + Costs(ps[1..])
  }

  /** The packet an operation writes, and all that its receiver will start. */
  function Weight(op: Op): nat
    decreases op
  {
    match op
    case StartPublish(m, rx) => Cost(PublishPacket(m)) + Weights(rx.reaction)
    case StartSubscribe(m, rx) => 1 + Weights(rx.reaction)
    case StartUnsubscribe(m, rx) => 1 + Weights(rx.reaction)
    case StartWaiting(f, rx) => Weights(rx.reaction)
  }

  function Weights(ops: seq<Op>): nat
    decreases ops
  {
    if ops == [] then 0 else Weight(ops[0]) + Weights(ops[1..])
  }

  function Load(rxs: seq<Receiver>): nat {
    if rxs == [] then 0 else Weights(rxs[0].reaction) + Load(rxs[1..])
  }

  function Queued(ps: seq<Pending>): seq<Packet> {
    seq(|ps|, i requires 0 <= i < |ps| => PublishPacket(ps[i].message))
  }

  /** The receivers of the publishes queued and in flight, of the subscribes and the unsubscribes. */
  function QueueReceivers(ps: seq<Pending>): seq<Receiver> {
    seq(|ps|, i requires 0 <= i < |ps| => ps[i].receiver)
  }

  function FlightReceivers(fs: seq<InFlight>): seq<Receiver> {
    seq(|fs|, i requires 0 <= i < |fs| => fs[i].pending.receiver)
  }

  function SubscribeReceivers(os: seq<OpenSubscribe>): seq<Receiver> {
    seq(|os|, i requires 0 <= i < |os| => os[i].receiver)
  }

  function UnsubscribeReceivers(os: seq<OpenUnsubscribe>): seq<Receiver> {
    seq(|os|, i requires 0 <= i < |os| => os[i].receiver)
  }

  /** What has been written, what is queued, and what every receiver held anywhere will start. */
  function Total(s: State): nat {
    Costs(s.sent) + Costs(Queued(s.queue)) + Load(QueueReceivers(s.queue)) + Load(FlightReceivers(s.published))
    + Load(SubscribeReceivers(s.subscribes)) + Load(UnsubscribeReceivers(s.unsubscribes))
    + Load(Waiters.Waiting(s.waiters))
  }

  // ---------------------------------------------------------------- sums

  lemma {:induction false} CostsConcat(ps: seq<Packet>, qs: seq<Packet>)
    ensures Costs(ps + qs) == Costs(ps) + Costs(qs)
  {
    if ps == [] {
      assert ps + qs == qs;
    } else {
      assert (ps + qs)[1..] == ps[1..] + qs;
      CostsConcat(ps[1..], qs);
    }
  }

  lemma CostsSnoc(ps: seq<Packet>, p: Packet)
    ensures Costs(ps + [p]) == Costs(ps) + Cost(p)
  {
    CostsConcat(ps, [p]);
    assert [p][1..] == [];
  }

  lemma {:induction false} LoadConcat(a: seq<Receiver>, b: seq<Receiver>)
    ensures Load(a + b) == Load(a) + Load(b)
  {
    if a == [] {
      assert a + b == b;
    } else {
      assert (a + b)[1..] == a[1..] + b;
      LoadConcat(a[1..], b);
    }
  }

  lemma LoadSnoc(a: seq<Receiver>, rx: Receiver)
    ensures Load(a + [rx]) == Load(a) + Weights(rx.reaction)
  {
    LoadConcat(a, [rx]);
    assert [rx][1..] == [];
  }

  lemma LoadRemove(a: seq<Receiver>, i: nat)
    requires i < |a|
    ensures Load(Remove(a, i)) + Weights(a[i].reaction) == Load(a)
  {
    hide Load;
    assert a == a[..i] + [a[i]] + a[i + 1..];
    LoadConcat(a[..i] + [a[i]], a[i + 1..]);
    LoadSnoc(a[..i], a[i]);
    LoadConcat(a[..i], a[i + 1..]);
  }

  // ---------------------------------------------------------------- starts

  lemma SendTotal(s: State, p: Packet)
    ensures Total(Send(s, p)) == Total(s) + Cost(p)
  {
    CostsSnoc(s.sent, p);
  }

  /** Fields outside the account do not matter. */
  lemma SameTotal(s: State, t: State)
    requires s.sent == t.sent && s.queue == t.queue && s.published == t.published && s.subscribes == t.subscribes
    requires s.unsubscribes == t.unsubscribes && s.waiters == t.waiters
    ensures Total(s) == Total(t)
  {
  }

  lemma LaunchTotal(s: State, p: Pending)
    ensures Total(Launch(s, p)) == Total(s) + Cost(PublishPacket(p.message)) + Weights(p.receiver.reaction)
  {
    hide Load, Costs, Cost;
    CostsSnoc(s.sent, PublishPacket(p.message));
    assert FlightReceivers(Launch(s, p).published) == FlightReceivers(s.published) + [p.receiver];
    LoadSnoc(FlightReceivers(s.published), p.receiver);
  }

  lemma QueueTotal(s: State, p: Pending)
    ensures Total(s.(queue := s.queue + [p]))
            == Total(s) + Cost(PublishPacket(p.message)) + Weights(p.receiver.reaction)
  {
    hide Load, Costs, Cost;
    assert Queued(s.queue + [p]) == Queued(s.queue) + [PublishPacket(p.message)];
    assert QueueReceivers(s.queue + [p]) == QueueReceivers(s.queue) + [p.receiver];
    CostsSnoc(Queued(s.queue), PublishPacket(p.message));
    LoadSnoc(QueueReceivers(s.queue), p.receiver);
  }

  lemma LaunchOrQueueTotal(s: State, p: Pending)
    ensures Total(LaunchOrQueue(s, p)) == Total(s) + Cost(PublishPacket(p.message)) + Weights(p.receiver.reaction)
  {
    hide Total, Launch, Cost;
    var t := s.(started := s.started + [p]);
    SameTotal(s, t);
    LaunchTotal(t, p);
    QueueTotal(t, p);
  }

  lemma SubscribeTotal(s: State, m: Subscribe, rx: Receiver)
    ensures Total(Start(s, StartSubscribe(m, rx))) == Total(s) + 1 + Weights(rx.reaction)
  {
    hide Load, Costs;
    var t := Start(s, StartSubscribe(m, rx));
    CostsSnoc(s.sent, SubscribePacket(m.(packetIdentifier := s.nextId)));
    assert SubscribeReceivers(t.subscribes) == SubscribeReceivers(s.subscribes) + [rx];
    LoadSnoc(SubscribeReceivers(s.subscribes), rx);
  }

  lemma UnsubscribeTotal(s: State, m: Unsubscribe, rx: Receiver)
    ensures Total(Start(s, StartUnsubscribe(m, rx))) == Total(s) + 1 + Weights(rx.reaction)
  {
    hide Load, Costs;
    var t := Start(s, StartUnsubscribe(m, rx));
    CostsSnoc(s.sent, UnsubscribePacket(m.(packetIdentifier := s.nextId)));
    assert UnsubscribeReceivers(t.unsubscribes) == UnsubscribeReceivers(s.unsubscribes) + [rx];
    LoadSnoc(UnsubscribeReceivers(s.unsubscribes), rx);
  }

  lemma AddWaiterLoad(ws: seq<Waiter>, f: Filter, rx: Receiver)
    ensures Load(Waiters.Waiting(AddWaiter(ws, f, rx))) == Load(Waiters.Waiting(ws)) + Weights(rx.reaction)
  {
    hide Load, Waiters.Waiting, WaiterIndex;
    var i := WaiterIndex(ws, f);
    if i == |ws| {
      Waiters.WaitingConcat(ws, [Waiter(f, [rx])]);
      Waiters.WaitingCons(Waiter(f, [rx]), []);
      assert [Waiter(f, [rx])] + [] == [Waiter(f, [rx])];
      LoadSnoc(Waiters.Waiting(ws), rx);
    } else {
      var w, v, rest := ws[i], ws[i].(receivers := ws[i].receivers + [rx]), ws[i + 1..];
      assert ws == ws[..i] + ([w] + rest) && ws[i := v] == ws[..i] + ([v] + rest);
      Waiters.WaitingConcat(ws[..i], [w] + rest);
      Waiters.WaitingConcat(ws[..i], [v] + rest);
      Waiters.WaitingCons(w, rest);
      Waiters.WaitingCons(v, rest);
      LoadConcat(Waiters.Waiting(ws[..i]), w.receivers + Waiters.Waiting(rest));
      LoadConcat(Waiters.Waiting(ws[..i]), v.receivers + Waiters.Waiting(rest));
      LoadConcat(w.receivers, Waiters.Waiting(rest));
      LoadConcat(v.receivers, Waiters.Waiting(rest));
      LoadSnoc(w.receivers, rx);
    }
  }

  /** A start adds exactly the weight of its operation, callbacks included. */
  lemma {:induction false} StartTotal(s: State, op: Op)
    ensures Total(Start(s, op)) == Total(s) + Weight(op)
    decreases op
  {
    hide Load, Costs, AddWaiter, LaunchOrQueue;
    match op
    case StartPublish(m, rx) =>
      if m.Qos() == 0 {
        var u := Send(s, PublishPacket(m)).(log := s.log + [Sent(rx.token)]);
        SendTotal(s, PublishPacket(m));
        SameTotal(Send(s, PublishPacket(m)), u);
        RunOpsTotal(u, rx.reaction);
        assert Start(s, op) == RunOps(u, rx.reaction);
      } else {
        var p := Pending(m.(packetIdentifier := s.nextId), rx, s.issued);
        assert p.message.Qos() == m.Qos();
        LaunchOrQueueTotal(Allocate(s), p);
      }
    case StartSubscribe(m, rx) => SubscribeTotal(s, m, rx);
    case StartUnsubscribe(m, rx) => UnsubscribeTotal(s, m, rx);
    case StartWaiting(f, rx) => AddWaiterLoad(s.waiters, f, rx);
  }

  lemma {:induction false} RunOpsTotal(s: State, ops: seq<Op>)
    ensures Total(RunOps(s, ops)) == Total(s) + Weights(ops)
    decreases ops
  {
    hide Total;
    if ops != [] {
      StartTotal(s, ops[0]);
      RunOpsTotal(Start(s, ops[0]), ops[1..]);
    }
  }

  lemma CallbackTotal(s: State, rx: Receiver, e: Event)
    ensures Total(Callback(s, rx, e)) == Total(s) + Weights(rx.reaction)
  {
    hide Total;
    SameTotal(s, s.(log := s.log + [e]));
    RunOpsTotal(s.(log := s.log + [e]), rx.reaction);
  }

  // ---------------------------------------------------------------- handlers

  lemma FinishTotal(s: State, i: nat, r: PublishResult)
    requires i < |s.published|
    ensures Total(Finish(s, i, r)) == Total(s)
  {
    hide Load, Costs, Callback;
    var t, p := s.(published := Remove(s.published, i)), s.published[i].pending;
    assert FlightReceivers(t.published) == Remove(FlightReceivers(s.published), i);
    LoadRemove(FlightReceivers(s.published), i);
    CallbackTotal(t, p.receiver, Completed(p, r));
  }

  lemma MaybeSendTotal(s: State)
    ensures Total(MaybeSendQueued(s)) == Total(s)
  {
    if s.sendQuota < s.maxQuota && s.queue != [] {
      hide Load, Costs, Launch, Cost;
      var p, rest := s.queue[0], s.queue[1..];
      var t := s.(sendQuota := s.sendQuota + 1, queue := rest);
      assert Queued(s.queue) == [PublishPacket(p.message)] + Queued(rest);
      assert QueueReceivers(s.queue) == [p.receiver] + QueueReceivers(rest);
      CostsConcat([PublishPacket(p.message)], Queued(rest));
      CostsSnoc([], PublishPacket(p.message));
      LoadConcat([p.receiver], QueueReceivers(rest));
      LoadSnoc([], p.receiver);
      EmptySums();
      assert [] + [PublishPacket(p.message)] == [PublishPacket(p.message)] && [] + [p.receiver] == [p.receiver];
      LaunchTotal(t, p);
    }
  }

  lemma EmptySums()
    ensures Costs([]) == 0 && Load([]) == 0
  {
  }

  lemma {:induction false} CallAllTotal(s: State, rxs: seq<Receiver>, m: Publish)
    ensures Total(CallAll(s, rxs, m)) == Total(s) + Load(rxs)
    decreases rxs
  {
    hide Total, Callback;
    if rxs != [] {
      CallbackTotal(s, rxs[0], Delivered(rxs[0].token, m));
      CallAllTotal(Callback(s, rxs[0], Delivered(rxs[0].token, m)), rxs[1..], m);
    }
  }

  lemma {:induction false} TakenOutLoad(ws: seq<Waiter>, topic: text)
    ensures Load(MatchingReceivers(ws, topic)) + Load(Waiters.Waiting(OtherWaiters(ws, topic)))
            == Load(Waiters.Waiting(ws))
  {
    hide TopicFilter.Matches, Load, Waiters.Waiting;
    if ws == [] {
      EmptySums();
      Waiters.NobodyWaits();
    } else {
      var w, matching, others := ws[0], MatchingReceivers(ws[1..], topic), OtherWaiters(ws[1..], topic);
      TakenOutLoad(ws[1..], topic);
      assert ws == [w] + ws[1..];
      Waiters.WaitingCons(w, ws[1..]);
      Waiters.WaitingCons(w, others);
      LoadConcat(w.receivers, Waiters.Waiting(ws[1..]));
      LoadConcat(w.receivers, Waiters.Waiting(others));
      LoadConcat(w.receivers, matching);
      assert [] + others == others && [] + matching == matching;
    }
  }

  lemma DeliverTotal(s: State, m: Publish)
    ensures Total(Deliver(s, m)) == Total(s)
  {
    hide Load, Costs, CallAll;
    TakenOutLoad(s.waiters, m.topic);
    CallAllTotal(s.(waiters := OtherWaiters(s.waiters, m.topic)), MatchingReceivers(s.waiters, m.topic), m);
  }

  lemma AckTotal(s: State, p: Packet)
    requires p.PubackPacket? || p.PubrecPacket? || p.PubcompPacket?
    ensures Total(Step(s, Recv(p))) + 1 <= Total(s) + Cost(p)
  {
    hide Total, Finish, MaybeSendQueued;
    var i, code, l := InFlightIndex(s.published, p.ack.packetIdentifier), p.ack.reasonCode, s.(leaked := s.leaked + 1);
    SameTotal(s, l);
    if i == |s.published| {
      MaybeSendTotal(s);
      SendTotal(s, PubrelPacket(Reply(p.ack.packetIdentifier, IDENTIFIER_NOT_FOUND)));
    } else {
      var m := s.published[i].pending.message;
      var t, u := s.(acknowledged := s.acknowledged + [m]), l.(finished := l.finished + [m]);
      SameTotal(s, t);
      SameTotal(s, u);
      FinishTotal(t, i, Value(code));
      MaybeSendTotal(Finish(t, i, Value(code)));
      FinishTotal(s, i, Done);
      SameTotal(Finish(s, i, Done), Close(Finish(s, i, Done)));
      MaybeSendTotal(Close(Finish(s, i, Done)));
      FinishTotal(l, i, Value(code));
      FinishTotal(l, i, Done);
      SameTotal(Finish(l, i, Done), Close(Finish(l, i, Done)));
      FinishTotal(u, i, Value(code));
      ResumeTotal(s, i, p.ack);
    }
  }

  lemma ResumeTotal(s: State, i: nat, a: Ack)
    requires i < |s.published|
    ensures var u := s.(published := s.published[i := s.published[i].(state := WaitingPubcomp)]);
            Total(Send(u, PubrelPacket(Reply(a.packetIdentifier, 0)))) == Total(s) + 2
  {
    hide Load, Costs;
    var u := s.(published := s.published[i := s.published[i].(state := WaitingPubcomp)]);
    assert FlightReceivers(u.published) == FlightReceivers(s.published);
    SendTotal(u, PubrelPacket(Reply(a.packetIdentifier, 0)));
  }

  lemma PublishTotal(s: State, m: Publish)
    ensures Total(HandlePublish(s, m)) + 1 <= Total(s) + Cost(PublishPacket(m))
  {
    hide Total, Deliver, ReceivedIndex;
    var t := TakeReceiveQuota(s, m);
    var d := Send(s, DisconnectPacket(Disconnect(QUOTA_EXCEEDED, Records.NO_DISCONNECT)));
    SendTotal(s, DisconnectPacket(Disconnect(QUOTA_EXCEEDED, Records.NO_DISCONNECT)));
    SameTotal(d, Close(d));
    SameTotal(s, s.(receiveQuota := if s.receiveQuota > 0 then s.receiveQuota - 1 else 0));
    var a, b := PubackPacket(Reply(m.packetIdentifier, 0)), PubrecPacket(Reply(m.packetIdentifier, 0));
    SendTotal(t, a);
    SameTotal(Send(t, a), Send(t, a).(direct := t.direct + [m]));
    DeliverTotal(Send(t, a).(direct := t.direct + [m]), m);
    SameTotal(t, t.(received := t.received + [m]));
    SendTotal(t, b);
    SendTotal(t.(received := t.received + [m]), b);
    SameTotal(t, t.(direct := t.direct + [m]));
    DeliverTotal(t.(direct := t.direct + [m]), m);
  }

  lemma PubrelTotal(s: State, a: Ack)
    ensures Total(HandlePubrel(s, a)) + 1 <= Total(s) + 2
  {
    hide Total, Deliver, ReceivedIndex;
    var i, id := ReceivedIndex(s.received, a.packetIdentifier), a.packetIdentifier;
    if i == |s.received| {
      SendTotal(s, PubcompPacket(Reply(id, IDENTIFIER_NOT_FOUND)));
    } else {
      var u := s.(received := Remove(s.received, i), released := s.released + [s.received[i]]);
      SameTotal(s, u);
      SendTotal(u, PubcompPacket(Reply(id, 0)));
      DeliverTotal(Send(u, PubcompPacket(Reply(id, 0))), s.received[i]);
    }
  }

  lemma CodesTotal(s: State, p: Packet)
    requires p.SubackPacket? || p.UnsubackPacket?
    ensures Total(Step(s, Recv(p))) == Total(s)
  {
    hide Load, Costs, Callback;
    if p.SubackPacket? && SubscribeIndex(s.subscribes, p.codes.packetIdentifier) < |s.subscribes| {
      var i := SubscribeIndex(s.subscribes, p.codes.packetIdentifier);
      var t, o := s.(subscribes := Remove(s.subscribes, i)), s.subscribes[i];
      assert SubscribeReceivers(t.subscribes) == Remove(SubscribeReceivers(s.subscribes), i);
      LoadRemove(SubscribeReceivers(s.subscribes), i);
      CallbackTotal(t, o.receiver, Subscribed(o, p.codes.reasonCodes));
    }
    if p.UnsubackPacket? && UnsubscribeIndex(s.unsubscribes, p.codes.packetIdentifier) < |s.unsubscribes| {
      var i := UnsubscribeIndex(s.unsubscribes, p.codes.packetIdentifier);
      var t, o := s.(unsubscribes := Remove(s.unsubscribes, i)), s.unsubscribes[i];
      assert UnsubscribeReceivers(t.unsubscribes) == Remove(UnsubscribeReceivers(s.unsubscribes), i);
      LoadRemove(UnsubscribeReceivers(s.unsubscribes), i);
      CallbackTotal(t, o.receiver, Unsubscribed(o, p.codes.reasonCodes));
    }
  }

  /** Whatever the packet and whatever the callbacks start, handling it costs less than it carried. */
  lemma HandlingCostsLess(s: State, p: Packet)
    ensures Total(Step(s, Recv(p))) + 1 <= Total(s) + Cost(p)
  {
    hide Total, HandlePuback, HandleSuback, HandleUnsuback, HandlePublish, HandlePubrec, HandlePubrel, HandlePubcomp;
    if p.PubackPacket? || p.PubrecPacket? || p.PubcompPacket? {
      AckTotal(s, p);
    } else if p.PublishPacket? {
      PublishTotal(s, p.publish);
    } else if p.PubrelPacket? {
      PubrelTotal(s, p.ack);
    } else if p.SubackPacket? || p.UnsubackPacket? {
      CodesTotal(s, p);
    }
  }

  // ---------------------------------------------------------------- two clients

  predicate Bounded(w: World) {
    w.ab <= |w.a.sent| && w.ba <= |w.b.sent|
  }

  /** What is left of both budgets: packets already read no longer count. */
  function Energy(w: World): int
    requires Bounded(w)
  {
    Total(w.a) + Total(w.b) - Costs(w.a.sent[..w.ab]) - Costs(w.b.sent[..w.ba])
  }

  predicate Delivers(w: World, mv: Move) {
    (mv == ToA && w.ba < |w.b.sent|) || (mv == ToB && w.ab < |w.a.sent|)
  }

  /** Nothing but packets being delivered. */
  predicate Deliveries(w: World, mvs: seq<Move>)
    decreases mvs
  {
    mvs == [] || (Delivers(w, mvs[0]) && Deliveries(Next(w, mvs[0]), mvs[1..]))
  }

  lemma EnergyIsNatural(w: World)
    requires Bounded(w)
    ensures Energy(w) >= 0
  {
    hide Load;
    assert w.a.sent == w.a.sent[..w.ab] + w.a.sent[w.ab..] && w.b.sent == w.b.sent[..w.ba] + w.b.sent[w.ba..];
    CostsConcat(w.a.sent[..w.ab], w.a.sent[w.ab..]);
    CostsConcat(w.b.sent[..w.ba], w.b.sent[w.ba..]);
  }

  lemma SentGrows(s: State, p: Packet)
    ensures s.sent <= Step(s, Recv(p)).sent
  {
    hide Deliver, ReceivedIndex, Extends, HandlePuback, HandleSuback, HandleUnsuback, HandlePubrec, HandlePubcomp;
    if p.PublishPacket? {
      var m, t := p.publish, TakeReceiveQuota(s, p.publish);
      DeliverGrows(Send(t, PubackPacket(Reply(m.packetIdentifier, 0))).(direct := t.direct + [m]), m);
      DeliverGrows(t.(direct := t.direct + [m]), m);
    } else if p.PubrelPacket? {
      var i := ReceivedIndex(s.received, p.ack.packetIdentifier);
      if i < |s.received| {
        DeliverGrows(Send(s.(received := Remove(s.received, i), released := s.released + [s.received[i]]),
                          PubcompPacket(Reply(p.ack.packetIdentifier, 0))), s.received[i]);
      }
    } else {
      StepReceivesNothing(s, Recv(p));
    }
  }

  lemma DeliverGrows(s: State, m: Publish)
    ensures s.sent <= Deliver(s, m).sent
  {
    hide Deliver;
    DeliverExtends(s, m);
  }

  /** The reader at position r of x's packets. */
  lemma ReadTotal(x: State, y: State, r: nat)
    requires r < |x.sent|
    ensures var u := Step(y, Recv(x.sent[r]));
            Total(u) - Costs(x.sent[..r + 1]) + 1 <= Total(y) - Costs(x.sent[..r])
  {
    hide Total, Step, Costs;
    HandlingCostsLess(y, x.sent[r]);
    CostsSnoc(x.sent[..r], x.sent[r]);
    assert x.sent[..r + 1] == x.sent[..r] + [x.sent[r]];
  }

  lemma DeliveryTakesEnergy(w: World, mv: Move)
    requires Bounded(w) && Delivers(w, mv)
    ensures Bounded(Next(w, mv)) && Energy(Next(w, mv)) + 1 <= Energy(w)
  {
    hide Total, Step, Costs;
    var u := Next(w, mv);
    if mv == ToA {
      SentGrows(w.a, w.b.sent[w.ba]);
      assert u.a.sent[..w.ab] == w.a.sent[..w.ab];
      ReadTotal(w.b, w.a, w.ba);
    } else {
      SentGrows(w.b, w.a.sent[w.ab]);
      assert u.b.sent[..w.ba] == w.b.sent[..w.ba];
      ReadTotal(w.a, w.b, w.ab);
    }
  }

  /** From any state, in any order and whatever the callbacks start: no more packets can be delivered
      than the energy of the state. */
  lemma {:induction false} DeliveriesEnd(w: World, mvs: seq<Move>)
    requires Bounded(w) && Deliveries(w, mvs)
    ensures Bounded(After(w, mvs)) && Energy(After(w, mvs)) + |mvs| <= Energy(w)
    decreases mvs
  {
    hide Bounded, Energy, Next;
    if mvs != [] {
      DeliveryTakesEnergy(w, mvs[0]);
      DeliveriesEnd(Next(w, mvs[0]), mvs[1..]);
    }
  }

  predicate ChannelsEmpty(w: World) {
    w.ab >= |w.a.sent| && w.ba >= |w.b.sent|
  }

  /** So there is a sequence of deliveries after which both channels are empty. */
  lemma {:induction false} DrainExists(w: World) returns (mvs: seq<Move>)
    requires Bounded(w)
    ensures Deliveries(w, mvs) && ChannelsEmpty(After(w, mvs)) && |mvs| <= Energy(w)
    decreases Energy(w)
  {
    hide Energy, Next;
    EnergyIsNatural(w);
    if ChannelsEmpty(w) {
      mvs := [];
    } else {
      var mv := if w.ab < |w.a.sent| then ToB else ToA;
      DeliveryTakesEnergy(w, mv);
      EnergyIsNatural(Next(w, mv));
      var rest := DrainExists(Next(w, mv));
      mvs := [mv] + rest;
      assert mvs[1..] == rest;
    }
  }

  lemma {:induction false} AfterConcat(w: World, mvs: seq<Move>, more: seq<Move>)
    ensures After(w, mvs + more) == After(After(w, mvs), more)
    decreases mvs
  {
    hide Next;
    if mvs == [] {
      assert mvs + more == more;
    } else {
      assert (mvs + more)[1..] == mvs[1..] + more;
      AfterConcat(Next(w, mvs[0]), mvs[1..], more);
    }
  }

  lemma {:induction false} DistinctBefore(w: World, mvs: seq<Move>, more: seq<Move>)
    requires AlwaysDistinct(w, mvs + more)
    ensures AlwaysDistinct(w, mvs)
    decreases mvs
  {
    hide Next, DistinctIds;
    if mvs != [] {
      assert (mvs + more)[1..] == mvs[1..] + more;
      DistinctBefore(Next(w, mvs[0]), mvs[1..], more);
    }
  }

  lemma SoundIsBounded(w: World)
    requires Sound(w)
    ensures Bounded(w)
  {
    hide Linked, Window.Orderly;
    LinkedBounds(w.a, w.b, w.ab, w.ba);
  }

  /** Exactly once, and eventually. After any run of the two clients, deliver what is on its way, and
      what that brings about, in any order: it ends after no more packets than the energy of the
      state, and when nothing is left to deliver every publish that either client has written has
      been delivered to the other, once and in order, and completed. */
  lemma EverythingArrives(maxA: uint16, windowA: uint16, maxB: uint16, windowB: uint16, mvs: seq<Move>, more: seq<Move>)
    requires AlwaysDistinct(Joined(maxA, windowA, maxB, windowB), mvs + more)
    requires Deliveries(After(Joined(maxA, windowA, maxB, windowB), mvs), more)
    ensures var w := After(Joined(maxA, windowA, maxB, windowB), mvs);
            && Bounded(w) && |more| <= Energy(w)
            && (ChannelsEmpty(After(w, more)) ==>
                  Settled(After(w, more).a, After(w, more).b) && Settled(After(w, more).b, After(w, more).a))
  {
    hide Linked, Window.Orderly, Settled, AlwaysDistinct, Joined, After, Deliveries, Energy, Bounded;
    var start := Joined(maxA, windowA, maxB, windowB);
    var w := After(start, mvs);
    DistinctBefore(start, mvs, more);
    JoinedIsSound(maxA, windowA, maxB, windowB);
    AfterIsSound(start, mvs);
    SoundIsBounded(w);
    DeliveriesEnd(w, more);
    EnergyIsNatural(After(w, more));
    AfterConcat(start, mvs, more);
    if ChannelsEmpty(After(w, more)) {
      QuietMeansDone(maxA, windowA, maxB, windowB, mvs + more);
    }
  }
}
