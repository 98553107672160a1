/** What starting operations can do to a client: it only ever adds. User callbacks can start
    operations at any moment, so every handler's effect is its own, followed by such an extension. */
module Starts {
  import opened Bytes
  import opened Packets
  import opened Engine
  import Records
  import opened Window

  /** A publish in the state it is launched in. */
  predicate Launched(f: InFlight) {
    f.state == if f.pending.message.Qos() == 2 then WaitingPubrec else WaitingPuback
  }

  predicate Request(p: Packet) {
    p.PublishPacket? || p.SubscribePacket? || p.UnsubscribePacket?
  }

  /** The fields that a start may change; all others are as before. */
  predicate Framed(s: State, t: State) {
    t == s.(nextId := t.nextId, published := t.published, queue := t.queue, subscribes := t.subscribes,
            unsubscribes := t.unsubscribes, waiters := t.waiters, sendQuota := t.sendQuota,
            sent := t.sent, log := t.log, started := t.started, issued := t.issued)
  }

  /** The tables keep what they hold and grow at the end. */
  predicate Grown(s: State, t: State) {
    && s.published <= t.published && s.queue <= t.queue
    && s.subscribes <= t.subscribes && s.unsubscribes <= t.unsubscribes
    && s.sent <= t.sent && s.log <= t.log && s.started <= t.started && s.issued <= t.issued
  }

  /** What is new is new: requests written, QoS 0 publishes reported or messages delivered, publishes
      launched in the order they were written, starts numbered upwards, and nothing waits for an
      answer to a request that was not written. */
  predicate Fresh(s: State, t: State)
    requires Grown(s, t)
  {
    && (forall i :: |s.sent| <= i < |t.sent| ==> Request(t.sent[i]))
    && (forall i :: |s.log| <= i < |t.log| ==> t.log[i].Sent? || t.log[i].Delivered?)
    && (forall i :: |s.published| <= i < |t.published| ==> Launched(t.published[i]))
    && LaunchedIn(t.sent) == LaunchedIn(s.sent) + Messages(Pendings(t.published[|s.published|..]))
    && (forall i :: |s.started| <= i < |t.started| ==> s.issued <= t.started[i].serial < t.issued)
    && (forall i, j :: |s.started| <= i < j < |t.started| ==> t.started[i].serial < t.started[j].serial)
    && (forall i :: |s.published| <= i < |t.published| ==> PublishPacket(t.published[i].pending.message) in t.sent)
    && (forall i :: |s.subscribes| <= i < |t.subscribes| ==> SubscribePacket(t.subscribes[i].message) in t.sent)
    && (forall i :: |s.unsubscribes| <= i < |t.unsubscribes| ==> UnsubscribePacket(t.unsubscribes[i].message) in t.sent)
  }

  predicate Extends(s: State, t: State) {
    Framed(s, t) && Grown(s, t) && Fresh(s, t)
  }

  lemma ExtendsTrans(s: State, t: State, u: State)
    requires Extends(s, t) && Extends(t, u)
    ensures Extends(s, u)
  {
    assert t.published == u.published[..|t.published|];
    assert Messages(Pendings(u.published[|s.published|..]))
        == Messages(Pendings(t.published[|s.published|..])) + Messages(Pendings(u.published[|t.published|..]));
    Assoc(LaunchedIn(s.sent), Messages(Pendings(t.published[|s.published|..])),
        Messages(Pendings(u.published[|t.published|..])));
    forall i | |s.started| <= i < |u.started| ensures s.issued <= u.started[i].serial < u.issued {
      if i < |t.started| { assert u.started[i] == t.started[i]; }
    }
  }

  lemma LaunchExtends(s: State, p: Pending)
    requires p.message.Qos() != 0
    ensures Extends(s, Launch(s, p))
  {
    LaunchedSnoc(s.sent, PublishPacket(p.message));
    var t := Launch(s, p);
    assert t.published[|s.published|..] == [InFlight(p, t.published[|s.published|].state)];
    assert Messages(Pendings(t.published[|s.published|..])) == [p.message];
  }

  /** At most one request is written, and no QoS 1 or 2 publish. */
  lemma RequestExtends(s: State, t: State, ps: seq<Packet>)
    requires Framed(s, t) && Grown(s, t) && t.published == s.published && t.started == s.started
    requires t.sent == s.sent + ps && |ps| <= 1
    requires forall p :: p in ps ==> Request(p) && !(p.PublishPacket? && p.publish.Qos() != 0)
    requires t.log == s.log || (exists token :: t.log == s.log + [Sent(token)])
    requires forall i :: |s.subscribes| <= i < |t.subscribes| ==> SubscribePacket(t.subscribes[i].message) in ps
    requires forall i :: |s.unsubscribes| <= i < |t.unsubscribes| ==> UnsubscribePacket(t.unsubscribes[i].message) in ps
    ensures Extends(s, t)
  {
    if ps != [] {
      assert ps == [ps[0]];
      LaunchedSnoc(s.sent, ps[0]);
    } else {
      assert s.sent + ps == s.sent;
    }
  }

  lemma LaunchOrQueueExtends(s: State, p: Pending)
    requires p.message.Qos() != 0 && p.serial == s.issued
    ensures Extends(s, LaunchOrQueue(s.(nextId := NextAfter(s.nextId), issued := s.issued + 1), p))
  {
    var t := s.(nextId := NextAfter(s.nextId), issued := s.issued + 1, started := s.started + [p]);
    if s.sendQuota > 0 {
      LaunchExtends(t, p);
    }
  }

  lemma {:induction false} StartExtends(s: State, op: Op)
    ensures Extends(s, Start(s, op))
    decreases op
  {
    hide Extends, LaunchOrQueue, LaunchedIn, AddWaiter;
    match op
    case StartPublish(m, rx) =>
      if m.Qos() == 0 {
        var t := Send(s, PublishPacket(m));
        var u := t.(log := t.log + [Sent(rx.token)]);
        RequestExtends(s, u, [PublishPacket(m)]);
        RunOpsExtends(u, rx.reaction);
        assert Start(s, op) == RunOps(u, rx.reaction);
        ExtendsTrans(s, u, Start(s, op));
      } else {
        LaunchOrQueueExtends(s, Pending(m.(packetIdentifier := s.nextId), rx, s.issued));
      }
    case StartSubscribe(m, rx) =>
      RequestExtends(s, Start(s, op), [SubscribePacket(m.(packetIdentifier := s.nextId))]);
    case StartUnsubscribe(m, rx) =>
      RequestExtends(s, Start(s, op), [UnsubscribePacket(m.(packetIdentifier := s.nextId))]);
    case StartWaiting(f, rx) =>
      RequestExtends(s, Start(s, op), []);
  }

  lemma {:induction false} RunOpsExtends(s: State, ops: seq<Op>)
    ensures Extends(s, RunOps(s, ops))
    decreases ops
  {
    if ops != [] {
      StartExtends(s, ops[0]);
      RunOpsExtends(Start(s, ops[0]), ops[1..]);
      ExtendsTrans(s, Start(s, ops[0]), RunOps(s, ops));
    }
  }

  /** What a reaction lists is started in that order. */
  lemma {:induction false} InOrder(s: State, a: seq<Op>, b: seq<Op>)
    ensures RunOps(s, a + b) == RunOps(RunOps(s, a), b)
    ensures forall op :: RunOps(s, [op]) == Start(s, op)
    decreases a
  {
    hide Start;
    forall op ensures RunOps(s, [op]) == Start(s, op) {
      assert [op][1..] == [];
    }
    if a == [] {
      assert a + b == b;
    } else {
      assert (a + b)[1..] == a[1..] + b;
      InOrder(Start(s, a[0]), a[1..], b);
    }
  }

  /** A callback logs its own event and then extends. */
  lemma CallbackExtends(s: State, rx: Receiver, e: Event)
    ensures Extends(s.(log := s.log + [e]), Callback(s, rx, e))
  {
    RunOpsExtends(s.(log := s.log + [e]), rx.reaction);
  }

  lemma {:induction false} CallAllExtends(s: State, rxs: seq<Receiver>, m: Publish)
    ensures Extends(s, CallAll(s, rxs, m))
    decreases rxs
  {
    hide LaunchedIn, Callback;
    if rxs != [] {
      var e := Delivered(rxs[0].token, m);
      var t := s.(log := s.log + [e]);
      assert Extends(s, t);
      CallbackExtends(s, rxs[0], e);
      ExtendsTrans(s, t, Callback(s, rxs[0], e));
      CallAllExtends(Callback(s, rxs[0], e), rxs[1..], m);
      ExtendsTrans(s, Callback(s, rxs[0], e), CallAll(s, rxs, m));
    }
  }

  /** Handing a message to the waiters only adds, too, but for the waiters themselves. */
  lemma DeliverExtends(s: State, m: Publish)
    ensures Extends(s, Deliver(s, m))
  {
    hide LaunchedIn, CallAll, OtherWaiters, MatchingReceivers;
    var t := s.(waiters := OtherWaiters(s.waiters, m.topic));
    assert Extends(s, t);
    CallAllExtends(t, MatchingReceivers(s.waiters, m.topic), m);
    ExtendsTrans(s, t, Deliver(s, m));
  }

  // ---------------------------------------------------------------- the two halves of a client

  /** A PUBREL as the client writes it. */
  predicate Resumes(p: Packet) {
    p.PubrelPacket? && p.ack.properties == Records.NO_REASON
  }

  /** Nothing happens on the receiving side: its tables are as before, and what is written is
      requests and PUBRELs. */
  predicate ReceivesNothing(s: State, t: State) {
    && t.received == s.received && t.released == s.released && t.direct == s.direct
    && t.receiveQuota == s.receiveQuota && t.receiveMaximum == s.receiveMaximum
    && s.sent <= t.sent
    && (forall i :: |s.sent| <= i < |t.sent| ==> Request(t.sent[i]) || Resumes(t.sent[i]))
  }

  lemma FinishReceivesNothing(s: State, i: nat, r: PublishResult)
    requires i < |s.published|
    ensures ReceivesNothing(s, Finish(s, i, r))
  {
    hide LaunchedIn;
    var p := s.published[i].pending;
    CallbackExtends(s.(published := Remove(s.published, i)), p.receiver, Completed(p, r));
  }

  lemma MaybeSendReceivesNothing(s: State)
    ensures ReceivesNothing(s, MaybeSendQueued(s))
  {
  }

  lemma PubackReceivesNothing(s: State, a: Ack)
    ensures ReceivesNothing(s, HandlePuback(s, a))
  {
    hide Finish, MaybeSendQueued;
    var i := InFlightIndex(s.published, a.packetIdentifier);
    if i == |s.published| {
      MaybeSendReceivesNothing(s);
    } else if s.published[i].state == WaitingPuback {
      var t := s.(acknowledged := s.acknowledged + [s.published[i].pending.message]);
      FinishReceivesNothing(t, i, Value(a.reasonCode));
      MaybeSendReceivesNothing(Finish(t, i, Value(a.reasonCode)));
    } else {
      FinishReceivesNothing(s, i, Done);
      MaybeSendReceivesNothing(Close(Finish(s, i, Done)));
    }
  }

  lemma PubrecReceivesNothing(s: State, a: Ack)
    ensures ReceivesNothing(s, HandlePubrec(s, a))
  {
    hide Finish;
    var i := InFlightIndex(s.published, a.packetIdentifier);
    if i < |s.published| {
      FinishReceivesNothing(s.(leaked := s.leaked + 1), i, Value(a.reasonCode));
      FinishReceivesNothing(s.(leaked := s.leaked + 1), i, Done);
    }
  }

  lemma PubcompReceivesNothing(s: State, a: Ack)
    ensures ReceivesNothing(s, HandlePubcomp(s, a))
  {
    hide Finish;
    var i := InFlightIndex(s.published, a.packetIdentifier);
    if i < |s.published| {
      var t := s.(leaked := s.leaked + 1, finished := s.finished + [s.published[i].pending.message]);
      FinishReceivesNothing(t, i, Value(a.reasonCode));
    }
  }

  lemma SubackReceivesNothing(s: State, c: Codes)
    ensures ReceivesNothing(s, HandleSuback(s, c))
  {
    hide LaunchedIn, Callback;
    var i := SubscribeIndex(s.subscribes, c.packetIdentifier);
    if i < |s.subscribes| {
      var rx := s.subscribes[i].receiver;
      CallbackExtends(s.(subscribes := Remove(s.subscribes, i)), rx, Subscribed(s.subscribes[i], c.reasonCodes));
    }
  }

  lemma UnsubackReceivesNothing(s: State, c: Codes)
    ensures ReceivesNothing(s, HandleUnsuback(s, c))
  {
    hide LaunchedIn, Callback;
    var i := UnsubscribeIndex(s.unsubscribes, c.packetIdentifier);
    if i < |s.unsubscribes| {
      var rx := s.unsubscribes[i].receiver;
      CallbackExtends(s.(unsubscribes := Remove(s.unsubscribes, i)), rx,
          Unsubscribed(s.unsubscribes[i], c.reasonCodes));
    }
  }

  /** The inputs that concern the receiving side. */
  predicate Receives(e: Input) {
    e.PubackWritten? || (e.Recv? && (e.packet.PublishPacket? || e.packet.PubrelPacket?))
  }

  lemma StepReceivesNothing(s: State, e: Input)
    requires !Receives(e)
    ensures ReceivesNothing(s, Step(s, e))
  {
    hide LaunchedIn, HandlePuback, HandleSuback, HandleUnsuback, HandlePubrec, HandlePubcomp, Start;
    match e
    case App(op) => StartExtends(s, op);
    case Recv(p) =>
      match p
      case PubackPacket(a) => PubackReceivesNothing(s, a);
      case SubackPacket(c) => SubackReceivesNothing(s, c);
      case UnsubackPacket(c) => UnsubackReceivesNothing(s, c);
      case PubrecPacket(a) => PubrecReceivesNothing(s, a);
      case PubcompPacket(a) => PubcompReceivesNothing(s, a);
      case _ =>
  }
}
