/** The send window and the queue behind it, over whole runs and with re-entrant callbacks:
    nothing overtakes, nothing is lost, nothing is completed twice, and the window is conserved
    (MQTT 5.0 sections 4.6 and 4.9). */
module Window {
  import opened Bytes
  import opened Packets
  import Records
  import opened Engine

  // ---------------------------------------------------------------- what is claimed

  /** The queue only holds anything while the window is closed, and then only QoS 1 and 2. */
  predicate Windowed(s: State) {
    && s.sendQuota <= s.maxQuota
    && (s.queue != [] ==> s.sendQuota == 0)
    && (forall i :: 0 <= i < |s.queue| ==> s.queue[i].message.Qos() != 0)
  }

  function Messages(ps: seq<Pending>): (ms: seq<Publish>) {
    seq(|ps|, i requires 0 <= i < |ps| => ps[i].message)
  }

  function Pendings(fs: seq<InFlight>): seq<Pending> {
    seq(|fs|, i requires 0 <= i < |fs| => fs[i].pending)
  }

  /** The QoS 1 and 2 publishes among the packets written, in order. */
  function LaunchedIn(sent: seq<Packet>): seq<Publish> {
    if sent == [] then []
    else
      var p, n := sent[|sent| - 1], |sent| - 1;
      LaunchedIn(sent[..n]) + (if p.PublishPacket? && p.publish.Qos() != 0 then [p.publish] else [])
  }

  /** The publishes completed so far, each as often as its receiver was called. */
  function CompletedIn(log: seq<Event>): multiset<Pending> {
    if log == [] then multiset{}
    else
      var e, n := log[|log| - 1], |log| - 1;
      CompletedIn(log[..n]) + (if e.Completed? then multiset{e.pending} else multiset{})
  }

  /** What was written, followed by what is queued, is what was started, in the order of the starts. */
  predicate Fifo(s: State) {
    LaunchedIn(s.sent) + Messages(s.queue) == Messages(s.started)
  }

  /** Every started publish is in exactly one place. */
  predicate Linear(s: State) {
    multiset(s.started) == multiset(s.queue) + multiset(Pendings(s.published)) + CompletedIn(s.log)
  }

  predicate Orderly(s: State) {
    Windowed(s) && Fifo(s) && Linear(s)
  }

  /** Quota, messages in flight, and messages that left without giving their quota back. */
  function Held(s: State): nat {
    s.sendQuota + |s.published| + s.leaked
  }

  predicate Conserved(s: State) {
    Held(s) == s.maxQuota
  }

  // ---------------------------------------------------------------- sequences

  lemma MessagesSnoc(ps: seq<Pending>, p: Pending)
    ensures Messages(ps + [p]) == Messages(ps) + [p.message]
  {
  }

  lemma LaunchedSnoc(sent: seq<Packet>, p: Packet)
    ensures LaunchedIn(sent + [p]) == LaunchedIn(sent)
            + (if p.PublishPacket? && p.publish.Qos() != 0 then [p.publish] else [])
  {
    assert (sent + [p])[..|sent|] == sent;
  }

  lemma LogSnoc(log: seq<Event>, e: Event)
    ensures CompletedIn(log + [e]) == CompletedIn(log) + (if e.Completed? then multiset{e.pending} else multiset{})
  {
    assert (log + [e])[..|log|] == log;
  }

  lemma RemoveBag<T>(xs: seq<T>, i: nat)
    requires i < |xs|
    ensures multiset(Remove(xs, i)) + multiset{xs[i]} == multiset(xs)
  {
    assert xs == xs[..i] + [xs[i]] + xs[i + 1..];
  }

  lemma PendingsOfRemove(fs: seq<InFlight>, i: nat)
    requires i < |fs|
    ensures multiset(Pendings(Remove(fs, i))) + multiset{fs[i].pending} == multiset(Pendings(fs))
  {
    assert Pendings(Remove(fs, i)) == Remove(Pendings(fs), i);
    RemoveBag(Pendings(fs), i);
  }

  // ---------------------------------------------------------------- starts

  lemma LaunchKeeps(s: State, p: Pending)
    requires s.sendQuota > 0 && s.queue == [] && s.sendQuota <= s.maxQuota
    requires p.message.Qos() != 0
    requires LaunchedIn(s.sent) + [p.message] == Messages(s.started)
    requires multiset(s.started) == multiset(Pendings(s.published)) + multiset{p} + CompletedIn(s.log)
    ensures Orderly(Launch(s, p)) && Held(Launch(s, p)) == Held(s)
  {
    var t := Launch(s, p);
    LaunchedSnoc(s.sent, PublishPacket(p.message));
    assert Pendings(t.published) == Pendings(s.published) + [p];
    assert LaunchedIn(t.sent) + Messages(t.queue) == LaunchedIn(t.sent);
  }

  lemma LaunchOrQueueKeeps(s: State, p: Pending)
    requires Orderly(s) && p.message.Qos() != 0
    ensures var t := LaunchOrQueue(s, p); Orderly(t) && Held(t) == Held(s) && t.maxQuota == s.maxQuota
  {
    var t := s.(started := s.started + [p]);
    MessagesSnoc(s.started, p);
    if s.sendQuota > 0 {
      assert LaunchedIn(s.sent) + Messages(s.queue) == LaunchedIn(s.sent);
      LaunchKeeps(t, p);
    } else {
      MessagesSnoc(s.queue, p);
      Assoc(LaunchedIn(s.sent), Messages(s.queue), [p.message]);
    }
  }

  lemma OtherSend(s: State, p: Packet)
    requires Orderly(s) && !(p.PublishPacket? && p.publish.Qos() != 0)
    ensures Orderly(Send(s, p)) && Held(Send(s, p)) == Held(s)
  {
    LaunchedSnoc(s.sent, p);
    assert LaunchedIn(s.sent) + [] == LaunchedIn(s.sent);
  }

  lemma OtherEvent(s: State, e: Event)
    requires Orderly(s) && !e.Completed?
    ensures Orderly(s.(log := s.log + [e]))
  {
    LogSnoc(s.log, e);
  }

  /** The other fields do not matter. */
  lemma SameOrder(s: State, t: State)
    requires s.sendQuota == t.sendQuota && s.maxQuota == t.maxQuota && s.queue == t.queue && s.published == t.published
    requires s.sent == t.sent && s.log == t.log && s.started == t.started && s.leaked == t.leaked
    ensures Orderly(s) == Orderly(t) && Held(s) == Held(t)
  {
  }

  /** Neither a start nor anything its callbacks start re-entrantly disturbs the window, the order,
      or the account of the receivers. */
  lemma {:induction false} StartKeeps(s: State, op: Op)
    requires Orderly(s)
    ensures var t := Start(s, op); Orderly(t) && Held(t) == Held(s) && t.maxQuota == s.maxQuota
    decreases op
  {
    hide Orderly, Held, LaunchOrQueue, Callback;
    SameOrder(s, Allocate(s));
    match op
    case StartPublish(m, rx) =>
      if m.Qos() == 0 {
        OtherSend(s, PublishPacket(m));
        CallbackKeeps(Send(s, PublishPacket(m)), rx, Sent(rx.token));
      } else {
        var p := Pending(m.(packetIdentifier := s.nextId), rx, s.issued);
        assert p.message.Qos() == m.Qos();
        LaunchOrQueueKeeps(Allocate(s), p);
      }
    case StartSubscribe(m, rx) =>
      OtherSend(Allocate(s), SubscribePacket(m.(packetIdentifier := s.nextId)));
      SameOrder(Send(Allocate(s), SubscribePacket(m.(packetIdentifier := s.nextId))), Start(s, op));
    case StartUnsubscribe(m, rx) =>
      OtherSend(Allocate(s), UnsubscribePacket(m.(packetIdentifier := s.nextId)));
      SameOrder(Send(Allocate(s), UnsubscribePacket(m.(packetIdentifier := s.nextId))), Start(s, op));
    case StartWaiting(f, rx) => SameOrder(s, Start(s, op));
  }

  lemma {:induction false} RunOpsKeeps(s: State, ops: seq<Op>)
    requires Orderly(s)
    ensures var t := RunOps(s, ops); Orderly(t) && Held(t) == Held(s) && t.maxQuota == s.maxQuota
    decreases ops
  {
    if ops != [] {
      StartKeeps(s, ops[0]);
      RunOpsKeeps(Start(s, ops[0]), ops[1..]);
    }
  }

  lemma {:induction false} CallbackKeeps(s: State, rx: Receiver, e: Event)
    requires Orderly(s) && !e.Completed?
    ensures var t := Callback(s, rx, e); Orderly(t) && Held(t) == Held(s) && t.maxQuota == s.maxQuota
    decreases rx
  {
    OtherEvent(s, e);
    RunOpsKeeps(s.(log := s.log + [e]), rx.reaction);
  }

  // ---------------------------------------------------------------- handlers

  lemma FinishKeeps(s: State, i: nat, r: PublishResult)
    requires Orderly(s) && i < |s.published|
    ensures var t := Finish(s, i, r); Orderly(t) && Held(t) == Held(s) - 1 && t.maxQuota == s.maxQuota
  {
    hide LaunchedIn, CompletedIn, Messages, Pendings;
    var p := s.published[i].pending;
    PendingsOfRemove(s.published, i);
    LogSnoc(s.log, Completed(p, r));
    var t := s.(published := Remove(s.published, i));
    RunOpsKeeps(t.(log := t.log + [Completed(p, r)]), p.receiver.reaction);
  }

  lemma DequeueFifo(s: State)
    requires Windowed(s) && Fifo(s) && s.sendQuota < s.maxQuota && s.queue != []
    ensures Fifo(MaybeSendQueued(s))
  {
    var p, rest := s.queue[0], s.queue[1..];
    assert Messages(s.queue) == [p.message] + Messages(rest);
    Assoc(LaunchedIn(s.sent), [p.message], Messages(rest));
    LaunchedSnoc(s.sent, PublishPacket(p.message));
  }

  lemma DequeueLinear(s: State)
    requires Linear(s) && s.sendQuota < s.maxQuota && s.queue != []
    ensures Linear(MaybeSendQueued(s))
  {
    var p, rest := s.queue[0], s.queue[1..];
    assert s.queue == [p] + rest;
    assert Pendings(MaybeSendQueued(s).published) == Pendings(s.published) + [p];
  }

  lemma MaybeSendKeeps(s: State)
    requires Orderly(s)
    ensures var t := MaybeSendQueued(s);
            && Orderly(t) && t.maxQuota == s.maxQuota
            && Held(t) == Held(s) + (if s.sendQuota < s.maxQuota then 1 else 0)
            && (s.sendQuota < s.maxQuota && s.queue != [] ==> t.sendQuota == 0)
  {
    hide LaunchedIn, CompletedIn, Messages, Pendings;
    if s.sendQuota < s.maxQuota && s.queue != [] {
      hide Fifo, Linear;
      DequeueFifo(s);
      DequeueLinear(s);
    }
  }

  lemma CloseKeeps(s: State)
    requires Orderly(s)
    ensures Orderly(Close(s)) && Held(Close(s)) == Held(s) && Close(s).maxQuota == s.maxQuota
  {
    OtherEvent(s, Closed);
  }

  lemma PubackKeeps(s: State, a: Ack)
    requires Orderly(s)
    ensures var t := HandlePuback(s, a); Orderly(t) && t.maxQuota == s.maxQuota
  {
    hide LaunchedIn, CompletedIn, Messages, Pendings, Finish, MaybeSendQueued;
    var i := InFlightIndex(s.published, a.packetIdentifier);
    if i == |s.published| {
      MaybeSendKeeps(s);
    } else if s.published[i].state == WaitingPuback {
      var t := s.(acknowledged := s.acknowledged + [s.published[i].pending.message]);
      FinishKeeps(t, i, Value(a.reasonCode));
      MaybeSendKeeps(Finish(t, i, Value(a.reasonCode)));
    } else {
      FinishKeeps(s, i, Done);
      CloseKeeps(Finish(s, i, Done));
      MaybeSendKeeps(Close(Finish(s, i, Done)));
    }
  }

  lemma PubrecKeeps(s: State, a: Ack)
    requires Orderly(s)
    ensures var t := HandlePubrec(s, a); Orderly(t) && Held(t) == Held(s) && t.maxQuota == s.maxQuota
  {
    hide LaunchedIn, CompletedIn, Messages, Finish;
    var i := InFlightIndex(s.published, a.packetIdentifier);
    var t := s.(leaked := s.leaked + 1);
    if i == |s.published| {
      OtherSend(s, PubrelPacket(Reply(a.packetIdentifier, IDENTIFIER_NOT_FOUND)));
    } else if a.reasonCode > NO_MATCHING_SUBSCRIBERS {
      FinishKeeps(t, i, Value(a.reasonCode));
    } else if s.published[i].state == WaitingPuback {
      FinishKeeps(t, i, Done);
      CloseKeeps(Finish(t, i, Done));
    } else {
      var u := s.(published := s.published[i := s.published[i].(state := WaitingPubcomp)]);
      assert Pendings(u.published) == Pendings(s.published);
      OtherSend(u, PubrelPacket(Reply(a.packetIdentifier, 0)));
    }
  }

  lemma PubcompKeeps(s: State, a: Ack)
    requires Orderly(s)
    ensures var t := HandlePubcomp(s, a); Orderly(t) && Held(t) == Held(s) && t.maxQuota == s.maxQuota
  {
    hide LaunchedIn, CompletedIn, Messages, Pendings, Finish;
    var i := InFlightIndex(s.published, a.packetIdentifier);
    if i < |s.published| {
      var t := s.(leaked := s.leaked + 1, finished := s.finished + [s.published[i].pending.message]);
      FinishKeeps(t, i, Value(a.reasonCode));
    }
  }

  lemma SubackKeeps(s: State, c: Codes)
    requires Orderly(s)
    ensures var t := HandleSuback(s, c); Orderly(t) && Held(t) == Held(s) && t.maxQuota == s.maxQuota
  {
    hide LaunchedIn, CompletedIn, Messages, Pendings, Callback;
    var i := SubscribeIndex(s.subscribes, c.packetIdentifier);
    if i < |s.subscribes| {
      var rx := s.subscribes[i].receiver;
      CallbackKeeps(s.(subscribes := Remove(s.subscribes, i)), rx, Subscribed(s.subscribes[i], c.reasonCodes));
    }
  }

  lemma UnsubackKeeps(s: State, c: Codes)
    requires Orderly(s)
    ensures var t := HandleUnsuback(s, c); Orderly(t) && Held(t) == Held(s) && t.maxQuota == s.maxQuota
  {
    hide LaunchedIn, CompletedIn, Messages, Pendings, Callback;
    var i := UnsubscribeIndex(s.unsubscribes, c.packetIdentifier);
    if i < |s.unsubscribes| {
      var rx := s.unsubscribes[i].receiver;
      CallbackKeeps(s.(unsubscribes := Remove(s.unsubscribes, i)), rx, Unsubscribed(s.unsubscribes[i], c.reasonCodes));
    }
  }

  lemma {:induction false} CallAllKeeps(s: State, rxs: seq<Receiver>, m: Publish)
    requires Orderly(s)
    ensures var t := CallAll(s, rxs, m); Orderly(t) && Held(t) == Held(s) && t.maxQuota == s.maxQuota
    decreases rxs
  {
    if rxs != [] {
      CallbackKeeps(s, rxs[0], Delivered(rxs[0].token, m));
      CallAllKeeps(Callback(s, rxs[0], Delivered(rxs[0].token, m)), rxs[1..], m);
    }
  }

  lemma DeliverKeeps(s: State, m: Publish)
    requires Orderly(s)
    ensures var t := Deliver(s, m); Orderly(t) && Held(t) == Held(s) && t.maxQuota == s.maxQuota
  {
    hide LaunchedIn, CompletedIn, Messages, Pendings, CallAll;
    CallAllKeeps(s.(waiters := OtherWaiters(s.waiters, m.topic)), MatchingReceivers(s.waiters, m.topic), m);
  }

  lemma PublishKeeps(s: State, m: Publish)
    requires Orderly(s)
    ensures var t := HandlePublish(s, m); Orderly(t) && Held(t) == Held(s) && t.maxQuota == s.maxQuota
  {
    hide LaunchedIn, CompletedIn, Messages, Pendings, Deliver, ReceivedIndex;
    var t := TakeReceiveQuota(s, m);
    if m.Qos() != 0 && s.receiveQuota == 0 {
      OtherSend(s, DisconnectPacket(Disconnect(QUOTA_EXCEEDED, Records.NO_DISCONNECT)));
      CloseKeeps(Send(s, DisconnectPacket(Disconnect(QUOTA_EXCEEDED, Records.NO_DISCONNECT))));
    }
    if m.Qos() == 1 {
      var u := Send(t, PubackPacket(Reply(m.packetIdentifier, 0))).(direct := t.direct + [m]);
      OtherSend(t.(direct := t.direct + [m]), PubackPacket(Reply(m.packetIdentifier, 0)));
      DeliverKeeps(u, m);
    } else if m.Qos() == 2 {
      var i := ReceivedIndex(t.received, m.packetIdentifier);
      OtherSend(if i == |t.received| then t.(received := t.received + [m]) else t,
          PubrecPacket(Reply(m.packetIdentifier, 0)));
    } else {
      DeliverKeeps(t.(direct := t.direct + [m]), m);
    }
  }

  lemma PubrelKeeps(s: State, a: Ack)
    requires Orderly(s)
    ensures var t := HandlePubrel(s, a); Orderly(t) && Held(t) == Held(s) && t.maxQuota == s.maxQuota
  {
    hide LaunchedIn, CompletedIn, Messages, Pendings, Deliver, ReceivedIndex;
    var i := ReceivedIndex(s.received, a.packetIdentifier);
    if i == |s.received| {
      OtherSend(s, PubcompPacket(Reply(a.packetIdentifier, IDENTIFIER_NOT_FOUND)));
    } else {
      var t := s.(received := Remove(s.received, i), released := s.released + [s.received[i]]);
      OtherSend(t, PubcompPacket(Reply(a.packetIdentifier, 0)));
      DeliverKeeps(Send(t, PubcompPacket(Reply(a.packetIdentifier, 0))), s.received[i]);
    }
  }

  // ---------------------------------------------------------------- single steps

  /** Any packet, stray acknowledgements included, keeps the order and the account. */
  lemma StepKeepsOrder(s: State, e: Input)
    requires Orderly(s)
    ensures Orderly(Step(s, e)) && Step(s, e).maxQuota == s.maxQuota
  {
    hide Orderly, HandlePuback, HandleSuback, HandleUnsuback, HandlePublish, HandlePubrec, HandlePubrel, HandlePubcomp,
         Start;
    match e
    case App(op) => StartKeeps(s, op);
    case PubackWritten => SameOrder(s, HandlePubackWritten(s));
    case Recv(p) =>
      match p
      case PubackPacket(a) => PubackKeeps(s, a);
      case SubackPacket(c) => SubackKeeps(s, c);
      case UnsubackPacket(c) => UnsubackKeeps(s, c);
      case PublishPacket(m) => PublishKeeps(s, m);
      case PubrecPacket(a) => PubrecKeeps(s, a);
      case PubrelPacket(a) => PubrelKeeps(s, a);
      case PubcompPacket(a) => PubcompKeeps(s, a);
      case _ =>
  }

  /** What a queued publish relies on: the one unit of quota just given back is there to be taken, so
      the starter's unguarded decrement never wraps. */
  lemma DequeueDoesNotWrap(s: State)
    requires Windowed(s) && s.sendQuota < s.maxQuota && s.queue != []
    ensures MaybeSendQueued(s).sendQuota == 0 == s.sendQuota
    ensures |MaybeSendQueued(s).published| == |s.published| + 1
  {
  }

  /** A PUBACK keeps the window conserved exactly when it names a message in flight, or comes while
      the window is fully open. A stray one otherwise lets one message too many through. */
  lemma PubackConserves(s: State, a: Ack)
    requires Orderly(s) && Conserved(s)
    ensures Conserved(HandlePuback(s, a)) <==>
            InFlightIndex(s.published, a.packetIdentifier) < |s.published| || s.sendQuota == s.maxQuota
  {
    hide Orderly, MaybeSendQueued, Finish;
    var i := InFlightIndex(s.published, a.packetIdentifier);
    if i == |s.published| {
      MaybeSendKeeps(s);
    } else if s.published[i].state == WaitingPuback {
      var t := s.(acknowledged := s.acknowledged + [s.published[i].pending.message]);
      SameOrder(s, t);
      FinishKeeps(t, i, Value(a.reasonCode));
      MaybeSendKeeps(Finish(t, i, Value(a.reasonCode)));
    } else {
      FinishKeeps(s, i, Done);
      CloseKeeps(Finish(s, i, Done));
      MaybeSendKeeps(Close(Finish(s, i, Done)));
    }
  }

  /** A session in which that happens: the server allows one message at a time, and after a PUBACK for an
      identifier that was never used two are in flight. */
  lemma StrayPubackOpensWindow(receiveMaximum: uint16, m: Publish, n: Publish, a: Ack)
    requires m.Qos() == 1 && n.Qos() == 1 && a.packetIdentifier != 1
    ensures var s := Start(Connected(receiveMaximum, 1), StartPublish(m, Receiver(0, [])));
            var t := HandlePuback(s, a);
            var u := Start(t, StartPublish(n, Receiver(1, [])));
            && Conserved(s) && !Conserved(t) && s.sendQuota == 0 && t.sendQuota == 1
            && u.maxQuota == 1 && |u.published| == 2 && !Conserved(u)
  {
    var s := Start(Connected(receiveMaximum, 1), StartPublish(m, Receiver(0, [])));
    assert |s.published| == 1 && s.published[0].Id() == 1 && s.queue == [];
    assert InFlightIndex(s.published, a.packetIdentifier) == 1;
  }

  /** An input that is not a PUBACK for an unknown identifier. */
  predicate NoStray(s: State, e: Input) {
    e.Recv? && e.packet.PubackPacket? ==> InFlightIndex(s.published, e.packet.ack.packetIdentifier) < |s.published|
  }

  predicate NoStrays(s: State, es: seq<Input>)
    decreases es
  {
    es == [] || (NoStray(s, es[0]) && NoStrays(Step(s, es[0]), es[1..]))
  }

  lemma StepConserves(s: State, e: Input)
    requires Orderly(s) && Conserved(s) && NoStray(s, e)
    ensures Orderly(Step(s, e)) && Conserved(Step(s, e))
  {
    hide Orderly, Held, HandlePuback, HandleSuback, HandleUnsuback, HandlePublish, HandlePubrec, HandlePubrel,
         HandlePubcomp, Start;
    StepKeepsOrder(s, e);
    match e
    case App(op) => StartKeeps(s, op);
    case PubackWritten => SameOrder(s, HandlePubackWritten(s));
    case Recv(p) =>
      match p
      case PubackPacket(a) => PubackConserves(s, a);
      case SubackPacket(c) => SubackKeeps(s, c);
      case UnsubackPacket(c) => UnsubackKeeps(s, c);
      case PublishPacket(m) => PublishKeeps(s, m);
      case PubrecPacket(a) => PubrecKeeps(s, a);
      case PubrelPacket(a) => PubrelKeeps(s, a);
      case PubcompPacket(a) => PubcompKeeps(s, a);
      case _ =>
  }

  // ---------------------------------------------------------------- runs

  lemma {:induction false} RunKeepsOrder(s: State, es: seq<Input>)
    requires Orderly(s)
    ensures Orderly(Run(s, es)) && Run(s, es).maxQuota == s.maxQuota
    decreases es
  {
    if es != [] {
      StepKeepsOrder(s, es[0]);
      RunKeepsOrder(Step(s, es[0]), es[1..]);
    }
  }

  lemma ConnectedIsOrderly(receiveMaximum: uint16, serverMaximum: uint16)
    ensures var s := Connected(receiveMaximum, serverMaximum);
            Orderly(s) && Conserved(s) && s.maxQuota == serverMaximum
  {
  }

  /** Over every session that starts with its CONNACK, whatever packets arrive and whatever the
      callbacks start: publishes leave in the order they were started, and every one of them is
      queued, in flight, or completed. */
  lemma FirstInFirstOut(receiveMaximum: uint16, serverMaximum: uint16, es: seq<Input>)
    ensures var t := Run(Connected(receiveMaximum, serverMaximum), es);
            && LaunchedIn(t.sent) + Messages(t.queue) == Messages(t.started)
            && multiset(t.started) == multiset(t.queue) + multiset(Pendings(t.published)) + CompletedIn(t.log)
            && (t.queue != [] ==> t.sendQuota == 0)
  {
    ConnectedIsOrderly(receiveMaximum, serverMaximum);
    RunKeepsOrder(Connected(receiveMaximum, serverMaximum), es);
  }

  lemma {:induction false} RunConserves(s: State, es: seq<Input>)
    requires Orderly(s) && Conserved(s) && NoStrays(s, es)
    ensures Orderly(Run(s, es)) && Conserved(Run(s, es)) && Run(s, es).maxQuota == s.maxQuota
    decreases es
  {
    if es != [] {
      StepKeepsOrder(s, es[0]);
      StepConserves(s, es[0]);
      RunConserves(Step(s, es[0]), es[1..]);
    }
  }

  /** In a session without stray PUBACKs the window is conserved: quota, messages in flight and
      messages gone without their quota add up to the server's receive maximum at every moment, so
      never more are in flight than the server allowed. */
  lemma WindowConservation(receiveMaximum: uint16, serverMaximum: uint16, es: seq<Input>)
    requires NoStrays(Connected(receiveMaximum, serverMaximum), es)
    ensures var t := Run(Connected(receiveMaximum, serverMaximum), es);
            t.sendQuota + |t.published| + t.leaked == serverMaximum && |t.published| <= serverMaximum
  {
    ConnectedIsOrderly(receiveMaximum, serverMaximum);
    RunConserves(Connected(receiveMaximum, serverMaximum), es);
  }

  /** The CONNACK overwrites the quota. The window is right afterwards exactly when nothing was in
      flight before, and the queue stays behind a closed window exactly when it was empty or the
      server allows nothing. */
  lemma ConnackWindow(s: State, serverMaximum: uint16)
    requires Orderly(s)
    ensures Conserved(HandleConnack(s, serverMaximum)) <==> s.published == [] && s.leaked == 0
    ensures Orderly(HandleConnack(s, serverMaximum)) <==> s.queue == [] || serverMaximum == 0
  {
  }

  /** Whether a queued publish can still be released by an acknowledgement: only PUBACKs give quota
      back, so the queue is stuck exactly when as many messages as the window holds have left by way
      of PUBREC or PUBCOMP. */
  lemma QueueIsStuck(s: State)
    requires Orderly(s) && Conserved(s) && s.queue != []
    ensures s.published != [] <==> s.leaked < s.maxQuota
  {
  }
}
