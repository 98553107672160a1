/** Whether queued publishes ever leave. With PUBACKs alone they do, in any order of acknowledgement
    and whatever the callbacks start; once as many messages as the window holds have completed by
    PUBCOMP, nothing does, because that handler gives no quota back (MQTT 5.0 section 4.9). */
module Progress {
  import opened Bytes
  import opened Packets
  import opened Engine
  import opened Starts
  import opened Window
  import Records

  // ---------------------------------------------------------------- work left

  /** The QoS 1 and 2 publishes that an operation starts, now or once acknowledged. */
  function Weight(op: Op): nat
    decreases op
  {
    match op
    case StartPublish(m, rx) => (if m.Qos() == 0 then 0 else 1) + Weights(rx.reaction)
    case _ => 0
  }

  function Weights(ops: seq<Op>): nat
    decreases ops
  {
    if ops == [] then 0 else Weight(ops[0]) + Weights(ops[1..])
  }

  function Load(ps: seq<Pending>): nat {
    if ps == [] then 0 else 1 + Weights(ps[0].receiver.reaction) + Load(ps[1..])
  }

  /** Every publish queued or in flight, with all that its receiver will start. */
  function Work(s: State): nat {
    Load(s.queue) + Load(Pendings(s.published))
  }

  lemma {:induction false} LoadConcat(ps: seq<Pending>, qs: seq<Pending>)
    ensures Load(ps + qs) == Load(ps) + Load(qs)
  {
    if ps == [] {
      assert ps + qs == qs;
    } else {
      assert (ps + qs)[1..] == ps[1..] + qs;
      LoadConcat(ps[1..], qs);
    }
  }

  lemma LoadCons(p: Pending, ps: seq<Pending>)
    ensures Load([p] + ps) == 1 + Weights(p.receiver.reaction) + Load(ps)
  {
    assert ([p] + ps)[1..] == ps;
  }

  lemma LoadRemove(ps: seq<Pending>, i: nat)
    requires i < |ps|
    ensures Load(Remove(ps, i)) + 1 + Weights(ps[i].receiver.reaction) == Load(ps)
  {
    hide Load;
    assert ps == ps[..i] + ([ps[i]] + ps[i + 1..]);
    LoadConcat(ps[..i], ps[i + 1..]);
    LoadConcat(ps[..i], [ps[i]] + ps[i + 1..]);
    LoadCons(ps[i], ps[i + 1..]);
  }

  lemma LaunchOrQueueWork(s: State, p: Pending)
    ensures Work(LaunchOrQueue(s, p)) == Work(s) + 1 + Weights(p.receiver.reaction)
  {
    assert Load([p]) == 1 + Weights(p.receiver.reaction);
    var t := LaunchOrQueue(s, p);
    if s.sendQuota > 0 {
      assert Pendings(t.published) == Pendings(s.published) + [p];
      LoadConcat(Pendings(s.published), [p]);
    } else {
      LoadConcat(s.queue, [p]);
    }
  }

  lemma {:induction false} StartWork(s: State, op: Op)
    ensures Work(Start(s, op)) == Work(s) + Weight(op)
    decreases op
  {
    hide LaunchOrQueue, Load;
    match op
    case StartPublish(m, rx) =>
      if m.Qos() == 0 {
        var u := Send(s, PublishPacket(m)).(log := s.log + [Sent(rx.token)]);
        RunOpsWork(u, rx.reaction);
        assert Start(s, op) == RunOps(u, rx.reaction);
      } else {
        LaunchOrQueueWork(Allocate(s), Pending(m.(packetIdentifier := s.nextId), rx, s.issued));
      }
    case _ =>
  }

  lemma {:induction false} RunOpsWork(s: State, ops: seq<Op>)
    ensures Work(RunOps(s, ops)) == Work(s) + Weights(ops)
    decreases ops
  {
    hide Work;
    if ops != [] {
      StartWork(s, ops[0]);
      RunOpsWork(Start(s, ops[0]), ops[1..]);
    }
  }

  lemma FinishWork(s: State, i: nat, r: PublishResult)
    requires i < |s.published|
    ensures Work(Finish(s, i, r)) == Work(s) - 1
  {
    var t, p := s.(published := Remove(s.published, i)), s.published[i].pending;
    assert Pendings(t.published) == Remove(Pendings(s.published), i);
    LoadRemove(Pendings(s.published), i);
    RunOpsWork(t.(log := t.log + [Completed(p, r)]), p.receiver.reaction);
  }

  lemma MaybeSendWork(s: State)
    ensures Work(MaybeSendQueued(s)) == Work(s)
  {
    if s.sendQuota < s.maxQuota && s.queue != [] {
      var p, t := s.queue[0], MaybeSendQueued(s);
      assert Pendings(t.published) == Pendings(s.published) + [p];
      LoadConcat(Pendings(s.published), [p]);
      assert Load([p]) == 1 + Weights(p.receiver.reaction);
    }
  }

  // ---------------------------------------------------------------- PUBACKs

  predicate InFlightAck(s: State, e: Input) {
    e.Recv? && e.packet.PubackPacket? && InFlightIndex(s.published, e.packet.ack.packetIdentifier) < |s.published|
  }

  /** PUBACKs, each for a message in flight at its time, in any order. */
  predicate Acknowledgements(s: State, es: seq<Input>)
    decreases es
  {
    es == [] || (InFlightAck(s, es[0]) && Acknowledgements(Step(s, es[0]), es[1..]))
  }

  lemma AckWork(s: State, e: Input)
    requires InFlightAck(s, e)
    ensures Work(Step(s, e)) == Work(s) - 1 && Step(s, e).leaked == s.leaked
  {
    hide Work, Finish, MaybeSendQueued;
    var a := e.packet.ack;
    var i := InFlightIndex(s.published, a.packetIdentifier);
    var t := s.(acknowledged := s.acknowledged + [s.published[i].pending.message]);
    if s.published[i].state == WaitingPuback {
      SameWork(s, t);
      FinishWork(t, i, Value(a.reasonCode));
      FinishLeaks(t, i, Value(a.reasonCode));
      MaybeSendWork(Finish(t, i, Value(a.reasonCode)));
      MaybeSendLeaks(Finish(t, i, Value(a.reasonCode)));
    } else {
      var u := Finish(s, i, Done);
      FinishWork(s, i, Done);
      FinishLeaks(s, i, Done);
      SameWork(u, Close(u));
      MaybeSendWork(Close(u));
      MaybeSendLeaks(Close(u));
    }
  }

  lemma SameWork(s: State, t: State)
    requires s.queue == t.queue && s.published == t.published
    ensures Work(s) == Work(t)
  {
  }

  lemma FinishLeaks(s: State, i: nat, r: PublishResult)
    requires i < |s.published|
    ensures var t := Finish(s, i, r); t.leaked == s.leaked && t.finished == s.finished
  {
    hide LaunchedIn;
    var p := s.published[i].pending;
    CallbackExtends(s.(published := Remove(s.published, i)), p.receiver, Completed(p, r));
  }

  lemma MaybeSendLeaks(s: State)
    ensures var t := MaybeSendQueued(s); t.leaked == s.leaked && t.finished == s.finished
  {
  }

  lemma NoWork(s: State)
    requires Orderly(s) && Conserved(s) && s.leaked < s.maxQuota
    ensures Work(s) == 0 <==> s.published == []
    ensures s.published == [] ==> s.queue == [] && multiset(s.started) == CompletedIn(s.log)
  {
    if s.published == [] {
      assert Pendings(s.published) == [];
    }
  }

  /** Nothing started is stuck behind the window while some quota can still come back: in whatever
      order the messages in flight are acknowledged, each PUBACK leaves one message less to do, the
      next can always be given, and exactly when all the work is done, nothing is in flight, nothing
      queued, and every publish ever started has been completed. */
  lemma {:induction false} AcknowledgementsDrain(s: State, es: seq<Input>)
    requires Orderly(s) && Conserved(s) && s.leaked < s.maxQuota && Acknowledgements(s, es)
    ensures var t := Run(s, es);
            && Work(t) == Work(s) - |es|
            && (|es| == Work(s) <==> t.published == [])
            && (t.published == [] ==> t.queue == [] && multiset(t.started) == CompletedIn(t.log))
    decreases es
  {
    hide Orderly, Conserved, Work, Step;
    if es == [] {
      NoWork(s);
    } else {
      AckWork(s, es[0]);
      StepKeepsOrder(s, es[0]);
      StepConserves(s, es[0]);
      AcknowledgementsDrain(Step(s, es[0]), es[1..]);
    }
  }

  // ---------------------------------------------------------------- a closed window

  /** Nothing leaves: what is launched is in flight, what was queued stays queued. */
  predicate Stalled(s: State, t: State) {
    && t.leaked == s.leaked && t.maxQuota == s.maxQuota
    && s.queue <= t.queue && s.published <= t.published
    && LaunchedIn(t.sent) == LaunchedIn(s.sent) + Messages(Pendings(t.published[|s.published|..]))
    && CompletedIn(t.log) == CompletedIn(s.log)
  }

  lemma {:induction false} CompletedUnchanged(s: seq<Event>, t: seq<Event>)
    requires s <= t && forall i :: |s| <= i < |t| ==> !t[i].Completed?
    ensures CompletedIn(t) == CompletedIn(s)
    decreases |t|
  {
    if |s| < |t| {
      CompletedUnchanged(s, t[..|t| - 1]);
    } else {
      assert s == t;
    }
  }

  /** First something that launches and completes nothing, then starts. */
  lemma ThenExtends(s: State, u: State, t: State)
    requires u.leaked == s.leaked && u.maxQuota == s.maxQuota && u.queue == s.queue && u.published == s.published
    requires LaunchedIn(u.sent) == LaunchedIn(s.sent) && CompletedIn(u.log) == CompletedIn(s.log)
    requires Extends(u, t)
    ensures Stalled(s, t)
  {
    hide LaunchedIn, CompletedIn;
    CompletedUnchanged(u.log, t.log);
  }

  lemma ThenNothing(s: State, t: State)
    requires t.leaked == s.leaked && t.maxQuota == s.maxQuota && t.queue == s.queue && t.published == s.published
    requires LaunchedIn(t.sent) == LaunchedIn(s.sent) && CompletedIn(t.log) == CompletedIn(s.log)
    ensures Stalled(s, t)
  {
    hide LaunchedIn, CompletedIn;
    assert t.published[|s.published|..] == [];
    assert Messages(Pendings([])) == [];
  }

  lemma CallbackStalls(s: State, u: State, rx: Receiver, e: Event)
    requires u.leaked == s.leaked && u.maxQuota == s.maxQuota && u.queue == s.queue && u.published == s.published
    requires u.sent == s.sent && u.log == s.log && !e.Completed?
    ensures Stalled(s, Callback(u, rx, e))
  {
    hide LaunchedIn, CompletedIn, Callback, Extends;
    LogSnoc(s.log, e);
    CallbackExtends(u, rx, e);
    ThenExtends(s, u.(log := u.log + [e]), Callback(u, rx, e));
  }

  lemma PublishStalls(s: State, m: Publish)
    ensures Stalled(s, HandlePublish(s, m))
  {
    hide LaunchedIn, CompletedIn, Deliver, Extends, ReceivedIndex;
    var t := TakeReceiveQuota(s, m);
    LaunchedSnoc(s.sent, DisconnectPacket(Disconnect(QUOTA_EXCEEDED, Records.NO_DISCONNECT)));
    LogSnoc(s.log, Closed);
    LaunchedSnoc(t.sent, PubackPacket(Reply(m.packetIdentifier, 0)));
    LaunchedSnoc(t.sent, PubrecPacket(Reply(m.packetIdentifier, 0)));
    if m.Qos() == 2 {
      ThenNothing(s, HandlePublish(s, m));
    } else {
      var w := if m.Qos() == 1 then Send(t, PubackPacket(Reply(m.packetIdentifier, 0))) else t;
      var u := w.(direct := t.direct + [m]);
      DeliverExtends(u, m);
      ThenExtends(s, u, Deliver(u, m));
    }
  }

  lemma PubrelStalls(s: State, a: Ack)
    ensures Stalled(s, HandlePubrel(s, a))
  {
    hide LaunchedIn, CompletedIn, Deliver, Extends, ReceivedIndex;
    var i := ReceivedIndex(s.received, a.packetIdentifier);
    var reply := PubcompPacket(Reply(a.packetIdentifier, if i == |s.received| then IDENTIFIER_NOT_FOUND else 0));
    LaunchedSnoc(s.sent, reply);
    if i == |s.received| {
      ThenNothing(s, HandlePubrel(s, a));
    } else {
      var u := Send(s.(received := Remove(s.received, i), released := s.released + [s.received[i]]), reply);
      DeliverExtends(u, s.received[i]);
      ThenExtends(s, u, Deliver(u, s.received[i]));
    }
  }

  lemma OtherStalls(s: State, p: Packet)
    requires !p.PubackPacket? && !p.PublishPacket? && !p.PubrelPacket?
    requires p.PubrecPacket? || p.PubcompPacket? ==> s.published == []
    ensures Stalled(s, Step(s, Recv(p)))
  {
    hide LaunchedIn, CompletedIn, Callback, Stalled, Finish;
    if p.PubrecPacket? {
      LaunchedSnoc(s.sent, PubrelPacket(Reply(p.ack.packetIdentifier, IDENTIFIER_NOT_FOUND)));
      ThenNothing(s, Step(s, Recv(p)));
    } else if p.SubackPacket? && SubscribeIndex(s.subscribes, p.codes.packetIdentifier) < |s.subscribes| {
      var i := SubscribeIndex(s.subscribes, p.codes.packetIdentifier);
      var rx := s.subscribes[i].receiver;
      CallbackStalls(s, s.(subscribes := Remove(s.subscribes, i)), rx,
          Subscribed(s.subscribes[i], p.codes.reasonCodes));
    } else if p.UnsubackPacket? && UnsubscribeIndex(s.unsubscribes, p.codes.packetIdentifier) < |s.unsubscribes| {
      var i := UnsubscribeIndex(s.unsubscribes, p.codes.packetIdentifier);
      var rx := s.unsubscribes[i].receiver;
      CallbackStalls(s, s.(unsubscribes := Remove(s.unsubscribes, i)), rx,
          Unsubscribed(s.unsubscribes[i], p.codes.reasonCodes));
    } else {
      ThenNothing(s, Step(s, Recv(p)));
    }
  }

  lemma StepStalls(s: State, e: Input)
    requires s.published == [] && !(e.Recv? && e.packet.PubackPacket?)
    ensures Stalled(s, Step(s, e))
  {
    hide LaunchedIn, CompletedIn, Stalled, Start, HandlePublish, HandlePubrel;
    match e
    case App(op) =>
      StartExtends(s, op);
      ThenExtends(s, s, Start(s, op));
    case PubackWritten => ThenNothing(s, Step(s, e));
    case Recv(p) =>
      if p.PublishPacket? {
        PublishStalls(s, p.publish);
      } else if p.PubrelPacket? {
        PubrelStalls(s, p.ack);
      } else {
        OtherStalls(s, p);
      }
  }

  /** Once as many messages as the window holds have left without giving their quota back, no QoS 1
      or 2 publish is ever written or completed again, and whatever is queued stays queued. */
  lemma {:induction false} StuckForever(s: State, es: seq<Input>)
    requires Orderly(s) && Conserved(s) && NoStrays(s, es) && s.leaked == s.maxQuota
    ensures var t := Run(s, es);
            && t.published == [] && s.queue <= t.queue
            && LaunchedIn(t.sent) == LaunchedIn(s.sent) && CompletedIn(t.log) == CompletedIn(s.log)
    decreases es
  {
    hide LaunchedIn, CompletedIn, Step, Orderly;
    if es != [] {
      var t := Step(s, es[0]);
      StepStalls(s, es[0]);
      StepKeepsOrder(s, es[0]);
      StepConserves(s, es[0]);
      assert t.published == [];
      assert Messages(Pendings(t.published[|s.published|..])) == [];
      StuckForever(t, es[1..]);
    }
  }

  /** Messages that finish by a PUBCOMP are among those that leave without their quota. */
  lemma StepLeaks(s: State, e: Input)
    ensures var t := Step(s, e); t.leaked - |t.finished| >= s.leaked - |s.finished|
  {
    hide LaunchedIn, Start, Deliver, Callback, Finish, ReceivedIndex;
    match e
    case App(op) => StartExtends(s, op);
    case PubackWritten =>
    case Recv(p) =>
      match p
      case PublishPacket(m) =>
        var t := TakeReceiveQuota(s, m);
        DeliverExtends(Send(t, PubackPacket(Reply(m.packetIdentifier, 0))).(direct := t.direct + [m]), m);
        DeliverExtends(t.(direct := t.direct + [m]), m);
      case PubrelPacket(a) =>
        var i := ReceivedIndex(s.received, a.packetIdentifier);
        if i < |s.received| {
          DeliverExtends(Send(s.(received := Remove(s.received, i), released := s.released + [s.received[i]]),
                              PubcompPacket(Reply(a.packetIdentifier, 0))), s.received[i]);
        }
      case _ => OtherLeaks(s, p);
  }

  lemma OtherLeaks(s: State, p: Packet)
    requires !p.PublishPacket? && !p.PubrelPacket?
    ensures var t := Step(s, Recv(p)); t.leaked - |t.finished| >= s.leaked - |s.finished|
  {
    hide LaunchedIn, Callback, Finish, MaybeSendQueued;
    if p.SubackPacket? && SubscribeIndex(s.subscribes, p.codes.packetIdentifier) < |s.subscribes| {
      var i := SubscribeIndex(s.subscribes, p.codes.packetIdentifier);
      var rx := s.subscribes[i].receiver;
      CallbackExtends(s.(subscribes := Remove(s.subscribes, i)), rx, Subscribed(s.subscribes[i], p.codes.reasonCodes));
    } else if p.UnsubackPacket? && UnsubscribeIndex(s.unsubscribes, p.codes.packetIdentifier) < |s.unsubscribes| {
      var i := UnsubscribeIndex(s.unsubscribes, p.codes.packetIdentifier);
      var rx := s.unsubscribes[i].receiver;
      CallbackExtends(s.(unsubscribes := Remove(s.unsubscribes, i)), rx,
          Unsubscribed(s.unsubscribes[i], p.codes.reasonCodes));
    } else if p.PubackPacket? || p.PubrecPacket? || p.PubcompPacket? {
      AckLeaks(s, p);
    }
  }

  lemma AckLeaks(s: State, p: Packet)
    requires p.PubackPacket? || p.PubrecPacket? || p.PubcompPacket?
    ensures var t := Step(s, Recv(p)); t.leaked - |t.finished| >= s.leaked - |s.finished|
  {
    hide Finish, MaybeSendQueued;
    var i, code := InFlightIndex(s.published, p.ack.packetIdentifier), p.ack.reasonCode;
    var l := s.(leaked := s.leaked + 1);
    if i == |s.published| {
      MaybeSendLeaks(s);
    } else {
      var m := s.published[i].pending.message;
      var t := s.(acknowledged := s.acknowledged + [m]);
      FinishLeaks(t, i, Value(code));
      MaybeSendLeaks(Finish(t, i, Value(code)));
      FinishLeaks(s, i, Done);
      MaybeSendLeaks(Close(Finish(s, i, Done)));
      FinishLeaks(l, i, Value(code));
      FinishLeaks(l, i, Done);
      FinishLeaks(l.(finished := l.finished + [m]), i, Value(code));
    }
  }

  lemma {:induction false} RunLeaks(s: State, es: seq<Input>)
    ensures var t := Run(s, es); t.leaked - |t.finished| >= s.leaked - |s.finished|
    decreases es
  {
    hide Step;
    if es != [] {
      StepLeaks(s, es[0]);
      RunLeaks(Step(s, es[0]), es[1..]);
    }
  }

  /** In a session where as many QoS 2 publishes have completed as the server's receive maximum, no
      QoS 1 or 2 publish is ever written or completed from then on. */
  lemma Qos2ExhaustsTheWindow(receiveMaximum: uint16, serverMaximum: uint16, es: seq<Input>, later: seq<Input>)
    requires NoStrays(Connected(receiveMaximum, serverMaximum), es)
    requires var s := Run(Connected(receiveMaximum, serverMaximum), es);
             |s.finished| >= serverMaximum && NoStrays(s, later)
    ensures var s := Run(Connected(receiveMaximum, serverMaximum), es);
            var t := Run(s, later);
            && t.published == [] && s.queue <= t.queue
            && LaunchedIn(t.sent) == LaunchedIn(s.sent) && CompletedIn(t.log) == CompletedIn(s.log)
  {
    hide Orderly, Run, NoStrays, LaunchedIn, CompletedIn;
    var s := Run(Connected(receiveMaximum, serverMaximum), es);
    RunLeaks(Connected(receiveMaximum, serverMaximum), es);
    ConnectedIsOrderly(receiveMaximum, serverMaximum);
    RunConserves(Connected(receiveMaximum, serverMaximum), es);
    StuckForever(s, later);
  }

  lemma RunCons(s: State, e: Input, es: seq<Input>)
    ensures Run(s, [e] + es) == Run(Step(s, e), es)
    ensures NoStrays(s, [e] + es) == (NoStray(s, e) && NoStrays(Step(s, e), es))
  {
    assert ([e] + es)[1..] == es;
  }

  lemma RunOfFour(s: State, e0: Input, e1: Input, e2: Input, e3: Input)
    ensures var t := Step(Step(s, e0), e1); Run(s, [e0, e1, e2, e3]) == Step(Step(t, e2), e3)
    ensures var t := Step(Step(s, e0), e1);
            NoStrays(s, [e0, e1, e2, e3]) ==
              (NoStray(s, e0) && NoStray(Step(s, e0), e1) && NoStray(t, e2) && NoStray(Step(t, e2), e3))
  {
    hide Step, NoStray, Run, NoStrays;
    var t := Step(Step(s, e0), e1);
    assert [e0] + ([e1] + ([e2] + ([e3] + []))) == [e0, e1, e2, e3];
    RunCons(s, e0, [e1] + ([e2] + ([e3] + [])));
    RunCons(Step(s, e0), e1, [e2] + ([e3] + []));
    RunCons(t, e2, [e3] + []);
    RunCons(Step(t, e2), e3, []);
    RunOfNone(Step(Step(t, e2), e3));
  }

  lemma RunOfNone(s: State)
    ensures Run(s, []) == s && NoStrays(s, [])
  {
  }

  lemma TwoStarts(receiveMaximum: uint16, m: Publish, n: Publish)
    requires m.Qos() == 2 && n.Qos() == 2
    ensures var s := Connected(receiveMaximum, 1);
            var t := Start(Start(s, StartPublish(m, Receiver(0, []))), StartPublish(n, Receiver(1, [])));
            && t.published == [InFlight(Pending(m.(packetIdentifier := 1), Receiver(0, []), 0), WaitingPubrec)]
            && t.queue == [Pending(n.(packetIdentifier := 2), Receiver(1, []), 1)]
            && t.finished == [] && t.sendQuota == 0
            && t.sent == [PublishPacket(m.(packetIdentifier := 1))]
  {
  }

  lemma OneLaunched(m: Publish)
    requires m.Qos() != 0
    ensures LaunchedIn([PublishPacket(m)]) == [m]
  {
    LaunchedSnoc([], PublishPacket(m));
    assert [] + [PublishPacket(m)] == [PublishPacket(m)] && [] + [m] == [m];
  }

  lemma OneExchange(s: State, p: Pending)
    requires s.published == [InFlight(p, WaitingPubrec)] && p.receiver.reaction == []
    ensures var a := Reply(p.message.packetIdentifier, 0);
            var t := HandlePubcomp(HandlePubrec(s, a), a);
            && t.published == [] && t.queue == s.queue && t.finished == s.finished + [p.message]
            && t.sendQuota == s.sendQuota
            && LaunchedIn(t.sent) == LaunchedIn(s.sent)
  {
    var a := Reply(p.message.packetIdentifier, 0);
    assert s.published[0].Id() == a.packetIdentifier;
    var u := HandlePubrec(s, a);
    assert u.published == [InFlight(p, WaitingPubcomp)];
    assert u.published[0].Id() == a.packetIdentifier;
    LaunchedSnoc(s.sent, PubrelPacket(a));
    assert Remove(u.published, 0) == [];
    var t := u.(leaked := u.leaked + 1, finished := u.finished + [p.message]);
    assert HandlePubcomp(u, a) == Finish(t, 0, Value(0));
    var v := t.(published := [], log := t.log + [Completed(p, Value(0))]);
    assert Finish(t, 0, Value(0)) == RunOps(v, p.receiver.reaction);
  }

  lemma OneOfTwo(receiveMaximum: uint16, m: Publish, n: Publish)
    requires m.Qos() == 2 && n.Qos() == 2
    ensures var es := [App(StartPublish(m, Receiver(0, []))), App(StartPublish(n, Receiver(1, []))),
                       Recv(PubrecPacket(Reply(1, 0))), Recv(PubcompPacket(Reply(1, 0)))];
            var s := Connected(receiveMaximum, 1);
            var t := Run(s, es);
            && NoStrays(s, es)
            && t.finished == [m.(packetIdentifier := 1)] == LaunchedIn(t.sent)
            && t.queue == [Pending(n.(packetIdentifier := 2), Receiver(1, []), 1)]
            && t.published == [] && t.sendQuota == 0
  {
    hide Start, HandlePubrec, HandlePubcomp, NoStrays, Run, Connected, LaunchedIn;
    OneLaunched(m.(packetIdentifier := 1));
    var s := Connected(receiveMaximum, 1);
    var e0, e1 := App(StartPublish(m, Receiver(0, []))), App(StartPublish(n, Receiver(1, [])));
    RunOfFour(s, e0, e1, Recv(PubrecPacket(Reply(1, 0))), Recv(PubcompPacket(Reply(1, 0))));
    TwoStarts(receiveMaximum, m, n);
    OneExchange(Step(Step(s, e0), e1), Pending(m.(packetIdentifier := 1), Receiver(0, []), 0));
  }

  /** The shortest such session: a window of one, two QoS 2 publishes, and a server that does all that
      the standard asks. Whatever follows, stray PUBACKs apart, the second publish stays at the head of
      the queue, and the first is the only one ever written. */
  lemma SecondPublishIsNeverWritten(receiveMaximum: uint16, m: Publish, n: Publish, later: seq<Input>)
    requires m.Qos() == 2 && n.Qos() == 2
    requires var es := [App(StartPublish(m, Receiver(0, []))), App(StartPublish(n, Receiver(1, []))),
                        Recv(PubrecPacket(Reply(1, 0))), Recv(PubcompPacket(Reply(1, 0)))];
             NoStrays(Run(Connected(receiveMaximum, 1), es), later)
    ensures var es := [App(StartPublish(m, Receiver(0, []))), App(StartPublish(n, Receiver(1, []))),
                       Recv(PubrecPacket(Reply(1, 0))), Recv(PubcompPacket(Reply(1, 0)))];
            var u := Run(Run(Connected(receiveMaximum, 1), es), later);
            && LaunchedIn(u.sent) == [m.(packetIdentifier := 1)]
            && u.queue != [] && u.queue[0] == Pending(n.(packetIdentifier := 2), Receiver(1, []), 1)
  {
    hide NoStrays, Run, Connected, Orderly, LaunchedIn, CompletedIn;
    var es := [App(StartPublish(m, Receiver(0, []))), App(StartPublish(n, Receiver(1, []))),
               Recv(PubrecPacket(Reply(1, 0))), Recv(PubcompPacket(Reply(1, 0)))];
    var s := Connected(receiveMaximum, 1);
    var t := Run(s, es);
    OneOfTwo(receiveMaximum, m, n);
    ConnectedIsOrderly(receiveMaximum, 1);
    RunConserves(s, es);
    StuckForever(t, later);
  }
}
