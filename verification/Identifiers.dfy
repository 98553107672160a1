/** Packet identifiers (MQTT 5.0 section 2.2.1): which ones are given out, when two outstanding
    operations share one, and what becomes of every operation that was given one. */
module Identifiers {
  import opened Bytes
  import opened Packets
  import Records
  import opened Engine
  import opened Window

  /** The identifier of the k-th operation, counted from 0. */
  function IdOf(k: nat): (id: uint16)
    ensures id != 0
  {
    1 + k % 65535
  }

  lemma NextIdentifier(k: nat)
    ensures NextAfter(IdOf(k)) == IdOf(k + 1)
  {
  }

  /** Any 65535 consecutive identifiers are distinct; two coincide exactly when a multiple of 65535
      lies between them. */
  lemma SameIdentifier(j: nat, k: nat)
    ensures IdOf(j) == IdOf(k) <==> (j - k) % 65535 == 0
  {
  }

  /** The serial and the identifier of everything that waits for an acknowledgement. */
  datatype Slot = Slot(serial: nat, id: uint16)

  function QueueSlots(ps: seq<Pending>): seq<Slot> {
    seq(|ps|, i requires 0 <= i < |ps| => Slot(ps[i].serial, ps[i].message.packetIdentifier))
  }

  function PublishSlots(fs: seq<InFlight>): seq<Slot> {
    seq(|fs|, i requires 0 <= i < |fs| => Slot(fs[i].pending.serial, fs[i].Id()))
  }

  function SubscribeSlots(fs: seq<OpenSubscribe>): seq<Slot> {
    seq(|fs|, i requires 0 <= i < |fs| => Slot(fs[i].serial, fs[i].message.packetIdentifier))
  }

  function UnsubscribeSlots(fs: seq<OpenUnsubscribe>): seq<Slot> {
    seq(|fs|, i requires 0 <= i < |fs| => Slot(fs[i].serial, fs[i].message.packetIdentifier))
  }

  /** All outstanding operations: queued and in-flight publishes, subscribes and unsubscribes. */
  function Outstanding(s: State): multiset<Slot> {
    multiset(QueueSlots(s.queue)) + multiset(PublishSlots(s.published))
    + multiset(SubscribeSlots(s.subscribes)) + multiset(UnsubscribeSlots(s.unsubscribes))
  }

  /** The operation that an event reports as completed. */
  function SlotOf(e: Event): multiset<Slot> {
    match e
    case Completed(p, _) => multiset{Slot(p.serial, p.message.packetIdentifier)}
    case Subscribed(o, _) => multiset{Slot(o.serial, o.message.packetIdentifier)}
    case Unsubscribed(o, _) => multiset{Slot(o.serial, o.message.packetIdentifier)}
    case _ => multiset{}
  }

  /** All operations completed so far, as often as their receivers were called. */
  function Finished(log: seq<Event>): multiset<Slot> {
    if log == [] then multiset{} else Finished(log[..|log| - 1]) + SlotOf(log[|log| - 1])
  }

  function Ever(s: State): multiset<Slot> {
    Outstanding(s) + Finished(s.log)
  }

  /** Every operation that was ever given an identifier is outstanding or completed, once, and has the
      identifier of its own serial. */
  predicate Numbered(s: State) {
    && s.nextId == IdOf(s.issued) && |Ever(s)| == s.issued
    && (forall x :: x in Ever(s) ==> x.serial < s.issued && x.id == IdOf(x.serial) && Ever(s)[x] == 1)
  }

  /** What a step may do to the account: one entry added under the next serial, or nothing. */
  predicate Grew(s: State, t: State) {
    t.nextId == NextAfter(s.nextId) && t.issued == s.issued + 1
    && Ever(t) == Ever(s) + multiset{Slot(s.issued, s.nextId)}
  }

  predicate Kept(s: State, t: State) {
    t.nextId == s.nextId && t.issued == s.issued && Ever(t) == Ever(s)
  }

  lemma FinishedSnoc(log: seq<Event>, e: Event)
    ensures Finished(log + [e]) == Finished(log) + SlotOf(e)
  {
    assert (log + [e])[..|log|] == log;
  }

  lemma GrewKeeps(s: State, t: State)
    requires Numbered(s) && Grew(s, t)
    ensures Numbered(t)
  {
    hide Ever, IdOf, NextAfter;
    NextIdentifier(s.issued);
    var added := Slot(s.issued, s.nextId);
    forall x | x in Ever(t)
      ensures x.serial < t.issued && x.id == IdOf(x.serial) && Ever(t)[x] == 1
    {
      assert added !in Ever(s);
      if x != added {
        assert x in Ever(s);
      }
    }
  }

  lemma KeptKeeps(s: State, t: State)
    requires Numbered(s) && Kept(s, t)
    ensures Numbered(t)
  {
    hide Ever, IdOf;
  }

  lemma LaunchOrQueueSlots(s: State, p: Pending)
    ensures Outstanding(LaunchOrQueue(s, p)) == Outstanding(s) + multiset{Slot(p.serial, p.message.packetIdentifier)}
  {
    var slot := Slot(p.serial, p.message.packetIdentifier);
    var t := LaunchOrQueue(s, p);
    if s.sendQuota > 0 {
      assert PublishSlots(t.published) == PublishSlots(s.published) + [slot];
    } else {
      assert QueueSlots(t.queue) == QueueSlots(s.queue) + [slot];
    }
  }

  lemma LaunchOrQueueCounts(s: State, p: Pending)
    ensures var t := LaunchOrQueue(s, p); t.nextId == s.nextId && t.issued == s.issued && t.log == s.log
  {
  }

  /** An operation is given the next identifier and enters a table. */
  lemma Entered(s: State, t: State)
    requires Numbered(s) && t.nextId == NextAfter(s.nextId) && t.issued == s.issued + 1 && t.log == s.log
    requires Outstanding(t) == Outstanding(s) + multiset{Slot(s.issued, s.nextId)}
    ensures Numbered(t)
  {
    hide Numbered, Outstanding, Finished, NextAfter;
    GrewKeeps(s, t);
  }

  lemma PublishEnters(s: State, m: Publish, rx: Receiver)
    requires Numbered(s) && m.Qos() != 0
    ensures Numbered(Start(s, StartPublish(m, rx)))
  {
    hide Numbered, LaunchOrQueue;
    var p := Pending(m.(packetIdentifier := s.nextId), rx, s.issued);
    LaunchOrQueueSlots(Allocate(s), p);
    LaunchOrQueueCounts(Allocate(s), p);
    Entered(s, Start(s, StartPublish(m, rx)));
  }

  lemma SubscribeEnters(s: State, m: Subscribe, rx: Receiver)
    requires Numbered(s)
    ensures Numbered(Start(s, StartSubscribe(m, rx)))
  {
    hide Numbered;
    var t := Start(s, StartSubscribe(m, rx));
    assert SubscribeSlots(t.subscribes) == SubscribeSlots(s.subscribes) + [Slot(s.issued, s.nextId)];
    Entered(s, t);
  }

  lemma UnsubscribeEnters(s: State, m: Unsubscribe, rx: Receiver)
    requires Numbered(s)
    ensures Numbered(Start(s, StartUnsubscribe(m, rx)))
  {
    hide Numbered;
    var t := Start(s, StartUnsubscribe(m, rx));
    assert UnsubscribeSlots(t.unsubscribes) == UnsubscribeSlots(s.unsubscribes) + [Slot(s.issued, s.nextId)];
    Entered(s, t);
  }

  lemma {:induction false} StartKeepsNumbers(s: State, op: Op)
    requires Numbered(s)
    ensures Numbered(Start(s, op))
    decreases op
  {
    hide Numbered;
    match op
    case StartPublish(m, rx) =>
      if m.Qos() == 0 {
        KeptKeeps(s, Send(s, PublishPacket(m)));
        OtherEvent(Send(s, PublishPacket(m)), Sent(rx.token));
        CallbackKeepsNumbers(Send(s, PublishPacket(m)), rx, Sent(rx.token));
      } else {
        PublishEnters(s, m, rx);
      }
    case StartSubscribe(m, rx) => SubscribeEnters(s, m, rx);
    case StartUnsubscribe(m, rx) => UnsubscribeEnters(s, m, rx);
    case StartWaiting(f, rx) => KeptKeeps(s, Start(s, op));
  }

  lemma {:induction false} RunOpsKeepsNumbers(s: State, ops: seq<Op>)
    requires Numbered(s)
    ensures Numbered(RunOps(s, ops))
    decreases ops
  {
    if ops != [] {
      StartKeepsNumbers(s, ops[0]);
      RunOpsKeepsNumbers(Start(s, ops[0]), ops[1..]);
    }
  }

  /** `s` with the event logged, and then what the receiver starts. */
  lemma {:induction false} CallbackKeepsNumbers(s: State, rx: Receiver, e: Event)
    requires Numbered(s.(log := s.log + [e]))
    ensures Numbered(Callback(s, rx, e))
    decreases rx
  {
    RunOpsKeepsNumbers(s.(log := s.log + [e]), rx.reaction);
  }

  lemma OtherEvent(s: State, e: Event)
    requires Numbered(s) && SlotOf(e) == multiset{}
    ensures Numbered(s.(log := s.log + [e]))
  {
    hide Numbered;
    FinishedSnoc(s.log, e);
    KeptKeeps(s, s.(log := s.log + [e]));
  }

  /** An operation leaves its table, and its completion is logged. */
  lemma Moved(s: State, t: State, e: Event)
    requires Numbered(s) && t.nextId == s.nextId && t.issued == s.issued && t.log == s.log + [e]
    requires Outstanding(t) + SlotOf(e) == Outstanding(s)
    ensures Numbered(t)
  {
    hide Numbered, Outstanding, SlotOf;
    FinishedSnoc(s.log, e);
    KeptKeeps(s, t);
  }

  lemma RemovedSlots(slots: seq<Slot>, i: nat, left: seq<Slot>)
    requires i < |slots| && left == Remove(slots, i)
    ensures multiset(left) + multiset{slots[i]} == multiset(slots)
  {
    RemoveBag(slots, i);
  }

  lemma FinishKeepsNumbers(s: State, i: nat, r: PublishResult)
    requires Numbered(s) && i < |s.published|
    ensures Numbered(Finish(s, i, r))
  {
    hide Numbered, Callback;
    var t, e := s.(published := Remove(s.published, i)), Completed(s.published[i].pending, r);
    RemovedSlots(PublishSlots(s.published), i, PublishSlots(t.published));
    Moved(s, t.(log := t.log + [e]), e);
    CallbackKeepsNumbers(t, s.published[i].pending.receiver, e);
  }

  lemma MaybeSendKeepsNumbers(s: State)
    requires Numbered(s)
    ensures Numbered(MaybeSendQueued(s))
  {
    hide Numbered;
    var t := MaybeSendQueued(s);
    if s.sendQuota < s.maxQuota && s.queue != [] {
      var p := s.queue[0];
      var slot := Slot(p.serial, p.message.packetIdentifier);
      assert QueueSlots(s.queue) == [slot] + QueueSlots(t.queue);
      assert PublishSlots(t.published) == PublishSlots(s.published) + [slot];
    }
    KeptKeeps(s, t);
  }

  lemma {:induction false} CallAllKeepsNumbers(s: State, rxs: seq<Receiver>, m: Publish)
    requires Numbered(s)
    ensures Numbered(CallAll(s, rxs, m))
    decreases rxs
  {
    if rxs != [] {
      OtherEvent(s, Delivered(rxs[0].token, m));
      CallbackKeepsNumbers(s, rxs[0], Delivered(rxs[0].token, m));
      CallAllKeepsNumbers(Callback(s, rxs[0], Delivered(rxs[0].token, m)), rxs[1..], m);
    }
  }

  lemma DeliverKeepsNumbers(s: State, m: Publish)
    requires Numbered(s)
    ensures Numbered(Deliver(s, m))
  {
    var t := s.(waiters := OtherWaiters(s.waiters, m.topic));
    KeptKeeps(s, t);
    CallAllKeepsNumbers(t, MatchingReceivers(s.waiters, m.topic), m);
  }

  lemma PubackKeepsNumbers(s: State, a: Ack)
    requires Numbered(s)
    ensures Numbered(HandlePuback(s, a))
  {
    hide Numbered, Finish, MaybeSendQueued;
    var i := InFlightIndex(s.published, a.packetIdentifier);
    if i == |s.published| {
      MaybeSendKeepsNumbers(s);
    } else if s.published[i].state == WaitingPuback {
      var t := s.(acknowledged := s.acknowledged + [s.published[i].pending.message]);
      KeptKeeps(s, t);
      FinishKeepsNumbers(t, i, Value(a.reasonCode));
      MaybeSendKeepsNumbers(Finish(t, i, Value(a.reasonCode)));
    } else {
      var t := Finish(s, i, Done);
      FinishKeepsNumbers(s, i, Done);
      OtherEvent(t, Closed);
      MaybeSendKeepsNumbers(Close(t));
    }
  }

  lemma PubrecKeepsNumbers(s: State, a: Ack)
    requires Numbered(s)
    ensures Numbered(HandlePubrec(s, a))
  {
    hide Numbered, Finish;
    var i := InFlightIndex(s.published, a.packetIdentifier);
    var t := s.(leaked := s.leaked + 1);
    KeptKeeps(s, t);
    if i == |s.published| {
      KeptKeeps(s, HandlePubrec(s, a));
    } else if a.reasonCode > NO_MATCHING_SUBSCRIBERS {
      FinishKeepsNumbers(t, i, Value(a.reasonCode));
    } else if s.published[i].state == WaitingPuback {
      FinishKeepsNumbers(t, i, Done);
      OtherEvent(Finish(t, i, Done), Closed);
    } else {
      assert PublishSlots(HandlePubrec(s, a).published) == PublishSlots(s.published);
      KeptKeeps(s, HandlePubrec(s, a));
    }
  }

  lemma PubcompKeepsNumbers(s: State, a: Ack)
    requires Numbered(s)
    ensures Numbered(HandlePubcomp(s, a))
  {
    hide Numbered, Finish;
    var i := InFlightIndex(s.published, a.packetIdentifier);
    if i < |s.published| {
      var t := s.(leaked := s.leaked + 1, finished := s.finished + [s.published[i].pending.message]);
      KeptKeeps(s, t);
      FinishKeepsNumbers(t, i, Value(a.reasonCode));
    }
  }

  lemma SubackKeepsNumbers(s: State, c: Codes)
    requires Numbered(s)
    ensures Numbered(HandleSuback(s, c))
  {
    hide Numbered;
    var i := SubscribeIndex(s.subscribes, c.packetIdentifier);
    if i < |s.subscribes| {
      var t, e := s.(subscribes := Remove(s.subscribes, i)), Subscribed(s.subscribes[i], c.reasonCodes);
      RemovedSlots(SubscribeSlots(s.subscribes), i, SubscribeSlots(t.subscribes));
      Moved(s, t.(log := t.log + [e]), e);
      CallbackKeepsNumbers(t, s.subscribes[i].receiver, e);
    }
  }

  lemma UnsubackKeepsNumbers(s: State, c: Codes)
    requires Numbered(s)
    ensures Numbered(HandleUnsuback(s, c))
  {
    hide Numbered;
    var i := UnsubscribeIndex(s.unsubscribes, c.packetIdentifier);
    if i < |s.unsubscribes| {
      var t, e := s.(unsubscribes := Remove(s.unsubscribes, i)), Unsubscribed(s.unsubscribes[i], c.reasonCodes);
      RemovedSlots(UnsubscribeSlots(s.unsubscribes), i, UnsubscribeSlots(t.unsubscribes));
      Moved(s, t.(log := t.log + [e]), e);
      CallbackKeepsNumbers(t, s.unsubscribes[i].receiver, e);
    }
  }

  lemma QuotaKeepsNumbers(s: State, m: Publish)
    requires Numbered(s)
    ensures Numbered(TakeReceiveQuota(s, m))
  {
    hide Numbered;
    var u := Send(s, DisconnectPacket(Disconnect(QUOTA_EXCEEDED, Records.NO_DISCONNECT)));
    KeptKeeps(s, u);
    OtherEvent(u, Closed);
    KeptKeeps(s, s.(receiveQuota := if s.receiveQuota > 0 then s.receiveQuota - 1 else 0));
  }

  lemma PublishKeepsNumbers(s: State, m: Publish)
    requires Numbered(s)
    ensures Numbered(HandlePublish(s, m))
  {
    hide Numbered, Deliver, TakeReceiveQuota, ReceivedIndex;
    var t := TakeReceiveQuota(s, m);
    QuotaKeepsNumbers(s, m);
    if m.Qos() == 1 {
      var u := Send(t, PubackPacket(Reply(m.packetIdentifier, 0))).(direct := t.direct + [m]);
      KeptKeeps(t, u);
      DeliverKeepsNumbers(u, m);
    } else if m.Qos() == 2 {
      KeptKeeps(t, HandlePublish(s, m));
    } else {
      KeptKeeps(t, t.(direct := t.direct + [m]));
      DeliverKeepsNumbers(t.(direct := t.direct + [m]), m);
    }
  }

  lemma PubrelKeepsNumbers(s: State, a: Ack)
    requires Numbered(s)
    ensures Numbered(HandlePubrel(s, a))
  {
    hide Numbered, Deliver;
    var i := ReceivedIndex(s.received, a.packetIdentifier);
    if i == |s.received| {
      KeptKeeps(s, HandlePubrel(s, a));
    } else {
      var t := Send(s.(received := Remove(s.received, i), released := s.released + [s.received[i]]),
                    PubcompPacket(Reply(a.packetIdentifier, 0)));
      KeptKeeps(s, t);
      DeliverKeepsNumbers(t, s.received[i]);
    }
  }

  lemma StepKeepsNumbers(s: State, e: Input)
    requires Numbered(s)
    ensures Numbered(Step(s, e))
  {
    hide Numbered, HandlePuback, HandleSuback, HandleUnsuback, HandlePublish, HandlePubrec, HandlePubrel,
         HandlePubcomp, Start;
    match e
    case App(op) => StartKeepsNumbers(s, op);
    case PubackWritten => KeptKeeps(s, HandlePubackWritten(s));
    case Recv(p) =>
      match p
      case PubackPacket(a) => PubackKeepsNumbers(s, a);
      case SubackPacket(c) => SubackKeepsNumbers(s, c);
      case UnsubackPacket(c) => UnsubackKeepsNumbers(s, c);
      case PublishPacket(m) => PublishKeepsNumbers(s, m);
      case PubrecPacket(a) => PubrecKeepsNumbers(s, a);
      case PubrelPacket(a) => PubrelKeepsNumbers(s, a);
      case PubcompPacket(a) => PubcompKeepsNumbers(s, a);
      case _ =>
  }

  lemma {:induction false} RunKeepsNumbers(s: State, es: seq<Input>)
    requires Numbered(s)
    ensures Numbered(Run(s, es))
    decreases es
  {
    if es != [] {
      StepKeepsNumbers(s, es[0]);
      RunKeepsNumbers(Step(s, es[0]), es[1..]);
    }
  }

  /** Nothing outstanding is older than 65535 identifiers. */
  predicate Recent(s: State) {
    forall x :: x in Outstanding(s) ==> s.issued - x.serial <= 65535
  }

  predicate DistinctIdentifiers(s: State) {
    forall x, y :: x in Outstanding(s) && y in Outstanding(s) && x.id == y.id ==> x == y
  }

  /** In every session, callbacks and stray packets included: the identifiers given out belong to as
      many operations, publishes, subscribes and unsubscribes, each of them outstanding or completed
      and neither lost nor completed twice; and two outstanding operations hold the same identifier
      exactly when their positions in the order of allocation differ by a multiple of 65535, so none
      do while nothing stays outstanding that long. */
  lemma EveryOperationOnce(receiveMaximum: uint16, serverMaximum: uint16, es: seq<Input>)
    ensures var t := Run(Connected(receiveMaximum, serverMaximum), es);
            && |Outstanding(t)| + |Finished(t.log)| == t.issued
            && (forall x :: Outstanding(t)[x] + Finished(t.log)[x] <= 1)
            && (forall x :: x in Outstanding(t) || x in Finished(t.log) ==>
                  x.id == IdOf(x.serial) && x.serial < t.issued)
            && (forall x, y :: x in Outstanding(t) && y in Outstanding(t) ==>
                  (x.id == y.id <==> (x.serial - y.serial) % 65535 == 0))
            && (Recent(t) ==> DistinctIdentifiers(t))
  {
    var s := Connected(receiveMaximum, serverMaximum);
    var t := Run(s, es);
    assert Numbered(s) by {
      assert QueueSlots([]) == [] && PublishSlots([]) == [] && SubscribeSlots([]) == [] && UnsubscribeSlots([]) == [];
    }
    RunKeepsNumbers(s, es);
    NumberedOnce(t);
    NumberedIsDistinct(t);
  }

  lemma NumberedOnce(t: State)
    requires Numbered(t)
    ensures |Outstanding(t)| + |Finished(t.log)| == t.issued
    ensures forall x :: Outstanding(t)[x] + Finished(t.log)[x] <= 1
    ensures forall x :: x in Outstanding(t) || x in Finished(t.log) ==> x.id == IdOf(x.serial) && x.serial < t.issued
  {
    hide Outstanding, Finished, IdOf;
    assert |Ever(t)| == |Outstanding(t)| + |Finished(t.log)|;
    forall x ensures Outstanding(t)[x] + Finished(t.log)[x] <= 1 {
      assert Ever(t)[x] == Outstanding(t)[x] + Finished(t.log)[x];
    }
  }

  lemma NumberedIsDistinct(t: State)
    requires Numbered(t)
    ensures forall x, y :: x in Outstanding(t) && y in Outstanding(t) ==>
              (x.id == y.id <==> (x.serial - y.serial) % 65535 == 0)
    ensures Recent(t) ==> DistinctIdentifiers(t)
  {
    hide Outstanding, Finished, IdOf;
    forall x, y | x in Outstanding(t) && y in Outstanding(t)
      ensures x.id == y.id <==> (x.serial - y.serial) % 65535 == 0
    {
      assert x in Ever(t) && y in Ever(t);
      SameIdentifier(x.serial, y.serial);
    }
  }
}
