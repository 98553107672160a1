/** Delivery to the receivers that wait on topic filters, while those receivers may register others:
    one entry per filter, every matching receiver called once and in order, nobody lost. */
module Waiters {
  import opened Bytes
  import opened Packets
  import opened Primitives
  import opened Engine
  import TopicFilter

  predicate UniqueFilters(ws: seq<Waiter>) {
    forall i, j :: 0 <= i < j < |ws| ==> ws[i].filter != ws[j].filter
  }

  /** The old entries are all there, in their places; new receivers and new entries come after. */
  predicate Kept(ws: seq<Waiter>, vs: seq<Waiter>) {
    && |ws| <= |vs|
    && (forall i :: 0 <= i < |ws| ==> ws[i].filter == vs[i].filter && ws[i].receivers <= vs[i].receivers)
  }

  function Waiting(ws: seq<Waiter>): seq<Receiver> {
    if ws == [] then [] else ws[0].receivers + Waiting(ws[1..])
  }

  function DeliveredIn(log: seq<Event>): seq<Event> {
    if log == [] then []
    else DeliveredIn(log[..|log| - 1]) + (if log[|log| - 1].Delivered? then [log[|log| - 1]] else [])
  }

  function Deliveries(rxs: seq<Receiver>, m: Publish): seq<Event> {
    seq(|rxs|, i requires 0 <= i < |rxs| => Delivered(rxs[i].token, m))
  }

  /** The receivers that an operation registers at once, its callbacks included. */
  function RegisteredBy(op: Op): multiset<Receiver>
    decreases op
  {
    match op
    case StartWaiting(f, rx) => multiset{rx}
    case StartPublish(m, rx) => if m.Qos() == 0 then RegisteredByAll(rx.reaction) else multiset{}
    case _ => multiset{}
  }

  function RegisteredByAll(ops: seq<Op>): multiset<Receiver>
    decreases ops
  {
    if ops == [] then multiset{} else RegisteredBy(ops[0]) + RegisteredByAll(ops[1..])
  }

  function RegisteredByCalls(rxs: seq<Receiver>): multiset<Receiver> {
    if rxs == [] then multiset{} else RegisteredByAll(rxs[0].reaction) + RegisteredByCalls(rxs[1..])
  }

  // ---------------------------------------------------------------- one table

  lemma WaitingCons(w: Waiter, ws: seq<Waiter>)
    ensures Waiting([w] + ws) == w.receivers + Waiting(ws)
    ensures ws == [] ==> Waiting([w] + ws) == w.receivers
  {
    assert ([w] + ws)[1..] == ws;
    assert ws == [] ==> w.receivers + Waiting(ws) == w.receivers;
  }

  lemma {:induction false} AddWaiterHolds(ws: seq<Waiter>, f: Filter, rx: Receiver)
    ensures multiset(Waiting(AddWaiter(ws, f, rx))) == multiset(Waiting(ws)) + multiset{rx}
  {
    hide Waiting, WaiterIndex;
    var i := WaiterIndex(ws, f);
    if i == |ws| {
      WaitingConcat(ws, [Waiter(f, [rx])]);
      WaitingCons(Waiter(f, [rx]), []);
      assert [Waiter(f, [rx])] + [] == [Waiter(f, [rx])];
    } else {
      var w, v := ws[i], ws[i].(receivers := ws[i].receivers + [rx]);
      assert ws == ws[..i] + ([w] + ws[i + 1..]);
      assert ws[i := v] == ws[..i] + ([v] + ws[i + 1..]);
      WaitingConcat(ws[..i], [w] + ws[i + 1..]);
      WaitingConcat(ws[..i], [v] + ws[i + 1..]);
      WaitingCons(w, ws[i + 1..]);
      WaitingCons(v, ws[i + 1..]);
    }
  }

  lemma {:induction false} WaitingConcat(ws: seq<Waiter>, vs: seq<Waiter>)
    ensures Waiting(ws + vs) == Waiting(ws) + Waiting(vs)
  {
    if ws == [] {
      assert ws + vs == vs;
    } else {
      assert (ws + vs)[1..] == ws[1..] + vs;
      WaitingConcat(ws[1..], vs);
    }
  }

  lemma {:induction false} MatchingFrom(ws: seq<Waiter>, topic: text, rx: Receiver)
    ensures rx in MatchingReceivers(ws, topic) <==>
              exists w :: w in ws && TopicFilter.Matches(w.filter, topic) && rx in w.receivers
  {
    hide TopicFilter.Matches;
    if ws != [] {
      MatchingFrom(ws[1..], topic, rx);
      assert ws == [ws[0]] + ws[1..];
      assert ws[0] in ws;
    }
  }

  lemma {:induction false} OthersFrom(ws: seq<Waiter>, topic: text)
    ensures forall w :: w in OtherWaiters(ws, topic) <==> w in ws && !TopicFilter.Matches(w.filter, topic)
  {
    hide TopicFilter.Matches;
    if ws != [] {
      OthersFrom(ws[1..], topic);
      assert ws == [ws[0]] + ws[1..];
    }
  }

  /** Taking the matching entries out loses no receiver. */
  lemma {:induction false} TakenOut(ws: seq<Waiter>, topic: text)
    ensures multiset(MatchingReceivers(ws, topic)) + multiset(Waiting(OtherWaiters(ws, topic))) == multiset(Waiting(ws))
  {
    hide TopicFilter.Matches, Waiting;
    if ws == [] {
      assert Waiting([]) == [] by { NobodyWaits(); }
    } else {
      var w, rest := ws[0], OtherWaiters(ws[1..], topic);
      TakenOut(ws[1..], topic);
      assert ws == [w] + ws[1..];
      WaitingCons(w, ws[1..]);
      WaitingCons(w, rest);
      assert [] + rest == rest;
    }
  }

  lemma NobodyWaits()
    ensures Waiting([]) == []
  {
  }

  lemma {:induction false} OthersAreUnique(ws: seq<Waiter>, topic: text)
    requires UniqueFilters(ws)
    ensures UniqueFilters(OtherWaiters(ws, topic))
  {
    hide TopicFilter.Matches;
    if ws != [] {
      OthersAreUnique(ws[1..], topic);
      var rest := OtherWaiters(ws[1..], topic);
      OthersFrom(ws[1..], topic);
      forall i | 0 <= i < |rest| ensures rest[i].filter != ws[0].filter {
        assert rest[i] in ws[1..];
      }
    }
  }

  // ---------------------------------------------------------------- starts and callbacks

  /** What operations do to the waiters: entries stay, exactly `added` is registered, and nobody is
      called. */
  predicate Registers(s: State, t: State, added: multiset<Receiver>) {
    && Kept(s.waiters, t.waiters)
    && (UniqueFilters(s.waiters) ==> UniqueFilters(t.waiters))
    && multiset(Waiting(t.waiters)) == multiset(Waiting(s.waiters)) + added
    && DeliveredIn(t.log) == DeliveredIn(s.log)
  }

  lemma DeliveredSnoc(log: seq<Event>, e: Event)
    ensures DeliveredIn(log + [e]) == DeliveredIn(log) + (if e.Delivered? then [e] else [])
  {
    assert (log + [e])[..|log|] == log;
  }

  lemma RegistersTrans(s: State, t: State, u: State, a: multiset<Receiver>, b: multiset<Receiver>)
    requires Registers(s, t, a) && Registers(t, u, b)
    ensures Registers(s, u, a + b)
  {
    forall i | 0 <= i < |s.waiters| ensures s.waiters[i].receivers <= u.waiters[i].receivers {
      assert s.waiters[i].receivers <= t.waiters[i].receivers;
    }
  }

  lemma RegistersNothing(s: State)
    ensures Registers(s, s, multiset{})
  {
  }

  lemma {:induction false} StartRegisters(s: State, op: Op)
    ensures Registers(s, Start(s, op), RegisteredBy(op))
    decreases op
  {
    hide Waiting, DeliveredIn, WaiterIndex;
    match op
    case StartPublish(m, rx) =>
      if m.Qos() == 0 {
        var u := Send(s, PublishPacket(m)).(log := s.log + [Sent(rx.token)]);
        DeliveredSnoc(s.log, Sent(rx.token));
        RunOpsRegisters(u, rx.reaction);
        assert Start(s, op) == RunOps(u, rx.reaction);
      }
    case StartSubscribe(m, rx) =>
    case StartUnsubscribe(m, rx) =>
    case StartWaiting(f, rx) => AddWaiterHolds(s.waiters, f, rx);
  }

  lemma {:induction false} RunOpsRegisters(s: State, ops: seq<Op>)
    ensures Registers(s, RunOps(s, ops), RegisteredByAll(ops))
    decreases ops
  {
    hide Registers;
    if ops == [] {
      RegistersNothing(s);
    } else {
      StartRegisters(s, ops[0]);
      RunOpsRegisters(Start(s, ops[0]), ops[1..]);
      RegistersTrans(s, Start(s, ops[0]), RunOps(s, ops), RegisteredBy(ops[0]), RegisteredByAll(ops[1..]));
    }
  }

  lemma {:induction false} CallAllRegisters(s: State, rxs: seq<Receiver>, m: Publish)
    ensures var t := CallAll(s, rxs, m);
            && Registers(s.(log := t.log), t, RegisteredByCalls(rxs))
            && DeliveredIn(t.log) == DeliveredIn(s.log) + Deliveries(rxs, m)
    decreases rxs
  {
    hide Waiting, DeliveredIn, UniqueFilters;
    if rxs != [] {
      var e := Delivered(rxs[0].token, m);
      var u, t := Callback(s, rxs[0], e), CallAll(s, rxs, m);
      DeliveredSnoc(s.log, e);
      RunOpsRegisters(s.(log := s.log + [e]), rxs[0].reaction);
      CallAllRegisters(u, rxs[1..], m);
      RegistersTrans(s.(log := t.log), u.(log := t.log), t, RegisteredByAll(rxs[0].reaction),
          RegisteredByCalls(rxs[1..]));
      assert Deliveries(rxs, m) == [e] + Deliveries(rxs[1..], m);
      Assoc(DeliveredIn(s.log), [e], Deliveries(rxs[1..], m));
    }
  }

  // ---------------------------------------------------------------- one delivery

  /** A message calls every receiver that waited under a matching filter, once each and in order, and
      no other, not even one that a called receiver registers under a matching filter. Those, and
      everybody who waited under another filter, are waiting afterwards, the old entries first and
      in their old order. */
  lemma DeliverCallsMatching(s: State, m: Publish)
    requires UniqueFilters(s.waiters)
    ensures var t, called := Deliver(s, m), MatchingReceivers(s.waiters, m.topic);
            && DeliveredIn(t.log) == DeliveredIn(s.log) + Deliveries(called, m)
            && (forall rx :: rx in called <==>
                  exists w :: w in s.waiters && TopicFilter.Matches(w.filter, m.topic) && rx in w.receivers)
            && multiset(Waiting(t.waiters)) + multiset(called)
               == multiset(Waiting(s.waiters)) + RegisteredByCalls(called)
            && Kept(OtherWaiters(s.waiters, m.topic), t.waiters)
            && UniqueFilters(t.waiters)
  {
    hide Waiting, DeliveredIn, TopicFilter.Matches, RegisteredByCalls;
    var u := s.(waiters := OtherWaiters(s.waiters, m.topic));
    TakenOut(s.waiters, m.topic);
    forall rx ensures rx in MatchingReceivers(s.waiters, m.topic) <==>
                      exists w :: w in s.waiters && TopicFilter.Matches(w.filter, m.topic) && rx in w.receivers {
      MatchingFrom(s.waiters, m.topic, rx);
    }
    OthersAreUnique(s.waiters, m.topic);
    CallAllRegisters(u, MatchingReceivers(s.waiters, m.topic), m);
  }

  // ---------------------------------------------------------------- every reachable state

  lemma CallbackUnique(s: State, rx: Receiver, e: Event)
    requires UniqueFilters(s.waiters)
    ensures UniqueFilters(Callback(s, rx, e).waiters)
  {
    RunOpsRegisters(s.(log := s.log + [e]), rx.reaction);
  }

  lemma FinishUnique(s: State, i: nat, r: PublishResult)
    requires i < |s.published| && UniqueFilters(s.waiters)
    ensures UniqueFilters(Finish(s, i, r).waiters)
  {
    var p := s.published[i].pending;
    CallbackUnique(s.(published := Remove(s.published, i)), p.receiver, Completed(p, r));
  }

  lemma AckUnique(s: State, p: Packet)
    requires UniqueFilters(s.waiters) && (p.PubackPacket? || p.PubrecPacket? || p.PubcompPacket?)
    ensures UniqueFilters(Step(s, Recv(p)).waiters)
  {
    hide UniqueFilters, Finish;
    var i := InFlightIndex(s.published, p.ack.packetIdentifier);
    if i < |s.published| {
      var m := s.published[i].pending.message;
      FinishUnique(s, i, Done);
      FinishUnique(s.(leaked := s.leaked + 1), i, Done);
      FinishUnique(s.(leaked := s.leaked + 1), i, Value(p.ack.reasonCode));
      FinishUnique(s.(acknowledged := s.acknowledged + [m]), i, Value(p.ack.reasonCode));
      FinishUnique(s.(leaked := s.leaked + 1, finished := s.finished + [m]), i, Value(p.ack.reasonCode));
    }
  }

  lemma StepUnique(s: State, e: Input)
    requires UniqueFilters(s.waiters)
    ensures UniqueFilters(Step(s, e).waiters)
  {
    hide UniqueFilters, Start, Callback, Deliver, HandlePuback, HandlePubrec, HandlePubcomp;
    match e
    case App(op) => StartRegisters(s, op); UniqueAfter(s, Start(s, op), RegisteredBy(op));
    case PubackWritten =>
    case Recv(p) =>
      match p
      case PubackPacket(a) => AckUnique(s, p);
      case PubrecPacket(a) => AckUnique(s, p);
      case PubcompPacket(a) => AckUnique(s, p);
      case SubackPacket(c) =>
        var i := SubscribeIndex(s.subscribes, c.packetIdentifier);
        if i < |s.subscribes| {
          var rx := s.subscribes[i].receiver;
          CallbackUnique(s.(subscribes := Remove(s.subscribes, i)), rx, Subscribed(s.subscribes[i], c.reasonCodes));
        }
      case UnsubackPacket(c) =>
        var i := UnsubscribeIndex(s.unsubscribes, c.packetIdentifier);
        if i < |s.unsubscribes| {
          var rx := s.unsubscribes[i].receiver;
          CallbackUnique(s.(unsubscribes := Remove(s.unsubscribes, i)), rx,
              Unsubscribed(s.unsubscribes[i], c.reasonCodes));
        }
      case PublishPacket(m) =>
        var t := TakeReceiveQuota(s, m);
        DeliverUnique(Send(t, PubackPacket(Reply(m.packetIdentifier, 0))).(direct := t.direct + [m]), m);
        DeliverUnique(t.(direct := t.direct + [m]), m);
      case PubrelPacket(a) =>
        var i := ReceivedIndex(s.received, a.packetIdentifier);
        if i < |s.received| {
          DeliverUnique(Send(s.(received := Remove(s.received, i), released := s.released + [s.received[i]]),
                             PubcompPacket(Reply(a.packetIdentifier, 0))), s.received[i]);
        }
      case _ =>
  }

  lemma UniqueAfter(s: State, t: State, added: multiset<Receiver>)
    requires Registers(s, t, added) && UniqueFilters(s.waiters)
    ensures UniqueFilters(t.waiters)
  {
  }

  lemma DeliverUnique(s: State, m: Publish)
    requires UniqueFilters(s.waiters)
    ensures UniqueFilters(Deliver(s, m).waiters)
  {
    DeliverCallsMatching(s, m);
  }

  /** No reachable state has two entries for one filter. */
  lemma {:induction false} OneEntryPerFilter(s: State, es: seq<Input>)
    requires UniqueFilters(s.waiters)
    ensures UniqueFilters(Run(s, es).waiters)
    decreases es
  {
    hide UniqueFilters, Step;
    if es != [] {
      StepUnique(s, es[0]);
      OneEntryPerFilter(Step(s, es[0]), es[1..]);
    }
  }
}
