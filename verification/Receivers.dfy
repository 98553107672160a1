/** Nobody is forgotten and nobody is told twice: every receiver that was ever given to a start, those
    of reactions included, either waits in exactly one place or has been told exactly once. And what
    each start does at once. */
module Receivers {
  import opened Bytes
  import opened Primitives
  import opened Packets
  import opened Engine
  import opened Starts
  import Records
  import TopicFilter
  import Waiters
  import Liveness

  // ---------------------------------------------------------------- counting a token

  /** How often x is among the tokens of a receiver and of all that its reaction will start. */
  function InReceiver(rx: Receiver, x: nat): nat
    decreases rx
  {
    (if rx.token == x then 1 else 0) + InOps(rx.reaction, x)
  }

  function InOps(ops: seq<Op>, x: nat): nat
    decreases ops
  {
    if ops == [] then 0 else InOp(ops[0], x) + InOps(ops[1..], x)
  }

  function InOp(op: Op, x: nat): nat
    decreases op
  {
    match op
    case StartPublish(_, rx) => InReceiver(rx, x)
    case StartSubscribe(_, rx) => InReceiver(rx, x)
    case StartUnsubscribe(_, rx) => InReceiver(rx, x)
    case StartWaiting(_, rx) => InReceiver(rx, x)
  }

  function InReceivers(rxs: seq<Receiver>, x: nat): nat {
    if rxs == [] then 0 else InReceiver(rxs[0], x) + InReceivers(rxs[1..], x)
  }

  function TokenOf(e: Event): Option<nat> {
    match e
    case Sent(token) => Some(token)
    case Delivered(token, _) => Some(token)
    case Completed(p, _) => Some(p.receiver.token)
    case Subscribed(o, _) => Some(o.receiver.token)
    case Unsubscribed(o, _) => Some(o.receiver.token)
    case Closed => None
  }

  /** How often x was told something. */
  function ToldIn(log: seq<Event>, x: nat): nat {
    if log == [] then 0
    else
      var n := |log| - 1;
      ToldIn(log[..n], x) + (if TokenOf(log[n]) == Some(x) then 1 else 0)
  }

  /** How often x waits: for a publish queued or in flight, a subscribe, an unsubscribe, or for
      incoming messages. */
  function WaitsIn(s: State, x: nat): nat {
    InReceivers(Liveness.QueueReceivers(s.queue), x) + InReceivers(Liveness.FlightReceivers(s.published), x)
    + InReceivers(Liveness.SubscribeReceivers(s.subscribes), x)
    + InReceivers(Liveness.UnsubscribeReceivers(s.unsubscribes), x)
    + InReceivers(Waiters.Waiting(s.waiters), x)
  }

  function Account(s: State, x: nat): nat {
    ToldIn(s.log, x) + WaitsIn(s, x)
  }

  // ---------------------------------------------------------------- sums

  lemma {:induction false} InConcat(a: seq<Receiver>, b: seq<Receiver>, x: nat)
    ensures InReceivers(a + b, x) == InReceivers(a, x) + InReceivers(b, x)
  {
    if a == [] {
      assert a + b == b;
    } else {
      assert (a + b)[1..] == a[1..] + b;
      InConcat(a[1..], b, x);
    }
  }

  lemma NobodyCounts(x: nat)
    ensures InReceivers([], x) == 0
  {
  }

  lemma InSnoc(a: seq<Receiver>, rx: Receiver, x: nat)
    ensures InReceivers(a + [rx], x) == InReceivers(a, x) + InReceiver(rx, x)
  {
    InConcat(a, [rx], x);
    assert [rx][1..] == [];
  }

  lemma InRemove(a: seq<Receiver>, i: nat, x: nat)
    requires i < |a|
    ensures InReceivers(Remove(a, i), x) + InReceiver(a[i], x) == InReceivers(a, x)
  {
    hide InReceivers, InReceiver;
    assert a == a[..i] + [a[i]] + a[i + 1..];
    InConcat(a[..i] + [a[i]], a[i + 1..], x);
    InSnoc(a[..i], a[i], x);
    InConcat(a[..i], a[i + 1..], x);
  }

  lemma ToldSnoc(log: seq<Event>, e: Event, x: nat)
    ensures ToldIn(log + [e], x) == ToldIn(log, x) + (if TokenOf(e) == Some(x) then 1 else 0)
  {
    assert (log + [e])[..|log|] == log;
  }

  /** Fields outside the account do not matter. */
  lemma SameAccount(s: State, t: State, x: nat)
    requires s.log == t.log && s.queue == t.queue && s.published == t.published && s.subscribes == t.subscribes
    requires s.unsubscribes == t.unsubscribes && s.waiters == t.waiters
    ensures Account(s, x) == Account(t, x)
  {
  }

  lemma LogAccount(s: State, e: Event, x: nat)
    ensures Account(s.(log := s.log + [e]), x) == Account(s, x) + (if TokenOf(e) == Some(x) then 1 else 0)
  {
    ToldSnoc(s.log, e, x);
  }

  // ---------------------------------------------------------------- starts

  lemma LaunchAccount(s: State, p: Pending, x: nat)
    ensures Account(Launch(s, p), x) == Account(s, x) + InReceiver(p.receiver, x)
  {
    hide InReceivers, InReceiver, ToldIn;
    assert Liveness.FlightReceivers(Launch(s, p).published) == Liveness.FlightReceivers(s.published) + [p.receiver];
    InSnoc(Liveness.FlightReceivers(s.published), p.receiver, x);
  }

  lemma LaunchOrQueueAccount(s: State, p: Pending, x: nat)
    ensures Account(LaunchOrQueue(s, p), x) == Account(s, x) + InReceiver(p.receiver, x)
  {
    hide InReceivers, InReceiver, ToldIn, Launch;
    var t := s.(started := s.started + [p]);
    LaunchAccount(t, p, x);
    assert Liveness.QueueReceivers(t.queue + [p]) == Liveness.QueueReceivers(t.queue) + [p.receiver];
    InSnoc(Liveness.QueueReceivers(t.queue), p.receiver, x);
  }

  lemma SubscribeAccount(s: State, m: Subscribe, rx: Receiver, x: nat)
    ensures Account(Start(s, StartSubscribe(m, rx)), x) == Account(s, x) + InReceiver(rx, x)
  {
    hide InReceivers, InReceiver, ToldIn;
    var t := Start(s, StartSubscribe(m, rx));
    assert Liveness.SubscribeReceivers(t.subscribes) == Liveness.SubscribeReceivers(s.subscribes) + [rx];
    InSnoc(Liveness.SubscribeReceivers(s.subscribes), rx, x);
  }

  lemma UnsubscribeAccount(s: State, m: Unsubscribe, rx: Receiver, x: nat)
    ensures Account(Start(s, StartUnsubscribe(m, rx)), x) == Account(s, x) + InReceiver(rx, x)
  {
    hide InReceivers, InReceiver, ToldIn;
    var t := Start(s, StartUnsubscribe(m, rx));
    assert Liveness.UnsubscribeReceivers(t.unsubscribes) == Liveness.UnsubscribeReceivers(s.unsubscribes) + [rx];
    InSnoc(Liveness.UnsubscribeReceivers(s.unsubscribes), rx, x);
  }

  lemma AddWaiterAccount(ws: seq<Waiter>, f: Filter, rx: Receiver, x: nat)
    ensures InReceivers(Waiters.Waiting(AddWaiter(ws, f, rx)), x)
            == InReceivers(Waiters.Waiting(ws), x) + InReceiver(rx, x)
  {
    hide InReceivers, InReceiver, Waiters.Waiting, WaiterIndex;
    var i := WaiterIndex(ws, f);
    if i == |ws| {
      Waiters.WaitingConcat(ws, [Waiter(f, [rx])]);
      Waiters.WaitingCons(Waiter(f, [rx]), []);
      assert [Waiter(f, [rx])] + [] == [Waiter(f, [rx])];
      InSnoc(Waiters.Waiting(ws), rx, x);
    } else {
      var w, v, rest := ws[i], ws[i].(receivers := ws[i].receivers + [rx]), ws[i + 1..];
      assert ws == ws[..i] + ([w] + rest) && ws[i := v] == ws[..i] + ([v] + rest);
      Waiters.WaitingConcat(ws[..i], [w] + rest);
      Waiters.WaitingConcat(ws[..i], [v] + rest);
      Waiters.WaitingCons(w, rest);
      Waiters.WaitingCons(v, rest);
      InConcat(Waiters.Waiting(ws[..i]), w.receivers + Waiters.Waiting(rest), x);
      InConcat(Waiters.Waiting(ws[..i]), v.receivers + Waiters.Waiting(rest), x);
      InConcat(w.receivers, Waiters.Waiting(rest), x);
      InConcat(v.receivers, Waiters.Waiting(rest), x);
      InSnoc(w.receivers, rx, x);
    }
  }

  /** A start adds the tokens it was given, callbacks and what they start included. */
  lemma {:induction false} StartAccount(s: State, op: Op, x: nat)
    ensures Account(Start(s, op), x) == Account(s, x) + InOp(op, x)
    decreases op
  {
    hide InReceivers, ToldIn, AddWaiter, LaunchOrQueue;
    match op
    case StartPublish(m, rx) =>
      if m.Qos() == 0 {
        var t := Send(s, PublishPacket(m));
        SameAccount(s, t, x);
        LogAccount(t, Sent(rx.token), x);
        RunOpsAccount(t.(log := t.log + [Sent(rx.token)]), rx.reaction, x);
      } else {
        var p := Pending(m.(packetIdentifier := s.nextId), rx, s.issued);
        SameAccount(s, Allocate(s), x);
        LaunchOrQueueAccount(Allocate(s), p, x);
      }
    case StartSubscribe(m, rx) => SubscribeAccount(s, m, rx, x);
    case StartUnsubscribe(m, rx) => UnsubscribeAccount(s, m, rx, x);
    case StartWaiting(f, rx) => AddWaiterAccount(s.waiters, f, rx, x);
  }

  lemma {:induction false} RunOpsAccount(s: State, ops: seq<Op>, x: nat)
    ensures Account(RunOps(s, ops), x) == Account(s, x) + InOps(ops, x)
    decreases ops
  {
    hide Account;
    if ops != [] {
      StartAccount(s, ops[0], x);
      RunOpsAccount(Start(s, ops[0]), ops[1..], x);
    }
  }

  /** A receiver that is told something leaves its place to what it starts. */
  lemma CallbackAccount(s: State, rx: Receiver, e: Event, x: nat)
    requires TokenOf(e) == Some(rx.token)
    ensures Account(Callback(s, rx, e), x) == Account(s, x) + InReceiver(rx, x)
  {
    hide Account;
    LogAccount(s, e, x);
    RunOpsAccount(s.(log := s.log + [e]), rx.reaction, x);
  }

  // ---------------------------------------------------------------- handlers

  lemma FinishAccount(s: State, i: nat, r: PublishResult, x: nat)
    requires i < |s.published|
    ensures Account(Finish(s, i, r), x) == Account(s, x)
  {
    hide InReceivers, InReceiver, ToldIn, Callback;
    var t, p := s.(published := Remove(s.published, i)), s.published[i].pending;
    assert Liveness.FlightReceivers(t.published) == Remove(Liveness.FlightReceivers(s.published), i);
    InRemove(Liveness.FlightReceivers(s.published), i, x);
    CallbackAccount(t, p.receiver, Completed(p, r), x);
  }

  lemma CloseAccount(s: State, x: nat)
    ensures Account(Close(s), x) == Account(s, x)
  {
    hide Account;
    LogAccount(s, Closed, x);
  }

  lemma MaybeSendAccount(s: State, x: nat)
    ensures Account(MaybeSendQueued(s), x) == Account(s, x)
  {
    hide InReceivers, InReceiver, ToldIn, Launch;
    if s.sendQuota < s.maxQuota && s.queue != [] {
      var p, rest := s.queue[0], s.queue[1..];
      var rxs := Liveness.QueueReceivers(s.queue);
      assert Remove(rxs, 0) == Liveness.QueueReceivers(rest);
      InRemove(rxs, 0, x);
      LaunchAccount(s.(sendQuota := s.sendQuota + 1, queue := rest), p, x);
    }
  }

  lemma {:induction false} CallAllAccount(s: State, rxs: seq<Receiver>, m: Publish, x: nat)
    ensures Account(CallAll(s, rxs, m), x) == Account(s, x) + InReceivers(rxs, x)
    decreases rxs
  {
    hide Account, Callback;
    if rxs != [] {
      CallbackAccount(s, rxs[0], Delivered(rxs[0].token, m), x);
      CallAllAccount(Callback(s, rxs[0], Delivered(rxs[0].token, m)), rxs[1..], m, x);
    }
  }

  lemma {:induction false} TakenOutAccount(ws: seq<Waiter>, topic: text, x: nat)
    ensures InReceivers(MatchingReceivers(ws, topic), x) + InReceivers(Waiters.Waiting(OtherWaiters(ws, topic)), x)
            == InReceivers(Waiters.Waiting(ws), x)
  {
    hide TopicFilter.Matches, InReceivers, Waiters.Waiting;
    if ws == [] {
      Waiters.NobodyWaits();
      NobodyCounts(x);
    } else {
      var w, matching, others := ws[0], MatchingReceivers(ws[1..], topic), OtherWaiters(ws[1..], topic);
      TakenOutAccount(ws[1..], topic, x);
      assert ws == [w] + ws[1..];
      Waiters.WaitingCons(w, ws[1..]);
      Waiters.WaitingCons(w, others);
      InConcat(w.receivers, Waiters.Waiting(ws[1..]), x);
      InConcat(w.receivers, Waiters.Waiting(others), x);
      InConcat(w.receivers, matching, x);
      assert [] + others == others && [] + matching == matching;
    }
  }

  lemma DeliverAccount(s: State, m: Publish, x: nat)
    ensures Account(Deliver(s, m), x) == Account(s, x)
  {
    hide InReceivers, InReceiver, ToldIn, CallAll;
    TakenOutAccount(s.waiters, m.topic, x);
    CallAllAccount(s.(waiters := OtherWaiters(s.waiters, m.topic)), MatchingReceivers(s.waiters, m.topic), m, x);
  }

  lemma AckAccount(s: State, p: Packet, x: nat)
    requires p.PubackPacket? || p.PubrecPacket? || p.PubcompPacket?
    ensures Account(Step(s, Recv(p)), x) == Account(s, x)
  {
    hide Account, Finish, Close, MaybeSendQueued;
    var i, code, l := InFlightIndex(s.published, p.ack.packetIdentifier), p.ack.reasonCode, s.(leaked := s.leaked + 1);
    SameAccount(s, l, x);
    if i == |s.published| {
      MaybeSendAccount(s, x);
      SameAccount(s, Send(s, PubrelPacket(Reply(p.ack.packetIdentifier, IDENTIFIER_NOT_FOUND))), x);
    } else {
      var m := s.published[i].pending.message;
      var t, u := s.(acknowledged := s.acknowledged + [m]), l.(finished := l.finished + [m]);
      SameAccount(s, t, x);
      SameAccount(s, u, x);
      FinishAccount(t, i, Value(code), x);
      MaybeSendAccount(Finish(t, i, Value(code)), x);
      FinishAccount(s, i, Done, x);
      CloseAccount(Finish(s, i, Done), x);
      MaybeSendAccount(Close(Finish(s, i, Done)), x);
      FinishAccount(l, i, Value(code), x);
      FinishAccount(l, i, Done, x);
      CloseAccount(Finish(l, i, Done), x);
      FinishAccount(u, i, Value(code), x);
      ResumeAccount(s, i, PubrelPacket(Reply(p.ack.packetIdentifier, 0)), x);
    }
  }

  lemma ResumeAccount(s: State, i: nat, p: Packet, x: nat)
    requires i < |s.published|
    ensures Account(Send(s.(published := s.published[i := s.published[i].(state := WaitingPubcomp)]), p), x)
            == Account(s, x)
  {
    hide InReceivers, ToldIn;
    var u := s.(published := s.published[i := s.published[i].(state := WaitingPubcomp)]);
    assert Liveness.FlightReceivers(u.published) == Liveness.FlightReceivers(s.published);
  }

  lemma CodesAccount(s: State, p: Packet, x: nat)
    requires p.SubackPacket? || p.UnsubackPacket?
    ensures Account(Step(s, Recv(p)), x) == Account(s, x)
  {
    hide InReceivers, InReceiver, ToldIn, Callback;
    if p.SubackPacket? && SubscribeIndex(s.subscribes, p.codes.packetIdentifier) < |s.subscribes| {
      var i := SubscribeIndex(s.subscribes, p.codes.packetIdentifier);
      var t, o := s.(subscribes := Remove(s.subscribes, i)), s.subscribes[i];
      var rxs := Liveness.SubscribeReceivers(s.subscribes);
      assert Liveness.SubscribeReceivers(t.subscribes) == Remove(rxs, i);
      InRemove(rxs, i, x);
      CallbackAccount(t, o.receiver, Subscribed(o, p.codes.reasonCodes), x);
    }
    if p.UnsubackPacket? && UnsubscribeIndex(s.unsubscribes, p.codes.packetIdentifier) < |s.unsubscribes| {
      var i := UnsubscribeIndex(s.unsubscribes, p.codes.packetIdentifier);
      var t, o := s.(unsubscribes := Remove(s.unsubscribes, i)), s.unsubscribes[i];
      var rxs := Liveness.UnsubscribeReceivers(s.unsubscribes);
      assert Liveness.UnsubscribeReceivers(t.unsubscribes) == Remove(rxs, i);
      InRemove(rxs, i, x);
      CallbackAccount(t, o.receiver, Unsubscribed(o, p.codes.reasonCodes), x);
    }
  }

  lemma PublishAccount(s: State, m: Publish, x: nat)
    ensures Account(HandlePublish(s, m), x) == Account(s, x)
  {
    hide Account, Deliver, ReceivedIndex, Close;
    var t := TakeReceiveQuota(s, m);
    var d := Send(s, DisconnectPacket(Disconnect(QUOTA_EXCEEDED, Records.NO_DISCONNECT)));
    SameAccount(s, d, x);
    CloseAccount(d, x);
    SameAccount(s, s.(receiveQuota := if s.receiveQuota > 0 then s.receiveQuota - 1 else 0), x);
    assert Account(t, x) == Account(s, x);
    var a, b := PubackPacket(Reply(m.packetIdentifier, 0)), PubrecPacket(Reply(m.packetIdentifier, 0));
    SameAccount(t, Send(t, a).(direct := t.direct + [m]), x);
    DeliverAccount(Send(t, a).(direct := t.direct + [m]), m, x);
    SameAccount(t, Send(t, b), x);
    SameAccount(t, Send(t.(received := t.received + [m]), b), x);
    SameAccount(t, t.(direct := t.direct + [m]), x);
    DeliverAccount(t.(direct := t.direct + [m]), m, x);
  }

  lemma PubrelAccount(s: State, a: Ack, x: nat)
    ensures Account(HandlePubrel(s, a), x) == Account(s, x)
  {
    hide Account, Deliver, ReceivedIndex;
    var i, id := ReceivedIndex(s.received, a.packetIdentifier), a.packetIdentifier;
    SameAccount(s, Send(s, PubcompPacket(Reply(id, IDENTIFIER_NOT_FOUND))), x);
    if i < |s.received| {
      var u := s.(received := Remove(s.received, i), released := s.released + [s.received[i]]);
      SameAccount(s, Send(u, PubcompPacket(Reply(id, 0))), x);
      DeliverAccount(Send(u, PubcompPacket(Reply(id, 0))), s.received[i], x);
    }
  }

  function GivenBy(e: Input, x: nat): nat {
    if e.App? then InOp(e.op, x) else 0
  }

  lemma StepAccount(s: State, e: Input, x: nat)
    ensures Account(Step(s, e), x) == Account(s, x) + GivenBy(e, x)
  {
    hide Account, Start, HandlePuback, HandlePubrec, HandlePubcomp, HandleSuback, HandleUnsuback, HandlePublish,
         HandlePubrel, InOp;
    match e
    case App(op) => StartAccount(s, op, x);
    case PubackWritten => SameAccount(s, Step(s, e), x);
    case Recv(p) =>
      if p.PublishPacket? {
        PublishAccount(s, p.publish, x);
      } else if p.PubrelPacket? {
        PubrelAccount(s, p.ack, x);
      } else if p.PubackPacket? || p.PubrecPacket? || p.PubcompPacket? {
        AckAccount(s, p, x);
      } else if p.SubackPacket? || p.UnsubackPacket? {
        CodesAccount(s, p, x);
      }
  }

  // ---------------------------------------------------------------- whole runs

  /** How often x is among the tokens given in a run. */
  function Given(es: seq<Input>, x: nat): nat
    decreases es
  {
    if es == [] then 0 else GivenBy(es[0], x) + Given(es[1..], x)
  }

  lemma {:induction false} RunAccount(s: State, es: seq<Input>, x: nat)
    ensures Account(Run(s, es), x) == Account(s, x) + Given(es, x)
    decreases es
  {
    hide Account, Step, GivenBy;
    if es != [] {
      StepAccount(s, es[0], x);
      RunAccount(Step(s, es[0]), es[1..], x);
    }
  }

  /** Over every session, and for every token x: as often as x was given to a start, or to a start of a
      reaction, so often it has been told something or still waits. With distinct tokens each receiver
      is therefore told at most once, and until then waits in one place. */
  lemma EveryReceiverOnce(receiveMaximum: uint16, serverMaximum: uint16, es: seq<Input>, x: nat)
    ensures var t := Run(Connected(receiveMaximum, serverMaximum), es);
            ToldIn(t.log, x) + WaitsIn(t, x) == Given(es, x)
  {
    hide Run;
    RunAccount(Connected(receiveMaximum, serverMaximum), es, x);
  }

  // ---------------------------------------------------------------- what a start does at once

  /** The message of the application, and nothing else but its identifier, is what is written or
      queued, recorded, and kept for the acknowledgement; a QoS 0 publish is written as it is and
      reported before its callback starts anything. */
  lemma StartDoes(s: State, op: Op)
    ensures var t, id := Start(s, op), s.nextId;
            match op
            case StartPublish(m, rx) =>
              if m.flags / 2 % 4 == 0 then
                s.sent + [PublishPacket(m)] <= t.sent && s.log + [Sent(rx.token)] <= t.log
              else
                var p := Pending(m.(packetIdentifier := id), rx, s.issued);
                && t.started == s.started + [p] && t.log == s.log
                && (if s.sendQuota > 0 then t.sent == s.sent + [PublishPacket(p.message)] && t.queue == s.queue
                    else t.sent == s.sent && t.queue == s.queue + [p])
            case StartSubscribe(m, rx) =>
              && t.sent == s.sent + [SubscribePacket(m.(packetIdentifier := id))] && t.log == s.log
              && t.subscribes == s.subscribes + [OpenSubscribe(m.(packetIdentifier := id), rx, s.issued)]
            case StartUnsubscribe(m, rx) =>
              && t.sent == s.sent + [UnsubscribePacket(m.(packetIdentifier := id))] && t.log == s.log
              && t.unsubscribes == s.unsubscribes + [OpenUnsubscribe(m.(packetIdentifier := id), rx, s.issued)]
            case StartWaiting(f, rx) =>
              t == s.(waiters := t.waiters)
  {
    if op.StartPublish? && op.message.Qos() == 0 {
      var t := Send(s, PublishPacket(op.message));
      var u := t.(log := t.log + [Sent(op.receiver.token)]);
      RunOpsExtends(u, op.receiver.reaction);
      hide RunOps, Fresh;
      assert Start(s, op) == RunOps(u, op.receiver.reaction);
    }
  }
}
