/** What the application is handed: which calls the receivers of incoming messages get, with which
    message and in which order, over whole runs and against any packets. The statements are about the
    calls that were made, and about the inputs. */
module Delivery {
  import opened Bytes
  import opened Primitives
  import opened Packets
  import opened Engine
  import opened Starts
  import opened Receiving
  import opened Waiters
  import TopicFilter

  // ---------------------------------------------------------------- one delivery

  /** Everybody who waits under a filter that matches, entry after entry. */
  function Called(ws: seq<Waiter>, topic: text): seq<Receiver> {
    if ws == [] then []
    else
      var n := |ws| - 1;
      Called(ws[..n], topic) + (if TopicFilter.Matches(ws[n].filter, topic) then ws[n].receivers else [])
  }

  lemma {:induction false} CalledCons(w: Waiter, ws: seq<Waiter>, topic: text)
    ensures Called([w] + ws, topic) ==
            (if TopicFilter.Matches(w.filter, topic) then w.receivers else []) + Called(ws, topic)
    decreases |ws|
  {
    hide TopicFilter.Matches;
    if ws == [] {
      assert [w] + ws == [w] && [w][..0] == [];
    } else {
      var n := |ws| - 1;
      assert ([w] + ws)[..n + 1] == [w] + ws[..n];
      CalledCons(w, ws[..n], topic);
    }
  }

  lemma {:induction false} CalledAre(ws: seq<Waiter>, topic: text)
    ensures MatchingReceivers(ws, topic) == Called(ws, topic)
  {
    hide TopicFilter.Matches;
    if ws != [] {
      CalledAre(ws[1..], topic);
      assert ws == [ws[0]] + ws[1..];
      CalledCons(ws[0], ws[1..], topic);
    }
  }

  /** The calls that hand a message over. */
  function Calls(ws: seq<Waiter>, m: Option<Publish>): seq<Event> {
    if m.Some? then Deliveries(Called(ws, m.value.topic), m.value) else []
  }

  lemma DeliverCalls(s: State, m: Publish)
    ensures DeliveredIn(Deliver(s, m).log) == DeliveredIn(s.log) + Calls(s.waiters, Some(m))
  {
    hide MatchingReceivers, Called, DeliveredIn, OtherWaiters, CallAll;
    CalledAre(s.waiters, m.topic);
    CallAllRegisters(s.(waiters := OtherWaiters(s.waiters, m.topic)), MatchingReceivers(s.waiters, m.topic), m);
  }

  // ---------------------------------------------------------------- one input

  /** The message that an input hands over: a PUBLISH of QoS 0 or 1 itself, a PUBREL the first message
      in the table with its identifier, and nothing else does. */
  function HandedNow(s: State, e: Input): Option<Publish> {
    if !e.Recv? then None
    else match e.packet
      case PublishPacket(m) => if m.Qos() == 2 then None else Some(m)
      case PubrelPacket(a) =>
        var i := ReceivedIndex(s.received, a.packetIdentifier);
        if i < |s.received| then Some(s.received[i]) else None
      case _ => None
  }

  /** Callbacks of other kinds and reports hand nothing over. */
  predicate Silent(s: State, t: State) {
    DeliveredIn(t.log) == DeliveredIn(s.log)
  }

  lemma OpsSilent(s: State, ops: seq<Op>)
    ensures Silent(s, RunOps(s, ops))
  {
    RunOpsRegisters(s, ops);
  }

  lemma CallbackSilent(s: State, rx: Receiver, e: Event)
    requires !e.Delivered?
    ensures Silent(s, Callback(s, rx, e))
  {
    hide DeliveredIn;
    DeliveredSnoc(s.log, e);
    OpsSilent(s.(log := s.log + [e]), rx.reaction);
  }

  lemma FinishSilent(s: State, i: nat, r: PublishResult)
    requires i < |s.published|
    ensures Silent(s, Finish(s, i, r)) && Silent(s, Close(Finish(s, i, r)))
  {
    hide DeliveredIn, Callback;
    var p := s.published[i].pending;
    CallbackSilent(s.(published := Remove(s.published, i)), p.receiver, Completed(p, r));
    DeliveredSnoc(Finish(s, i, r).log, Closed);
  }

  lemma AckSilent(s: State, p: Packet)
    requires p.PubackPacket? || p.PubrecPacket? || p.PubcompPacket?
    ensures Silent(s, Step(s, Recv(p)))
  {
    hide DeliveredIn, Finish, Close;
    var i, code, l := InFlightIndex(s.published, p.ack.packetIdentifier), p.ack.reasonCode, s.(leaked := s.leaked + 1);
    if i < |s.published| {
      var m := s.published[i].pending.message;
      FinishSilent(s, i, Done);
      FinishSilent(s.(acknowledged := s.acknowledged + [m]), i, Value(code));
      FinishSilent(l, i, Done);
      FinishSilent(l, i, Value(code));
      FinishSilent(l.(finished := l.finished + [m]), i, Value(code));
    }
  }

  lemma CodesSilent(s: State, p: Packet)
    requires p.SubackPacket? || p.UnsubackPacket?
    ensures Silent(s, Step(s, Recv(p)))
  {
    hide DeliveredIn, Callback;
    if p.SubackPacket? && SubscribeIndex(s.subscribes, p.codes.packetIdentifier) < |s.subscribes| {
      var i := SubscribeIndex(s.subscribes, p.codes.packetIdentifier);
      CallbackSilent(s.(subscribes := Remove(s.subscribes, i)), s.subscribes[i].receiver,
                     Subscribed(s.subscribes[i], p.codes.reasonCodes));
    }
    if p.UnsubackPacket? && UnsubscribeIndex(s.unsubscribes, p.codes.packetIdentifier) < |s.unsubscribes| {
      var i := UnsubscribeIndex(s.unsubscribes, p.codes.packetIdentifier);
      CallbackSilent(s.(unsubscribes := Remove(s.unsubscribes, i)), s.unsubscribes[i].receiver,
                     Unsubscribed(s.unsubscribes[i], p.codes.reasonCodes));
    }
  }

  lemma PublishHands(s: State, m: Publish)
    ensures DeliveredIn(HandlePublish(s, m).log)
            == DeliveredIn(s.log) + Calls(s.waiters, HandedNow(s, Recv(PublishPacket(m))))
  {
    hide DeliveredIn, Deliver, Calls, ReceivedIndex;
    var t := TakeReceiveQuota(s, m);
    DeliveredSnoc(s.log, Closed);
    assert DeliveredIn(s.log) + [] == DeliveredIn(s.log) && Calls(s.waiters, None) == [] by { NoCalls(s.waiters); }
    DeliverCalls(Send(t, PubackPacket(Reply(m.packetIdentifier, 0))).(direct := t.direct + [m]), m);
    DeliverCalls(t.(direct := t.direct + [m]), m);
  }

  lemma NoCalls(ws: seq<Waiter>)
    ensures Calls(ws, None) == []
  {
  }

  lemma PubrelHands(s: State, a: Ack)
    ensures DeliveredIn(HandlePubrel(s, a).log)
            == DeliveredIn(s.log) + Calls(s.waiters, HandedNow(s, Recv(PubrelPacket(a))))
  {
    hide DeliveredIn, Deliver, Calls, ReceivedIndex;
    var i, id := ReceivedIndex(s.received, a.packetIdentifier), a.packetIdentifier;
    assert DeliveredIn(s.log) + [] == DeliveredIn(s.log) && Calls(s.waiters, None) == [] by { NoCalls(s.waiters); }
    if i < |s.received| {
      var m := s.received[i];
      var t := s.(received := Remove(s.received, i), released := s.released + [m]);
      DeliverCalls(Send(t, PubcompPacket(Reply(id, 0))), m);
    }
  }

  /** Every input calls, of the receivers of incoming messages, those and only those that wait under a
      filter that matches the message it hands over, in the order in which they wait, with that
      message; whatever else callbacks start meanwhile. */
  lemma StepHands(s: State, e: Input)
    ensures DeliveredIn(Step(s, e).log) == DeliveredIn(s.log) + Calls(s.waiters, HandedNow(s, e))
  {
    hide DeliveredIn, Calls, ReceivedIndex, Start, HandlePuback, HandlePubrec, HandlePubcomp, HandleSuback,
         HandleUnsuback, HandlePublish, HandlePubrel;
    assert DeliveredIn(s.log) + [] == DeliveredIn(s.log) && Calls(s.waiters, None) == [] by { NoCalls(s.waiters); }
    match e
    case App(op) => StartRegisters(s, op);
    case PubackWritten =>
    case Recv(p) =>
      if p.PublishPacket? {
        PublishHands(s, p.publish);
      } else if p.PubrelPacket? {
        PubrelHands(s, p.ack);
      } else if p.PubackPacket? || p.PubrecPacket? || p.PubcompPacket? {
        AckSilent(s, p);
      } else if p.SubackPacket? || p.UnsubackPacket? {
        CodesSilent(s, p);
      }
  }

  // ---------------------------------------------------------------- whole runs

  /** The same, read off the inputs alone: a PUBREL hands over the first PUBLISH with its identifier
      since the PUBREL before. */
  function HandedBy(es: seq<Input>, e: Input): Option<Publish> {
    if !e.Recv? then None
    else match e.packet
      case PublishPacket(m) => if m.Qos() == 2 then None else Some(m)
      case PubrelPacket(a) =>
        var open := OpenAt(es, a.packetIdentifier);
        if open.Some? then Some(es[open.value].packet.publish) else None
      case _ => None
  }

  /** The messages that a run hands over, in order. */
  function Handed(es: seq<Input>): seq<Publish> {
    if es == [] then []
    else
      var n := |es| - 1;
      var m := HandedBy(es[..n], es[n]);
      Handed(es[..n]) + (if m.Some? then [m.value] else [])
  }

  /** The calls that a run makes to hand them over: each message to those who wait when it comes. */
  function HandedCalls(s: State, es: seq<Input>): seq<Event>
    decreases |es|
  {
    if es == [] then []
    else
      var n := |es| - 1;
      HandedCalls(s, es[..n]) + Calls(Run(s, es[..n]).waiters, HandedBy(es[..n], es[n]))
  }

  function OfKind(ms: seq<Publish>, exactlyOnce: bool): seq<Publish> {
    if ms == [] then []
    else
      var n := |ms| - 1;
      OfKind(ms[..n], exactlyOnce) + (if (ms[n].Qos() == 2) == exactlyOnce then [ms[n]] else [])
  }

  lemma OfKindSnoc(ms: seq<Publish>, m: Publish, exactlyOnce: bool)
    ensures OfKind(ms + [m], exactlyOnce)
            == OfKind(ms, exactlyOnce) + (if (m.Qos() == 2) == exactlyOnce then [m] else [])
  {
    assert (ms + [m])[..|ms|] == ms;
  }

  /** The table agrees with the inputs on what is handed over next. */
  lemma SameMessage(s: State, es: seq<Input>, e: Input)
    requires Exact(s, es)
    ensures HandedNow(s, e) == HandedBy(es, e)
  {
    hide OpenAt, ReceivedIndex;
    if e.Recv? && e.packet.PubrelPacket? {
      assert Tracks(s.received, es, e.packet.ack.packetIdentifier);
    }
  }

  /** What `direct` and `released` are for: together they are what was handed over. */
  predicate Split(s: State, ms: seq<Publish>) {
    s.direct == OfKind(ms, false) && s.released == OfKind(ms, true)
  }

  lemma HandedSnoc(es: seq<Input>, e: Input)
    ensures Handed(es + [e]) == Handed(es) + (if HandedBy(es, e).Some? then [HandedBy(es, e).value] else [])
  {
    hide HandedBy;
    assert (es + [e])[..|es|] == es;
  }

  /** One more message, or none, goes to its list. */
  lemma SplitSnoc(s: State, t: State, ms: seq<Publish>, m: Option<Publish>)
    requires Split(s, ms)
    requires t.direct == s.direct + (if m.Some? && m.value.Qos() != 2 then [m.value] else [])
    requires t.released == s.released + (if m.Some? && m.value.Qos() == 2 then [m.value] else [])
    ensures Split(t, ms + (if m.Some? then [m.value] else []))
  {
    hide OfKind;
    if m.Some? {
      OfKindSnoc(ms, m.value, true);
      OfKindSnoc(ms, m.value, false);
    } else {
      assert ms + [] == ms;
    }
  }

  /** The two lists of handed messages grow by what is handed now. */
  predicate Notes(s: State, t: State, m: Option<Publish>) {
    && t.direct == s.direct + (if m.Some? && m.value.Qos() != 2 then [m.value] else [])
    && t.released == s.released + (if m.Some? && m.value.Qos() == 2 then [m.value] else [])
  }

  lemma PublishNotes(s: State, m: Publish)
    ensures Notes(s, HandlePublish(s, m), HandedNow(s, Recv(PublishPacket(m))))
  {
    hide Deliver, ReceivedIndex;
    var t := TakeReceiveQuota(s, m);
    DeliverNotes(Send(t, PubackPacket(Reply(m.packetIdentifier, 0))).(direct := t.direct + [m]), m);
    DeliverNotes(t.(direct := t.direct + [m]), m);
  }

  lemma DeliverNotes(s: State, m: Publish)
    ensures Deliver(s, m).direct == s.direct && Deliver(s, m).released == s.released
  {
    DeliverExtends(s, m);
  }

  lemma PubrelNotes(s: State, a: Ack)
    requires var m := HandedNow(s, Recv(PubrelPacket(a))); m.Some? ==> m.value.Qos() == 2
    ensures Notes(s, HandlePubrel(s, a), HandedNow(s, Recv(PubrelPacket(a))))
  {
    hide Deliver, ReceivedIndex;
    var i, id := ReceivedIndex(s.received, a.packetIdentifier), a.packetIdentifier;
    if i < |s.received| {
      DeliverNotes(Send(s.(received := Remove(s.received, i), released := s.released + [s.received[i]]),
                        PubcompPacket(Reply(id, 0))), s.received[i]);
    }
  }

  lemma StepNotes(s: State, es: seq<Input>, e: Input)
    requires Exact(s, es)
    ensures Notes(s, Step(s, e), HandedNow(s, e))
  {
    hide Exact, ReceivedIndex, HandlePuback, HandleSuback, HandleUnsuback, HandlePubrec, HandlePubcomp, HandlePublish,
         HandlePubrel, Start;
    if !Receives(e) {
      StepReceivesNothing(s, e);
    } else if e.Recv? && e.packet.PublishPacket? {
      PublishNotes(s, e.packet.publish);
    } else if e.Recv? && e.packet.PubrelPacket? {
      HandedIsExactlyOnce(s, es, e.packet.ack);
      PubrelNotes(s, e.packet.ack);
    }
  }

  lemma StepSplits(s: State, es: seq<Input>, e: Input)
    requires Exact(s, es) && Split(s, Handed(es))
    ensures Split(Step(s, e), Handed(es + [e]))
  {
    hide Exact, Split, Step, Handed, HandedBy, HandedNow;
    SameMessage(s, es, e);
    StepNotes(s, es, e);
    HandedSnoc(es, e);
    SplitSnoc(s, Step(s, e), Handed(es), HandedNow(s, e));
  }

  lemma HandedIsExactlyOnce(s: State, es: seq<Input>, a: Ack)
    requires Exact(s, es)
    ensures var m := HandedNow(s, Recv(PubrelPacket(a))); m.Some? ==> m.value.Qos() == 2
  {
    hide OpenAt, ReceivedIndex;
    assert Tracks(s.received, es, a.packetIdentifier);
  }

  lemma {:induction false} RunHands(s: State, es: seq<Input>)
    requires s.received == [] && s.released == [] && s.sent == [] && s.direct == []
    ensures DeliveredIn(Run(s, es).log) == DeliveredIn(s.log) + HandedCalls(s, es)
    ensures Split(Run(s, es), Handed(es))
    decreases |es|
  {
    hide Exact, Split, DeliveredIn, Calls, Step, HandedBy;
    if es == [] {
      assert DeliveredIn(s.log) + [] == DeliveredIn(s.log);
      NothingSplit(s);
    } else {
      var n := |es| - 1;
      var t := Run(s, es[..n]);
      assert es == es[..n] + [es[n]];
      RunSnoc(s, es[..n], es[n]);
      RunHands(s, es[..n]);
      RunExact(s, es[..n]);
      StepHands(t, es[n]);
      SameMessage(t, es[..n], es[n]);
      Assoc(DeliveredIn(s.log), HandedCalls(s, es[..n]), Calls(t.waiters, HandedBy(es[..n], es[n])));
      StepSplits(t, es[..n], es[n]);
    }
  }

  lemma NothingSplit(s: State)
    requires s.direct == [] && s.released == []
    ensures Split(s, [])
  {
  }

  /** Over every session: the application is called with exactly the messages that the inputs hand
      over, in that order, each message by one call of everybody who waited for it at that moment; of
      these messages the ones of QoS 0 and 1 are those delivered at once, and the ones of QoS 2 those
      released by a PUBREL. */
  lemma ApplicationIsHanded(receiveMaximum: uint16, serverMaximum: uint16, es: seq<Input>)
    ensures var s := Connected(receiveMaximum, serverMaximum);
            var t := Run(s, es);
            && DeliveredIn(t.log) == HandedCalls(s, es)
            && t.direct == OfKind(Handed(es), false) && t.released == OfKind(Handed(es), true)
  {
    hide Run, DeliveredIn, HandedCalls, OfKind, Handed;
    assert DeliveredIn([]) == [] by { NothingDelivered(); }
    assert [] + HandedCalls(Connected(receiveMaximum, serverMaximum), es)
        == HandedCalls(Connected(receiveMaximum, serverMaximum), es);
    RunHands(Connected(receiveMaximum, serverMaximum), es);
  }

  lemma NothingDelivered()
    ensures DeliveredIn([]) == []
  {
  }
}
