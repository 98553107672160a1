/** The client as an object: fields that its senders and packet handlers update in place. Each method
    is proved to do to the fields what the function of the same name in `Engine` does to a state. */
module ClientObject {
  import opened Bytes
  import opened Primitives
  import opened Packets
  import opened Engine
  import Records
  import TopicFilter

  function Flatten(all: seq<seq<Receiver>>): seq<Receiver> {
    if all == [] then [] else all[0] + Flatten(all[1..])
  }

  lemma {:induction false} FlattenSnoc(all: seq<seq<Receiver>>, rxs: seq<Receiver>)
    ensures Flatten(all + [rxs]) == Flatten(all) + rxs
  {
    if all == [] {
      assert [rxs][1..] == [];
      assert all + [rxs] == [rxs];
    } else {
      assert (all + [rxs])[1..] == all[1..] + [rxs];
      FlattenSnoc(all[1..], rxs);
      Assoc(all[0], Flatten(all[1..]), rxs);
    }
  }

  lemma NothingFlattened(ws: seq<Waiter>, topic: text)
    ensures Flatten([]) == [] && ws[..0] == [] && ws[0..] == ws
    ensures [] + OtherWaiters(ws, topic) == OtherWaiters(ws, topic)
    ensures [] + MatchingReceivers(ws, topic) == MatchingReceivers(ws, topic)
  {
  }

  /** The entry under the iterator, and the entries after it. */
  lemma NextWaiter(ws: seq<Waiter>, i: nat, topic: text)
    requires i < |ws|
    ensures var taken := TopicFilter.Matches(ws[i].filter, topic);
            && OtherWaiters(ws[i..], topic) == (if taken then [] else [ws[i]]) + OtherWaiters(ws[i + 1..], topic)
            && MatchingReceivers(ws[i..], topic)
               == (if taken then ws[i].receivers else []) + MatchingReceivers(ws[i + 1..], topic)
            && [] + OtherWaiters(ws[i + 1..], topic) == OtherWaiters(ws[i + 1..], topic)
            && [] + MatchingReceivers(ws[i + 1..], topic) == MatchingReceivers(ws[i + 1..], topic)
  {
    hide TopicFilter.Matches;
    assert ws[i..][0] == ws[i] && ws[i..][1..] == ws[i + 1..];
  }

  lemma Erased(ws: seq<Waiter>, i: nat)
    requires i < |ws|
    ensures Remove(ws, i)[i..] == ws[i + 1..] && Remove(ws, i)[..i] == ws[..i]
  {
  }

  lemma {:induction false} CallAllConcat(s: State, a: seq<Receiver>, b: seq<Receiver>, m: Publish)
    ensures CallAll(s, a + b, m) == CallAll(CallAll(s, a, m), b, m)
    decreases a
  {
    hide Engine.Callback;
    if a == [] {
      assert a + b == b;
    } else {
      assert (a + b)[0] == a[0] && (a + b)[1..] == a[1..] + b;
      CallAllConcat(Engine.Callback(s, a[0], Delivered(a[0].token, m)), a[1..], b, m);
    }
  }

  class Client {
    var nextId: uint16
    var published: seq<InFlight>
    var queue: seq<Pending>
    var subscribes: seq<OpenSubscribe>
    var unsubscribes: seq<OpenUnsubscribe>
    var waiters: seq<Waiter>
    var received: seq<Publish>
    var maxQuota: uint16
    var sendQuota: uint16
    var receiveQuota: uint16
    var receiveMaximum: uint16
    var issued: nat
    // packets written, calls made, and history
    var sent: seq<Packet>
    var log: seq<Event>
    ghost var started: seq<Pending>
    ghost var leaked: nat
    ghost var acknowledged: seq<Publish>
    ghost var finished: seq<Publish>
    ghost var direct: seq<Publish>
    ghost var released: seq<Publish>

    ghost function View(): State
      reads this
    {
      State(nextId, published, queue, subscribes, unsubscribes, waiters, received, maxQuota, sendQuota, receiveQuota,
            receiveMaximum, sent, log, started, issued, leaked, acknowledged, finished, direct, released)
    }

    constructor (receiveMaximum: uint16)
      ensures View() == Initial(receiveMaximum)
      ensures nextId == 1 && maxQuota == sendQuota == receiveQuota == 65535 && this.receiveMaximum == receiveMaximum
      ensures published == [] && queue == [] && subscribes == [] && unsubscribes == []
      ensures waiters == [] && received == [] && sent == [] && log == []
    {
      nextId := 1;
      published, queue, subscribes, unsubscribes, waiters, received := [], [], [], [], [], [];
      maxQuota, sendQuota, receiveQuota := 0xFFFF, 0xFFFF, 0xFFFF;
      this.receiveMaximum := receiveMaximum;
      issued, sent, log := 0, [], [];
      started, leaked, acknowledged, finished, direct, released := [], 0, [], [], [], [];
    }

    method NextPacketIdentifier() returns (id: uint16)
      modifies this
      ensures id == old(nextId)
      ensures View() == Allocate(old(View()))
    {
      id := nextId;
      nextId := Low16(nextId + 1);
      if nextId == 0 {
        nextId := 1;
      }
      issued := issued + 1;
    }

    method SendMessage(p: Packet)
      modifies this
      ensures View() == Send(old(View()), p)
    {
      sent := sent + [p];
    }

    // ---------------------------------------------------------------- starting operations

    /** The starter closure of a publish. */
    method LaunchPublish(p: Pending)
      modifies this
      ensures View() == Launch(old(View()), p)
    {
      sendQuota := Low16(sendQuota + 0xFFFF);
      SendMessage(PublishPacket(p.message));
      var state := WaitingPuback;
      if p.message.Qos() == 2 {
        state := WaitingPubrec;
      }
      published := published + [InFlight(p, state)];
    }

    method StartPublishing(m: Publish, rx: Receiver)
      modifies this
      ensures View() == Engine.Start(old(View()), StartPublish(m, rx))
      decreases rx, 2
    {
      if m.Qos() == 0 {
        SendMessage(PublishPacket(m));
        Call(rx, Sent(rx.token));
      } else {
        var serial := issued;
        var id := NextPacketIdentifier();
        var p := Pending(m.(packetIdentifier := id), rx, serial);
        started := started + [p];
        if sendQuota > 0 {
          LaunchPublish(p);
        } else {
          queue := queue + [p];
        }
      }
    }

    method StartSubscribing(m: Subscribe, rx: Receiver)
      modifies this
      ensures View() == Engine.Start(old(View()), StartSubscribe(m, rx))
    {
      var serial := issued;
      var id := NextPacketIdentifier();
      var n := m.(packetIdentifier := id);
      SendMessage(SubscribePacket(n));
      subscribes := subscribes + [OpenSubscribe(n, rx, serial)];
    }

    method StartUnsubscribing(m: Unsubscribe, rx: Receiver)
      modifies this
      ensures View() == Engine.Start(old(View()), StartUnsubscribe(m, rx))
    {
      var serial := issued;
      var id := NextPacketIdentifier();
      var n := m.(packetIdentifier := id);
      SendMessage(UnsubscribePacket(n));
      unsubscribes := unsubscribes + [OpenUnsubscribe(n, rx, serial)];
    }

    method StartWaitingOn(f: Filter, rx: Receiver)
      modifies this
      ensures View() == Engine.Start(old(View()), StartWaiting(f, rx))
    {
      var i := 0;
      while i < |waiters| && waiters[i].filter != f
        invariant i <= |waiters|
        invariant forall j :: 0 <= j < i ==> waiters[j].filter != f
      {
        i := i + 1;
      }
      if i < |waiters| {
        waiters := waiters[i := waiters[i].(receivers := waiters[i].receivers + [rx])];
      } else {
        waiters := waiters + [Waiter(f, [rx])];
      }
    }

    method Start(op: Op)
      modifies this
      ensures View() == Engine.Start(old(View()), op)
      decreases op, 1
    {
      match op
      case StartPublish(m, rx) => StartPublishing(m, rx);
      case StartSubscribe(m, rx) => StartSubscribing(m, rx);
      case StartUnsubscribe(m, rx) => StartUnsubscribing(m, rx);
      case StartWaiting(f, rx) => StartWaitingOn(f, rx);
    }

    /** A receiver is called and, before it returns, starts what it starts. */
    method Call(rx: Receiver, e: Event)
      modifies this
      ensures View() == Engine.Callback(old(View()), rx, e)
      decreases rx, 1
    {
      log := log + [e];
      ghost var before := View();
      var i := 0;
      while i < |rx.reaction|
        invariant i <= |rx.reaction|
        invariant RunOps(View(), rx.reaction[i..]) == RunOps(before, rx.reaction)
      {
        Start(rx.reaction[i]);
        i := i + 1;
      }
    }

    // ---------------------------------------------------------------- delivery

    /** Matching entries are erased first, since a called receiver may append to the waiters. */
    method TakeMatching(topic: text) returns (all: seq<seq<Receiver>>)
      modifies this`waiters
      ensures waiters == OtherWaiters(old(waiters), topic)
      ensures Flatten(all) == MatchingReceivers(old(waiters), topic)
    {
      hide TopicFilter.Matches, Flatten;
      all := [];
      NothingFlattened(waiters, topic);
      var iter := 0;
      while iter < |waiters|
        invariant iter <= |waiters|
        invariant waiters[..iter] + OtherWaiters(waiters[iter..], topic) == OtherWaiters(old(waiters), topic)
        invariant Flatten(all) + MatchingReceivers(waiters[iter..], topic) == MatchingReceivers(old(waiters), topic)
        decreases |waiters| - iter
      {
        var w := waiters[iter];
        NextWaiter(waiters, iter, topic);
        var matches := TopicFilter.MatchesName(w.filter, topic);
        if matches {
          FlattenSnoc(all, w.receivers);
          Assoc(Flatten(all), w.receivers, MatchingReceivers(waiters[iter + 1..], topic));
          all := all + [w.receivers];
          Erased(waiters, iter);
          waiters := Remove(waiters, iter);
        } else {
          Assoc(waiters[..iter], [w], OtherWaiters(waiters[iter + 1..], topic));
          assert waiters[..iter + 1] == waiters[..iter] + [w];
          iter := iter + 1;
        }
      }
      assert waiters[..iter] + [] == waiters && Flatten(all) + [] == Flatten(all);
    }

    method DeliverToPublishWaiters(m: Publish)
      modifies this
      ensures View() == Deliver(old(View()), m)
    {
      hide Engine.Callback;
      var all := TakeMatching(m.topic);
      ghost var before := View();
      var i := 0;
      while i < |all|
        invariant i <= |all|
        invariant CallAll(View(), Flatten(all[i..]), m) == CallAll(before, Flatten(all), m)
      {
        var rv := all[i];
        assert all[i..][1..] == all[i + 1..];
        CallAllConcat(View(), rv, Flatten(all[i + 1..]), m);
        CallEach(rv, m);
        i := i + 1;
      }
    }

    method CallEach(rxs: seq<Receiver>, m: Publish)
      modifies this
      ensures View() == CallAll(old(View()), rxs, m)
    {
      hide Engine.Callback;
      var j := 0;
      while j < |rxs|
        invariant j <= |rxs|
        invariant CallAll(View(), rxs[j..], m) == CallAll(old(View()), rxs, m)
      {
        assert rxs[j..][1..] == rxs[j + 1..];
        Call(rxs[j], Delivered(rxs[j].token, m));
        j := j + 1;
      }
    }

    // ---------------------------------------------------------------- packet handlers

    method MaybeSendQueuedPublish()
      modifies this
      ensures View() == MaybeSendQueued(old(View()))
    {
      if sendQuota < maxQuota {
        sendQuota := sendQuota + 1;
        if queue != [] {
          var next := queue[0];
          queue := queue[1..];
          LaunchPublish(next);
        }
      }
    }

    method FindPublished(id: uint16) returns (i: nat)
      ensures i == InFlightIndex(published, id)
    {
      i := 0;
      while i < |published| && published[i].Id() != id
        invariant i <= |published|
        invariant forall j :: 0 <= j < i ==> published[j].Id() != id
      {
        i := i + 1;
      }
    }

    method FindReceived(id: uint16) returns (i: nat)
      ensures i == ReceivedIndex(received, id)
    {
      i := 0;
      while i < |received| && received[i].packetIdentifier != id
        invariant i <= |received|
        invariant forall j :: 0 <= j < i ==> received[j].packetIdentifier != id
      {
        i := i + 1;
      }
    }

    /** Takes the i-th publish out of flight and calls its receiver. */
    method FinishPublish(i: nat, r: PublishResult)
      requires i < |published|
      modifies this
      ensures View() == Finish(old(View()), i, r)
    {
      var toFinish := published[i].pending;
      published := Remove(published, i);
      Call(toFinish.receiver, Completed(toFinish, r));
    }

    method CloseConnection()
      modifies this
      ensures View() == Close(old(View()))
    {
      log := log + [Closed];
    }

    method Connack(serverMaximum: uint16)
      modifies this
      ensures View() == HandleConnack(old(View()), serverMaximum)
    {
      maxQuota, sendQuota := serverMaximum, serverMaximum;
      receiveQuota := receiveMaximum;
    }

    method Puback(a: Ack)
      modifies this
      ensures View() == HandlePuback(old(View()), a)
    {
      var i := FindPublished(a.packetIdentifier);
      if i < |published| {
        if published[i].state == WaitingPuback {
          acknowledged := acknowledged + [published[i].pending.message];
          FinishPublish(i, Value(a.reasonCode));
        } else {
          FinishPublish(i, Done);
          CloseConnection();
        }
      }
      MaybeSendQueuedPublish();
    }

    method Pubrec(a: Ack)
      modifies this
      ensures View() == HandlePubrec(old(View()), a)
    {
      hide Finish;
      var i := FindPublished(a.packetIdentifier);
      var code, sendResponse := 0, true;
      if i == |published| {
        code := IDENTIFIER_NOT_FOUND;
      } else if a.reasonCode > NO_MATCHING_SUBSCRIBERS {
        leaked := leaked + 1;
        FinishPublish(i, Value(a.reasonCode));
        sendResponse := false;
      } else if published[i].state == WaitingPuback {
        leaked := leaked + 1;
        FinishPublish(i, Done);
        CloseConnection();
        sendResponse := false;
      } else {
        published := published[i := published[i].(state := WaitingPubcomp)];
      }
      if sendResponse {
        SendMessage(PubrelPacket(Reply(a.packetIdentifier, code)));
      }
    }

    method Pubcomp(a: Ack)
      modifies this
      ensures View() == HandlePubcomp(old(View()), a)
    {
      hide Finish;
      var i := FindPublished(a.packetIdentifier);
      if i < |published| {
        leaked := leaked + 1;
        finished := finished + [published[i].pending.message];
        FinishPublish(i, Value(a.reasonCode));
      }
    }

    method Suback(c: Codes)
      modifies this
      ensures View() == HandleSuback(old(View()), c)
    {
      var i := 0;
      while i < |subscribes| && subscribes[i].message.packetIdentifier != c.packetIdentifier
        invariant i <= |subscribes|
        invariant forall j :: 0 <= j < i ==> subscribes[j].message.packetIdentifier != c.packetIdentifier
      {
        i := i + 1;
      }
      if i < |subscribes| {
        var toFinish := subscribes[i];
        subscribes := Remove(subscribes, i);
        Call(toFinish.receiver, Subscribed(toFinish, c.reasonCodes));
      }
    }

    method Unsuback(c: Codes)
      modifies this
      ensures View() == HandleUnsuback(old(View()), c)
    {
      var i := 0;
      while i < |unsubscribes| && unsubscribes[i].message.packetIdentifier != c.packetIdentifier
        invariant i <= |unsubscribes|
        invariant forall j :: 0 <= j < i ==> unsubscribes[j].message.packetIdentifier != c.packetIdentifier
      {
        i := i + 1;
      }
      if i < |unsubscribes| {
        var toFinish := unsubscribes[i];
        unsubscribes := Remove(unsubscribes, i);
        Call(toFinish.receiver, Unsubscribed(toFinish, c.reasonCodes));
      }
    }

    method TakeQuota(m: Packets.Publish)
      modifies this
      ensures View() == TakeReceiveQuota(old(View()), m)
    {
      if m.Qos() != 0 {
        if receiveQuota > 0 {
          receiveQuota := receiveQuota - 1;
        } else {
          SendMessage(DisconnectPacket(Disconnect(QUOTA_EXCEEDED, Records.NO_DISCONNECT)));
          CloseConnection();
        }
      }
    }

    method Publish(m: Packets.Publish)
      modifies this
      ensures View() == HandlePublish(old(View()), m)
    {
      hide TakeReceiveQuota, Deliver;
      TakeQuota(m);
      var deliverToReceivers := true;
      if m.Qos() == 1 {
        SendMessage(PubackPacket(Reply(m.packetIdentifier, 0)));
      } else if m.Qos() == 2 {
        var i := FindReceived(m.packetIdentifier);
        deliverToReceivers := false;
        if i == |received| {
          received := received + [m];
        }
        SendMessage(PubrecPacket(Reply(m.packetIdentifier, 0)));
      }
      if deliverToReceivers {
        direct := direct + [m];
        DeliverToPublishWaiters(m);
      }
    }

    method Pubrel(a: Ack)
      modifies this
      ensures View() == HandlePubrel(old(View()), a)
    {
      hide Deliver;
      var i := FindReceived(a.packetIdentifier);
      var code, publish := 0, None;
      if i == |received| {
        code := IDENTIFIER_NOT_FOUND;
      } else {
        publish := Some(received[i]);
        released := released + [received[i]];
        received := Remove(received, i);
      }
      SendMessage(PubcompPacket(Reply(a.packetIdentifier, code)));
      if publish.Some? {
        DeliverToPublishWaiters(publish.value);
      }
    }

    method PubackSent()
      modifies this
      ensures View() == HandlePubackWritten(old(View()))
    {
      if receiveQuota < receiveMaximum {
        receiveQuota := receiveQuota + 1;
      }
    }

    /** One packet, one `start()`, or one finished write of a PUBACK. */
    method Handle(e: Input)
      modifies this
      ensures View() == Step(old(View()), e)
    {
      hide Engine.Start, HandlePuback, HandleSuback, HandleUnsuback, HandlePublish, HandlePubrec, HandlePubrel,
           HandlePubcomp;
      match e
      case App(op) => Start(op);
      case PubackWritten => PubackSent();
      case Recv(p) =>
        match p
        case PubackPacket(a) => Puback(a);
        case SubackPacket(c) => Suback(c);
        case UnsubackPacket(c) => Unsuback(c);
        case PublishPacket(m) => Publish(m);
        case PubrecPacket(a) => Pubrec(a);
        case PubrelPacket(a) => Pubrel(a);
        case PubcompPacket(a) => Pubcomp(a);
        case _ =>
    }

    /** A whole connected session. */
    method HandleAll(es: seq<Input>)
      modifies this
      ensures View() == Run(old(View()), es)
    {
      var i := 0;
      while i < |es|
        invariant i <= |es|
        invariant Run(View(), es[i..]) == Run(old(View()), es)
      {
        assert es[i..][1..] == es[i + 1..];
        Handle(es[i]);
        i := i + 1;
      }
    }
  }
}
