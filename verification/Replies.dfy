/** What the client writes of its own accord: the answer to every packet, with its codes as numbers,
    and that it writes nothing else (MQTT 5.0 sections 4.3 and 4.13). */
module Replies {
  import opened Bytes
  import opened Packets
  import Records
  import opened Engine
  import opened Starts
  import opened Receiving

  // ---------------------------------------------------------------- the answers

  /** The i-th message is the first in flight with the identifier. */
  predicate FirstInFlight(fs: seq<InFlight>, i: nat, id: uint16) {
    i < |fs| && fs[i].Id() == id && forall j :: 0 <= j < i ==> fs[j].Id() != id
  }

  function Plain(id: uint16, code: byte): Ack {
    Ack(id, code, Records.ReasonProperties(Records.Base([], []), []))
  }

  /** To a PUBLISH: a DISCONNECT (quota exceeded, 0x97) when it is one too many, then PUBACK or PUBREC
      with code 0 by its QoS. To a PUBREL: PUBCOMP, 0 or "identifier not found" (0x92). To a PUBREC:
      PUBREL, the same, but nothing when the code is an error (17 and above) or the message waits for
      a PUBACK. To anything else nothing. */
  function ReplyTo(s: State, p: Packet): seq<Packet> {
    match p
    case PublishPacket(m) =>
      (if m.flags / 2 % 4 != 0 && s.receiveQuota == 0
       then [DisconnectPacket(Disconnect(151, Records.DisconnectProperties(Records.Base([], []), 0, [], [])))] else [])
      + (if m.flags / 2 % 4 == 1 then [PubackPacket(Plain(m.packetIdentifier, 0))]
         else if m.flags / 2 % 4 == 2 then [PubrecPacket(Plain(m.packetIdentifier, 0))] else [])
    case PubrelPacket(a) =>
      var known := exists i :: 0 <= i < |s.received| && s.received[i].packetIdentifier == a.packetIdentifier;
      [PubcompPacket(Plain(a.packetIdentifier, if known then 0 else 146))]
    case PubrecPacket(a) =>
      if forall i :: 0 <= i < |s.published| ==> s.published[i].Id() != a.packetIdentifier then
        [PubrelPacket(Plain(a.packetIdentifier, 146))]
      else if a.reasonCode > 16
           || exists i :: 0 <= i < |s.published| && FirstInFlight(s.published, i, a.packetIdentifier)
                        && s.published[i].state == WaitingPuback
      then [] else [PubrelPacket(Plain(a.packetIdentifier, 0))]
    case _ => []
  }

  /** The reply comes first; after it only requests follow, of callbacks or of the queue. */
  predicate Writes(s: State, t: State, ps: seq<Packet>) {
    && s.sent + ps <= t.sent
    && forall i :: |s.sent| + |ps| <= i < |t.sent| ==> Request(t.sent[i])
  }

  lemma ThenExtends(s: State, t: State, u: State, ps: seq<Packet>)
    requires Writes(s, t, ps) && Extends(t, u)
    ensures Writes(s, u, ps)
  {
    hide Framed;
    forall i | |s.sent| + |ps| <= i < |u.sent| ensures Request(u.sent[i]) {
      if i < |t.sent| { assert u.sent[i] == t.sent[i]; }
    }
  }

  lemma FinishWrites(s: State, t: State, i: nat, r: PublishResult)
    requires i < |t.published| && t.sent == s.sent
    ensures Writes(s, Finish(t, i, r), []) && Writes(s, Close(Finish(t, i, r)), [])
  {
    hide Extends, Callback, Request;
    assert s.sent + [] == s.sent;
    var p := t.published[i].pending;
    var u := t.(published := Remove(t.published, i), log := t.log + [Completed(p, r)]);
    CallbackExtends(t.(published := Remove(t.published, i)), p.receiver, Completed(p, r));
    ThenExtends(s, u, Finish(t, i, r), []);
  }

  lemma MaybeSendWrites(s: State, t: State)
    requires Writes(s, t, [])
    ensures Writes(s, MaybeSendQueued(t), [])
  {
  }

  lemma PubackWrites(s: State, a: Ack)
    ensures Writes(s, HandlePuback(s, a), [])
  {
    hide Writes, Finish, Close, MaybeSendQueued;
    var i := InFlightIndex(s.published, a.packetIdentifier);
    if i == |s.published| {
      NothingWritten(s, s);
      MaybeSendWrites(s, s);
    } else {
      var t := s.(acknowledged := s.acknowledged + [s.published[i].pending.message]);
      FinishWrites(s, t, i, Value(a.reasonCode));
      MaybeSendWrites(s, Finish(t, i, Value(a.reasonCode)));
      FinishWrites(s, s, i, Done);
      MaybeSendWrites(s, Close(Finish(s, i, Done)));
    }
  }

  lemma NothingWritten(s: State, t: State)
    requires t.sent == s.sent
    ensures Writes(s, t, [])
  {
    assert s.sent + [] == s.sent;
  }

  lemma FirstIsIndex(fs: seq<InFlight>, id: uint16)
    ensures var i := InFlightIndex(fs, id);
            && (i == |fs| <==> forall j :: 0 <= j < |fs| ==> fs[j].Id() != id)
            && (forall j: nat :: FirstInFlight(fs, j, id) <==> i < |fs| && j == i)
  {
    hide InFlightIndex;
    var i := InFlightIndex(fs, id);
    if i < |fs| {
      assert fs[i].Id() == id;
    }
  }

  lemma PubrecWrites(s: State, a: Ack)
    ensures Writes(s, HandlePubrec(s, a), ReplyTo(s, PubrecPacket(a)))
  {
    hide Writes, Finish, Close, InFlightIndex;
    var i, id, l := InFlightIndex(s.published, a.packetIdentifier), a.packetIdentifier, s.(leaked := s.leaked + 1);
    FirstIsIndex(s.published, id);
    if i == |s.published| {
      OneWritten(s, HandlePubrec(s, a), PubrelPacket(Plain(id, 146)));
    } else {
      assert FirstInFlight(s.published, i, id);
      FinishWrites(s, l, i, Value(a.reasonCode));
      FinishWrites(s, l, i, Done);
      if a.reasonCode <= 16 && s.published[i].state != WaitingPuback {
        OneWritten(s, HandlePubrec(s, a), PubrelPacket(Plain(id, 0)));
      }
    }
  }

  lemma OneWritten(s: State, t: State, p: Packet)
    requires t.sent == s.sent + [p]
    ensures Writes(s, t, [p])
  {
  }

  lemma PubcompWrites(s: State, a: Ack)
    ensures Writes(s, HandlePubcomp(s, a), [])
  {
    hide Writes, Finish;
    var i := InFlightIndex(s.published, a.packetIdentifier);
    NothingWritten(s, s);
    if i < |s.published| {
      var t := s.(leaked := s.leaked + 1, finished := s.finished + [s.published[i].pending.message]);
      FinishWrites(s, t, i, Value(a.reasonCode));
    }
  }

  lemma CodesWrite(s: State, p: Packet)
    requires p.SubackPacket? || p.UnsubackPacket?
    ensures Writes(s, Step(s, Recv(p)), [])
  {
    StepReceivesNothing(s, Recv(p));
    hide Writes, Callback, Extends;
    NothingWritten(s, s);
    if p.SubackPacket? && SubscribeIndex(s.subscribes, p.codes.packetIdentifier) < |s.subscribes| {
      var i := SubscribeIndex(s.subscribes, p.codes.packetIdentifier);
      var t, o := s.(subscribes := Remove(s.subscribes, i)), s.subscribes[i];
      CallbackExtends(t, o.receiver, Subscribed(o, p.codes.reasonCodes));
      NothingWritten(s, t.(log := t.log + [Subscribed(o, p.codes.reasonCodes)]));
      ThenExtends(s, t.(log := t.log + [Subscribed(o, p.codes.reasonCodes)]), Step(s, Recv(p)), []);
    }
    if p.UnsubackPacket? && UnsubscribeIndex(s.unsubscribes, p.codes.packetIdentifier) < |s.unsubscribes| {
      var i := UnsubscribeIndex(s.unsubscribes, p.codes.packetIdentifier);
      var t, o := s.(unsubscribes := Remove(s.unsubscribes, i)), s.unsubscribes[i];
      CallbackExtends(t, o.receiver, Unsubscribed(o, p.codes.reasonCodes));
      NothingWritten(s, t.(log := t.log + [Unsubscribed(o, p.codes.reasonCodes)]));
      ThenExtends(s, t.(log := t.log + [Unsubscribed(o, p.codes.reasonCodes)]), Step(s, Recv(p)), []);
    }
  }

  lemma PublishWrites(s: State, m: Publish)
    ensures Writes(s, HandlePublish(s, m), ReplyTo(s, PublishPacket(m)))
  {
    hide Extends, Deliver, ReceivedIndex;
    var t := TakeReceiveQuota(s, m);
    var u := Send(t, PubackPacket(Reply(m.packetIdentifier, 0))).(direct := t.direct + [m]);
    assert s.sent + [] == s.sent;
    DeliverExtends(u, m);
    DeliverExtends(t.(direct := t.direct + [m]), m);
    if m.Qos() == 1 {
      ThenExtends(s, u, HandlePublish(s, m), ReplyTo(s, PublishPacket(m)));
    } else if m.Qos() != 2 {
      ThenExtends(s, t.(direct := t.direct + [m]), HandlePublish(s, m), ReplyTo(s, PublishPacket(m)));
    }
  }

  lemma PubrelWrites(s: State, a: Ack)
    ensures Writes(s, HandlePubrel(s, a), ReplyTo(s, PubrelPacket(a)))
  {
    hide Extends, Deliver, ReceivedIndex;
    var i, id := ReceivedIndex(s.received, a.packetIdentifier), a.packetIdentifier;
    if i < |s.received| {
      var u := Send(s.(received := Remove(s.received, i), released := s.released + [s.received[i]]),
                    PubcompPacket(Reply(id, 0)));
      DeliverExtends(u, s.received[i]);
      assert s.received[i].packetIdentifier == id;
      ThenExtends(s, u, HandlePubrel(s, a), ReplyTo(s, PubrelPacket(a)));
    }
  }

  function ReplyToInput(s: State, e: Input): seq<Packet> {
    if e.Recv? then ReplyTo(s, e.packet) else []
  }

  /** Every input is answered by its reply, before anything that callbacks write. */
  lemma StepWrites(s: State, e: Input)
    ensures Writes(s, Step(s, e), ReplyToInput(s, e))
  {
    hide Writes, Extends, Start, HandlePuback, HandlePubrec, HandlePubcomp, HandleSuback, HandleUnsuback,
         HandlePublish, HandlePubrel;
    NothingWritten(s, s);
    match e
    case App(op) =>
      StartExtends(s, op);
      ThenExtends(s, s, Start(s, op), []);
    case PubackWritten => NothingWritten(s, Step(s, e));
    case Recv(p) =>
      if p.PublishPacket? {
        PublishWrites(s, p.publish);
      } else if p.PubrelPacket? {
        PubrelWrites(s, p.ack);
      } else if p.PubackPacket? {
        PubackWrites(s, p.ack);
      } else if p.PubrecPacket? {
        PubrecWrites(s, p.ack);
      } else if p.PubcompPacket? {
        PubcompWrites(s, p.ack);
      } else if p.SubackPacket? || p.UnsubackPacket? {
        CodesWrite(s, p);
      }
  }

  // ---------------------------------------------------------------- whole runs

  /** What the client wrote that nobody asked it to start. */
  function OwnIn(sent: seq<Packet>): seq<Packet> {
    if sent == [] then []
    else
      var n, p := |sent| - 1, sent[|sent| - 1];
      OwnIn(sent[..n]) + (if p.PublishPacket? || p.SubscribePacket? || p.UnsubscribePacket? then [] else [p])
  }

  function RepliesDue(s: State, es: seq<Input>): seq<Packet>
    decreases |es|
  {
    if es == [] then []
    else
      var n := |es| - 1;
      RepliesDue(s, es[..n]) + ReplyToInput(Run(s, es[..n]), es[n])
  }

  lemma {:induction false} OwnConcat(a: seq<Packet>, b: seq<Packet>)
    ensures OwnIn(a + b) == OwnIn(a) + OwnIn(b)
    decreases |b|
  {
    if b == [] {
      assert a + b == a;
    } else {
      var n := |b| - 1;
      assert (a + b)[..|a| + n] == a + b[..n];
      OwnConcat(a, b[..n]);
    }
  }

  lemma {:induction false} AllOwn(ps: seq<Packet>, requests: bool)
    requires forall i :: 0 <= i < |ps| ==> Request(ps[i]) == requests
    ensures OwnIn(ps) == if requests then [] else ps
    decreases |ps|
  {
    if ps != [] {
      var n := |ps| - 1;
      AllOwn(ps[..n], requests);
      assert Request(ps[n]) == requests;
      assert ps[..n] + [ps[n]] == ps;
    }
  }

  lemma WritesOwn(s: State, t: State, ps: seq<Packet>)
    requires Writes(s, t, ps) && forall i :: 0 <= i < |ps| ==> !Request(ps[i])
    ensures OwnIn(t.sent) == OwnIn(s.sent) + ps
  {
    hide OwnIn;
    var rest := t.sent[|s.sent + ps|..];
    assert t.sent == (s.sent + ps) + rest;
    OwnConcat(s.sent + ps, rest);
    OwnConcat(s.sent, ps);
    AllOwn(ps, false);
    AllOwn(rest, true);
  }

  lemma RepliesAreOwn(s: State, e: Input)
    ensures forall i :: 0 <= i < |ReplyToInput(s, e)| ==> !Request(ReplyToInput(s, e)[i])
  {
  }

  /** Over every run: the acknowledgements and DISCONNECTs written are exactly the replies due, one
      after the other. */
  lemma {:induction false} RepliesAreExact(s: State, es: seq<Input>)
    ensures OwnIn(Run(s, es).sent) == OwnIn(s.sent) + RepliesDue(s, es)
    decreases |es|
  {
    hide OwnIn, Step, ReplyToInput, Writes;
    if es == [] {
      assert OwnIn(s.sent) + [] == OwnIn(s.sent);
    } else {
      var n := |es| - 1;
      var t := Run(s, es[..n]);
      assert es == es[..n] + [es[n]];
      RunSnoc(s, es[..n], es[n]);
      RepliesAreExact(s, es[..n]);
      StepWrites(t, es[n]);
      RepliesAreOwn(t, es[n]);
      WritesOwn(t, Step(t, es[n]), ReplyToInput(t, es[n]));
      Assoc(OwnIn(s.sent), RepliesDue(s, es[..n]), ReplyToInput(t, es[n]));
    }
  }

  // ---------------------------------------------------------------- PUBREC

  /** For a message that does not wait for a PUBACK, a PUBREC with any code up to 16 leaves it in
      flight, now waiting for PUBCOMP, tells nobody anything, and is answered by a PUBREL with code 0;
      one with any code from 17 up completes it with that code, takes it out of flight, and is not
      answered. */
  lemma PubrecThreshold(s: State, a: Ack, i: nat)
    requires FirstInFlight(s.published, i, a.packetIdentifier) && s.published[i].state != WaitingPuback
    ensures var t := Step(s, Recv(PubrecPacket(a)));
            if a.reasonCode <= 16 then
              && t.published == s.published[i := InFlight(s.published[i].pending, WaitingPubcomp)]
              && t.log == s.log && t.sent == s.sent + [PubrelPacket(Plain(a.packetIdentifier, 0))]
            else
              && s.published[..i] + s.published[i + 1..] <= t.published
              && s.log + [Completed(s.published[i].pending, Value(a.reasonCode))] <= t.log
              && (forall k :: |s.sent| <= k < |t.sent| ==> Request(t.sent[k]))
  {
    FirstIsIndex(s.published, a.packetIdentifier);
    var u, p := s.(leaked := s.leaked + 1, published := Remove(s.published, i)), s.published[i].pending;
    CallbackExtends(u, p.receiver, Completed(p, Value(a.reasonCode)));
    StepWrites(s, Recv(PubrecPacket(a)));
    hide Callback, InFlightIndex, Fresh;
  }

  // ---------------------------------------------------------------- everything else

  /** Packets that a connected client has no handler for change nothing at all, and a written PUBACK
      nothing but the receive quota. */
  lemma OthersAreIgnored(s: State, p: Packet)
    requires p.ConnectPacket? || p.ConnackPacket? || p.SubscribePacket? || p.UnsubscribePacket?
          || p.PingreqPacket? || p.PingrespPacket? || p.DisconnectPacket?
    ensures Step(s, Recv(p)) == s
    ensures Step(s, PubackWritten) == s.(receiveQuota := Step(s, PubackWritten).receiveQuota)
  {
  }
}
