/** Sessions over bytes: what a client writes in any session is carried by the codec unchanged, so
    the packets that a peer reads off the socket, however it cuts them, are the packets written. */
module EndToEnd {
  import opened Bytes
  import opened Packets
  import opened PacketRoundTrips
  import opened RecordRoundTrips
  import opened Streams
  import opened Engine
  import opened Starts
  import Records
  import VarInt

  /** A packet that the client makes by itself, without the application. */
  predicate Own(p: Packet) {
    match p
    case PubackPacket(a) => a.properties == Records.NO_REASON
    case PubrecPacket(a) => a.properties == Records.NO_REASON
    case PubrelPacket(a) => a.properties == Records.NO_REASON
    case PubcompPacket(a) => a.properties == Records.NO_REASON
    case DisconnectPacket(d) => d.properties == Records.NO_DISCONNECT
    case _ => false
  }

  predicate Written(ps: seq<Packet>) {
    forall i :: 0 <= i < |ps| ==> Request(ps[i]) || Own(ps[i])
  }

  lemma DeliverWrites(s: State, m: Publish)
    requires Written(s.sent)
    ensures Written(Deliver(s, m).sent)
  {
    hide Deliver;
    DeliverExtends(s, m);
  }

  lemma StepWrites(s: State, e: Input)
    requires Written(s.sent)
    ensures Written(Step(s, e).sent)
  {
    hide Deliver, HandlePuback, HandleSuback, HandleUnsuback, HandlePubrec, HandlePubcomp, Start, ReceivedIndex;
    if !Receives(e) {
      StepReceivesNothing(s, e);
    } else if e.Recv? && e.packet.PublishPacket? {
      var m := e.packet.publish;
      var t := TakeReceiveQuota(s, m);
      DeliverWrites(Send(t, PubackPacket(Reply(m.packetIdentifier, 0))).(direct := t.direct + [m]), m);
      DeliverWrites(t.(direct := t.direct + [m]), m);
    } else if e.Recv? {
      var i, id := ReceivedIndex(s.received, e.packet.ack.packetIdentifier), e.packet.ack.packetIdentifier;
      if i < |s.received| {
        DeliverWrites(Send(s.(received := Remove(s.received, i), released := s.released + [s.received[i]]),
                           PubcompPacket(Reply(id, 0))), s.received[i]);
      }
    }
  }

  lemma {:induction false} RunWrites(s: State, es: seq<Input>)
    requires Written(s.sent)
    ensures Written(Run(s, es).sent)
    decreases es
  {
    hide Step, Written;
    if es != [] {
      StepWrites(s, es[0]);
      RunWrites(Step(s, es[0]), es[1..]);
    }
  }

  lemma OwnIsCarried(p: Packet)
    requires Own(p)
    ensures Sendable(p) && Faithful(p)
  {
    EmptyRecord(Records.ReasonEntries(Records.NO_REASON));
    EmptyRecord(Records.DisconnectEntries(Records.NO_DISCONNECT));
    assert |PrintBody(p).value| <= 4;
    VarInt.EncodeLength(|PrintBody(p).value|, 1);
  }

  lemma {:induction false} PrintStreamConcat(ps: seq<Packet>, qs: seq<Packet>)
    requires AllSendable(ps) && AllSendable(qs)
    ensures AllSendable(ps + qs) && PrintStream(ps + qs) == PrintStream(ps) + PrintStream(qs)
  {
    hide Sendable, Wire;
    if ps == [] {
      assert ps + qs == qs;
    } else {
      assert (ps + qs)[1..] == ps[1..] + qs;
      PrintStreamConcat(ps[1..], qs);
      Assoc(Wire(ps[0]), PrintStream(ps[1..]), PrintStream(qs));
    }
  }

  /** In any session whose requests the printer carries unchanged, everything is: the first r packets
      read from the bytes written so far are the first r packets written, and the bytes of the others
      are what is left. This is the position that a peer's reading has in `Duplex.World`. */
  lemma BytesCarryPackets(receiveMaximum: uint16, serverMaximum: uint16, es: seq<Input>, r: nat)
    requires var t := Run(Connected(receiveMaximum, serverMaximum), es);
             r <= |t.sent| && forall p :: p in t.sent && Request(p) ==> Sendable(p) && Faithful(p)
    ensures var t := Run(Connected(receiveMaximum, serverMaximum), es);
            && AllSendable(t.sent) && AllSendable(t.sent[r..])
            && ReadMany(PrintStream(t.sent), r) == Some((t.sent[..r], PrintStream(t.sent[r..])))
  {
    hide Sendable, Faithful, Run, PrintStream, ReadMany;
    var ps := Run(Connected(receiveMaximum, serverMaximum), es).sent;
    RunWrites(Connected(receiveMaximum, serverMaximum), es);
    forall i | 0 <= i < |ps| ensures Sendable(ps[i]) && Faithful(ps[i]) {
      assert ps[i] in ps;
      if !Request(ps[i]) {
        OwnIsCarried(ps[i]);
      }
    }
    forall i | 0 <= i < r ensures Agrees(ps[..r][i]) {
      FaithfulIsUnchanged(ps[i]);
    }
    assert ps == ps[..r] + ps[r..];
    PrintStreamConcat(ps[..r], ps[r..]);
    StreamRoundTrip(ps[..r], PrintStream(ps[r..]));
    UnchangedWhenFaithful(ps[..r]);
  }
}
