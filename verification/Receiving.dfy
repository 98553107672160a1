/** Exactly-once receipt (MQTT 5.0 section 4.3.3) against any packets whatsoever: which messages the
    QoS 2 table holds, which are delivered, and how every PUBLISH and PUBREL is answered. The
    statements are about the inputs alone; operations started meanwhile make no difference. */
module Receiving {
  import opened Bytes
  import opened Packets
  import Records
  import opened Engine
  import opened Starts

  // ---------------------------------------------------------------- what was received

  predicate Publishes(e: Input, id: uint16) {
    e.Recv? && e.packet.PublishPacket? && e.packet.publish.Qos() == 2 && e.packet.publish.packetIdentifier == id
  }

  predicate Releases(e: Input, id: uint16) {
    e.Recv? && e.packet.PubrelPacket? && e.packet.ack.packetIdentifier == id
  }

  /** The i-th input is the first PUBLISH with its identifier since the last PUBREL for it. */
  predicate Opens(es: seq<Input>, i: nat, id: uint16) {
    && i < |es| && Publishes(es[i], id)
    && (forall j :: i < j < |es| ==> !Releases(es[j], id))
    && (forall j :: 0 <= j < i && Publishes(es[j], id) ==> exists k :: j < k < i && Releases(es[k], id))
  }

  /** The same, found by going through the inputs. */
  function OpenAt(es: seq<Input>, id: uint16): (r: Option<nat>)
    ensures r.Some? ==> Opens(es, r.value, id)
    ensures r.None? ==> forall j :: 0 <= j < |es| && Publishes(es[j], id) ==>
              exists k :: j < k < |es| && Releases(es[k], id)
  {
    if es == [] then None
    else
      var n := |es| - 1;
      var before := OpenAt(es[..n], id);
      if Releases(es[n], id) then None
      else if Publishes(es[n], id) && before.None? then Some(n)
      else before
  }

  /** The PUBLISH inputs whose message was released, in the order of the PUBRELs that did it. */
  function ReleasedAt(es: seq<Input>): (r: seq<nat>)
    ensures forall x :: x in r ==> x < |es| && es[x].Recv? && es[x].packet.PublishPacket?
  {
    if es == [] then []
    else
      var n, e := |es| - 1, es[|es| - 1];
      var before := ReleasedAt(es[..n]);
      if e.Recv? && e.packet.PubrelPacket? then
        var open := OpenAt(es[..n], e.packet.ack.packetIdentifier);
        if open.Some? then before + [open.value] else before
      else before
  }

  function MessagesAt(es: seq<Input>, at: seq<nat>): seq<Publish>
    requires forall x :: x in at ==> x < |es| && es[x].Recv? && es[x].packet.PublishPacket?
  {
    seq(|at|, i requires 0 <= i < |at| => assert at[i] in at; es[at[i]].packet.publish)
  }

  /** A PUBREC for every QoS 2 PUBLISH and a PUBCOMP for every PUBREL, "not found" when nothing is
      open. */
  function AnswerTo(es: seq<Input>, e: Input): seq<Packet> {
    if !e.Recv? then []
    else match e.packet
      case PublishPacket(m) => if m.Qos() == 2 then [PubrecPacket(Reply(m.packetIdentifier, 0))] else []
      case PubrelPacket(a) =>
        var code := if OpenAt(es, a.packetIdentifier).Some? then 0 else 146;
        [PubcompPacket(Reply(a.packetIdentifier, code))]
      case _ => []
  }

  function AnswersTo(es: seq<Input>): seq<Packet> {
    if es == [] then []
    else
      var n := |es| - 1;
      AnswersTo(es[..n]) + AnswerTo(es[..n], es[n])
  }

  function Answers(sent: seq<Packet>): seq<Packet> {
    if sent == [] then []
    else
      var n, p := |sent| - 1, sent[|sent| - 1];
      Answers(sent[..n]) + (if p.PubrecPacket? || p.PubcompPacket? then [p] else [])
  }

  // ---------------------------------------------------------------- the table

  predicate UniqueIdentifiers(ms: seq<Publish>) {
    forall i, j :: 0 <= i < j < |ms| ==> ms[i].packetIdentifier != ms[j].packetIdentifier
  }

  /** The entry for an identifier is the message that opened it. */
  predicate Tracks(ms: seq<Publish>, es: seq<Input>, id: uint16) {
    var i, open := ReceivedIndex(ms, id), OpenAt(es, id);
    if i < |ms| then open.Some? && es[open.value].packet.publish == ms[i] else open.None?
  }

  predicate Exact(s: State, es: seq<Input>) {
    && UniqueIdentifiers(s.received)
    && (forall id :: Tracks(s.received, es, id))
    && s.released == MessagesAt(es, ReleasedAt(es))
    && Answers(s.sent) == AnswersTo(es)
  }

  // ---------------------------------------------------------------- one more input

  lemma AnswersSnoc(sent: seq<Packet>, p: Packet)
    ensures Answers(sent + [p]) == Answers(sent) + (if p.PubrecPacket? || p.PubcompPacket? then [p] else [])
  {
    assert (sent + [p])[..|sent|] == sent;
  }

  lemma AnswersToSnoc(es: seq<Input>, e: Input)
    ensures AnswersTo(es + [e]) == AnswersTo(es) + AnswerTo(es, e)
  {
    hide OpenAt, AnswerTo;
    assert (es + [e])[..|es|] == es;
  }

  lemma {:induction false} AnswersUnchanged(s: seq<Packet>, t: seq<Packet>)
    requires s <= t && forall i :: |s| <= i < |t| ==> !t[i].PubrecPacket? && !t[i].PubcompPacket?
    ensures Answers(t) == Answers(s)
    decreases |t|
  {
    if |s| < |t| {
      AnswersUnchanged(s, t[..|t| - 1]);
    } else {
      assert s == t;
    }
  }

  lemma OtherInput(es: seq<Input>, e: Input, id: uint16)
    requires !Publishes(e, id) && !Releases(e, id)
    ensures OpenAt(es + [e], id) == OpenAt(es, id)
  {
    assert (es + [e])[..|es|] == es;
  }

  lemma MessagesAtSnoc(es: seq<Input>, e: Input)
    ensures (es + [e])[..|es|] == es
    ensures MessagesAt(es + [e], ReleasedAt(es)) == MessagesAt(es, ReleasedAt(es))
  {
  }

  lemma IndexIn(ms: seq<Publish>, k: nat)
    requires UniqueIdentifiers(ms) && k < |ms|
    ensures ReceivedIndex(ms, ms[k].packetIdentifier) == k
  {
  }

  /** An input that is neither a QoS 2 PUBLISH nor a PUBREL, and anything that only sends requests. */
  lemma NothingExact(s: State, es: seq<Input>, e: Input, t: State)
    requires Exact(s, es) && t.received == s.received && t.released == s.released
    requires forall id :: !Publishes(e, id) && !Releases(e, id)
    requires s.sent <= t.sent
    requires forall i :: |s.sent| <= i < |t.sent| ==> !t.sent[i].PubrecPacket? && !t.sent[i].PubcompPacket?
    ensures Exact(t, es + [e])
  {
    hide OpenAt, Answers, AnswersTo;
    MessagesAtSnoc(es, e);
    AnswersToSnoc(es, e);
    AnswersUnchanged(s.sent, t.sent);
    assert e.Recv? && e.packet.PublishPacket? ==> !Publishes(e, e.packet.publish.packetIdentifier);
    assert e.Recv? && e.packet.PubrelPacket? ==> !Releases(e, e.packet.ack.packetIdentifier);
    forall id ensures Tracks(t.received, es + [e], id) {
      assert Tracks(s.received, es, id);
      OtherInput(es, e, id);
    }
  }

  lemma PublishTable(ms: seq<Publish>, es: seq<Input>, m: Publish, id: uint16)
    requires Tracks(ms, es, id) && Tracks(ms, es, m.packetIdentifier) && m.Qos() == 2
    ensures var i := ReceivedIndex(ms, m.packetIdentifier);
            Tracks(if i == |ms| then ms + [m] else ms, es + [Recv(PublishPacket(m))], id)
  {
    var e, i := Recv(PublishPacket(m)), ReceivedIndex(ms, m.packetIdentifier);
    assert (es + [e])[..|es|] == es;
    IndexSnoc(ms, m, id);
    if id != m.packetIdentifier {
      hide OpenAt;
      OtherInput(es, e, id);
    }
  }

  lemma {:induction false} IndexSnoc(ms: seq<Publish>, m: Publish, id: uint16)
    ensures var i := ReceivedIndex(ms, id);
            ReceivedIndex(ms + [m], id) == if i < |ms| || m.packetIdentifier == id then i else i + 1
  {
    var i, j := ReceivedIndex(ms, id), ReceivedIndex(ms + [m], id);
    if i < |ms| {
      assert (ms + [m])[i] == ms[i];
    } else {
      assert (ms + [m])[i] == m;
    }
    if j < |ms| {
      assert (ms + [m])[j] == ms[j];
    }
  }

  lemma ReleaseCloses(es: seq<Input>, a: Ack)
    ensures OpenAt(es + [Recv(PubrelPacket(a))], a.packetIdentifier) == None
  {
  }

  lemma RemoveOwn(ms: seq<Publish>, es: seq<Input>, a: Ack)
    requires UniqueIdentifiers(ms)
    ensures var i := ReceivedIndex(ms, a.packetIdentifier);
            Tracks(if i < |ms| then Remove(ms, i) else ms, es + [Recv(PubrelPacket(a))], a.packetIdentifier)
  {
    hide OpenAt;
    ReleaseCloses(es, a);
    var i := ReceivedIndex(ms, a.packetIdentifier);
    if i < |ms| {
      OwnIndexAfterRemoval(ms, i);
    }
  }

  lemma OwnIndexAfterRemoval(ms: seq<Publish>, i: nat)
    requires i < |ms| && UniqueIdentifiers(ms)
    ensures ReceivedIndex(Remove(ms, i), ms[i].packetIdentifier) == |Remove(ms, i)|
  {
    hide ReceivedIndex;
    var left, k := Remove(ms, i), ReceivedIndex(Remove(ms, i), ms[i].packetIdentifier);
    assert forall j :: 0 <= j < |left| ==> left[j] == ms[if j < i then j else j + 1];
  }

  lemma RemoveOther(ms: seq<Publish>, es: seq<Input>, a: Ack, id: uint16)
    requires UniqueIdentifiers(ms) && Tracks(ms, es, id) && id != a.packetIdentifier
    ensures var i := ReceivedIndex(ms, a.packetIdentifier);
            Tracks(if i < |ms| then Remove(ms, i) else ms, es + [Recv(PubrelPacket(a))], id)
  {
    hide OpenAt, ReceivedIndex, UniqueIdentifiers;
    var i := ReceivedIndex(ms, a.packetIdentifier);
    OtherInput(es, Recv(PubrelPacket(a)), id);
    OldOpens(es, Recv(PubrelPacket(a)), id);
    if i < |ms| {
      IndexAfterRemoval(ms, i, id);
    }
  }

  lemma OldOpens(es: seq<Input>, e: Input, id: uint16)
    ensures var open := OpenAt(es, id); open.Some? ==> (es + [e])[open.value] == es[open.value]
  {
    hide OpenAt;
  }

  lemma IndexAfterRemoval(ms: seq<Publish>, i: nat, id: uint16)
    requires i < |ms| && UniqueIdentifiers(ms) && ms[i].packetIdentifier != id
    ensures var j, k := ReceivedIndex(ms, id), ReceivedIndex(Remove(ms, i), id);
            if j < |ms| then k < |Remove(ms, i)| && Remove(ms, i)[k] == ms[j] else k == |Remove(ms, i)|
  {
    hide ReceivedIndex;
    var j, k := ReceivedIndex(ms, id), ReceivedIndex(Remove(ms, i), id);
    var left := Remove(ms, i);
    if j < |ms| {
      assert left[if j < i then j else j - 1] == ms[j];
    }
    if k < |left| {
      assert left[k] == ms[if k < i then k else k + 1];
    }
  }

  /** The table's part of a QoS 2 PUBLISH, before the answer and the quota. */
  lemma PublishExact(s: State, es: seq<Input>, m: Publish)
    requires Exact(s, es) && m.Qos() == 2
    ensures Exact(HandlePublish(s, m), es + [Recv(PublishPacket(m))])
  {
    hide OpenAt, Answers, AnswersTo;
    var e, u, t := Recv(PublishPacket(m)), TakeReceiveQuota(s, m), HandlePublish(s, m);
    MessagesAtSnoc(es, e);
    AnswersToSnoc(es, e);
    AnswersUnchanged(s.sent, u.sent);
    AnswersSnoc(u.sent, PubrecPacket(Reply(m.packetIdentifier, 0)));
    assert Tracks(s.received, es, m.packetIdentifier);
    forall id ensures Tracks(t.received, es + [e], id) {
      assert Tracks(s.received, es, id);
      PublishTable(s.received, es, m, id);
    }
  }

  lemma RemoveUnique(ms: seq<Publish>, i: nat)
    requires UniqueIdentifiers(ms) && i < |ms|
    ensures UniqueIdentifiers(Remove(ms, i))
  {
    var left := Remove(ms, i);
    assert forall j :: 0 <= j < |left| ==> left[j] == ms[if j < i then j else j + 1];
  }

  lemma RemoveTables(ms: seq<Publish>, es: seq<Input>, a: Ack)
    requires UniqueIdentifiers(ms) && forall id :: Tracks(ms, es, id)
    ensures var i := ReceivedIndex(ms, a.packetIdentifier);
            var left := if i < |ms| then Remove(ms, i) else ms;
            UniqueIdentifiers(left) && forall id :: Tracks(left, es + [Recv(PubrelPacket(a))], id)
  {
    hide OpenAt, Tracks, UniqueIdentifiers, ReceivedIndex, Remove;
    var i := ReceivedIndex(ms, a.packetIdentifier);
    var left := if i < |ms| then Remove(ms, i) else ms;
    if i < |ms| {
      RemoveUnique(ms, i);
    }
    forall id ensures Tracks(left, es + [Recv(PubrelPacket(a))], id) {
      if id == a.packetIdentifier {
        RemoveOwn(ms, es, a);
      } else {
        assert Tracks(ms, es, id);
        RemoveOther(ms, es, a, id);
      }
    }
  }

  lemma DeliverAnswersNothing(s: State, m: Publish)
    ensures var t := Deliver(s, m);
            Answers(t.sent) == Answers(s.sent) && t.received == s.received && t.released == s.released
  {
    hide Deliver;
    DeliverExtends(s, m);
    AnswersUnchanged(s.sent, Deliver(s, m).sent);
  }

  lemma PubrelReleases(s: State, es: seq<Input>, a: Ack)
    requires Tracks(s.received, es, a.packetIdentifier)
    requires s.released == MessagesAt(es, ReleasedAt(es))
    ensures var e, t := Recv(PubrelPacket(a)), HandlePubrel(s, a);
            t.released == MessagesAt(es + [e], ReleasedAt(es + [e]))
  {
    hide OpenAt, Deliver;
    MessagesAtSnoc(es, Recv(PubrelPacket(a)));
    var i := ReceivedIndex(s.received, a.packetIdentifier);
    if i < |s.received| {
      var u := Send(s.(received := Remove(s.received, i), released := s.released + [s.received[i]]),
                    PubcompPacket(Reply(a.packetIdentifier, 0)));
      DeliverAnswersNothing(u, s.received[i]);
      ReleasedGrows(es, a);
    }
  }

  lemma PubrelAnswers(s: State, es: seq<Input>, a: Ack)
    requires Tracks(s.received, es, a.packetIdentifier) && Answers(s.sent) == AnswersTo(es)
    ensures var e, t := Recv(PubrelPacket(a)), HandlePubrel(s, a); Answers(t.sent) == AnswersTo(es + [e])
  {
    hide OpenAt, Deliver, Answers, AnswersTo, ReceivedIndex;
    var i, id := ReceivedIndex(s.received, a.packetIdentifier), a.packetIdentifier;
    var reply := PubcompPacket(Reply(id, if i == |s.received| then IDENTIFIER_NOT_FOUND else 0));
    AnswersToSnoc(es, Recv(PubrelPacket(a)));
    AnswersSnoc(s.sent, reply);
    if i < |s.received| {
      var u := Send(s.(received := Remove(s.received, i), released := s.released + [s.received[i]]), reply);
      DeliverAnswersNothing(u, s.received[i]);
    }
  }

  lemma PubrelExact(s: State, es: seq<Input>, a: Ack)
    requires Exact(s, es)
    ensures Exact(HandlePubrel(s, a), es + [Recv(PubrelPacket(a))])
  {
    hide Tracks, UniqueIdentifiers, Answers, AnswersTo, MessagesAt, ReleasedAt, Deliver;
    assert Tracks(s.received, es, a.packetIdentifier);
    PubrelReleases(s, es, a);
    PubrelAnswers(s, es, a);
    RemoveTables(s.received, es, a);
    var i := ReceivedIndex(s.received, a.packetIdentifier);
    if i < |s.received| {
      DeliverAnswersNothing(Send(s.(received := Remove(s.received, i), released := s.released + [s.received[i]]),
                                 PubcompPacket(Reply(a.packetIdentifier, 0))), s.received[i]);
    }
  }

  lemma ReleasedGrows(es: seq<Input>, a: Ack)
    requires OpenAt(es, a.packetIdentifier).Some?
    ensures var e, open := Recv(PubrelPacket(a)), OpenAt(es, a.packetIdentifier).value;
            MessagesAt(es + [e], ReleasedAt(es + [e])) == MessagesAt(es, ReleasedAt(es)) + [es[open].packet.publish]
  {
    hide OpenAt;
    MessagesAtSnoc(es, Recv(PubrelPacket(a)));
  }

  lemma OtherPublishExact(s: State, es: seq<Input>, m: Publish)
    requires Exact(s, es) && m.Qos() != 2
    ensures Exact(HandlePublish(s, m), es + [Recv(PublishPacket(m))])
  {
    hide Exact, Deliver;
    var t := TakeReceiveQuota(s, m);
    var v := if m.Qos() == 1 then Send(t, PubackPacket(Reply(m.packetIdentifier, 0))) else t;
    var u := v.(direct := t.direct + [m]);
    DeliverExtends(u, m);
    NothingExact(s, es, Recv(PublishPacket(m)), Deliver(u, m));
  }

  lemma StepExact(s: State, es: seq<Input>, e: Input)
    requires Exact(s, es)
    ensures Exact(Step(s, e), es + [e])
  {
    hide Exact, HandlePuback, HandleSuback, HandleUnsuback, HandlePubrec, HandlePubcomp, HandlePubrel, HandlePublish,
         Start;
    if !Receives(e) {
      StepReceivesNothing(s, e);
      NothingExact(s, es, e, Step(s, e));
    } else if e.PubackWritten? {
      NothingExact(s, es, e, Step(s, e));
    } else if e.packet.PubrelPacket? {
      PubrelExact(s, es, e.packet.ack);
    } else if e.packet.publish.Qos() == 2 {
      PublishExact(s, es, e.packet.publish);
    } else {
      OtherPublishExact(s, es, e.packet.publish);
    }
  }

  // ---------------------------------------------------------------- whole runs

  lemma {:induction false} RunSnoc(s: State, es: seq<Input>, e: Input)
    ensures Run(s, es + [e]) == Step(Run(s, es), e)
    decreases es
  {
    if es == [] {
      assert es + [e] == [e];
    } else {
      assert (es + [e])[1..] == es[1..] + [e];
      RunSnoc(Step(s, es[0]), es[1..], e);
    }
  }

  lemma {:induction false} RunExact(s: State, es: seq<Input>)
    requires s.received == [] && s.released == [] && s.sent == []
    ensures Exact(Run(s, es), es)
    decreases |es|
  {
    if es != [] {
      var n := |es| - 1;
      assert es == es[..n] + [es[n]];
      RunSnoc(s, es[..n], es[n]);
      RunExact(s, es[..n]);
      StepExact(Run(s, es[..n]), es[..n], es[n]);
    }
  }

  lemma OpenAtExactly(es: seq<Input>, i: nat, id: uint16)
    ensures OpenAt(es, id) == Some(i) <==> Opens(es, i, id)
  {
    hide OpenAt;
    if Opens(es, i, id) {
      var open := OpenAt(es, id);
      assert Publishes(es[i], id);
    }
  }

  /** At every moment of every session the table holds, for each identifier, the first PUBLISH since
      the last PUBREL for that identifier, and nothing else; the messages released are those, once
      per PUBREL that found one; and each packet got its answer. */
  lemma ExactlyOnceReceipt(receiveMaximum: uint16, serverMaximum: uint16, es: seq<Input>)
    ensures var t := Run(Connected(receiveMaximum, serverMaximum), es);
            && UniqueIdentifiers(t.received)
            && (forall m :: m in t.received <==>
                  exists i: nat :: Opens(es, i, m.packetIdentifier) && es[i].packet.publish == m)
            && t.released == MessagesAt(es, ReleasedAt(es))
            && Answers(t.sent) == AnswersTo(es)
  {
    hide OpenAt;
    var t := Run(Connected(receiveMaximum, serverMaximum), es);
    RunExact(Connected(receiveMaximum, serverMaximum), es);
    forall m
      ensures m in t.received <==> exists i: nat :: Opens(es, i, m.packetIdentifier) && es[i].packet.publish == m
    {
      var id := m.packetIdentifier;
      assert Tracks(t.received, es, id);
      if m in t.received {
        var k :| 0 <= k < |t.received| && t.received[k] == m;
        IndexIn(t.received, k);
      }
      if i: nat :| Opens(es, i, id) && es[i].packet.publish == m {
        OpenAtExactly(es, i, id);
      }
    }
  }

  /** The i-th input is a PUBLISH, and a PUBREL for it came later. */
  predicate ReleasedLater(es: seq<Input>, i: nat) {
    && i < |es| && es[i].Recv? && es[i].packet.PublishPacket?
    && exists k :: i < k < |es| && Releases(es[k], es[i].packet.publish.packetIdentifier)
  }

  lemma OpenIsNotReleased(es: seq<Input>, i: nat, id: uint16)
    requires Opens(es, i, id)
    ensures !ReleasedLater(es, i)
  {
  }

  lemma ReleasedStays(prev: seq<Input>, e: Input, i: nat)
    requires ReleasedLater(prev, i)
    ensures ReleasedLater(prev + [e], i)
  {
    var k :| i < k < |prev| && Releases(prev[k], prev[i].packet.publish.packetIdentifier);
    assert Releases((prev + [e])[k], (prev + [e])[i].packet.publish.packetIdentifier);
  }

  lemma ReleasedSnoc(prev: seq<Input>, e: Input)
    ensures var before, after := ReleasedAt(prev), ReleasedAt(prev + [e]);
            || after == before
            || (exists i: nat, id :: Opens(prev, i, id) && Releases(e, id) && after == before + [i])
  {
    hide OpenAt;
    assert (prev + [e])[..|prev|] == prev;
    if e.Recv? && e.packet.PubrelPacket? {
      var id := e.packet.ack.packetIdentifier;
      if OpenAt(prev, id).Some? {
        assert Opens(prev, OpenAt(prev, id).value, id) && Releases(e, id);
      }
    }
  }

  /** However many duplicates arrive, no PUBLISH is delivered twice, and none before its PUBREL. */
  lemma {:induction false} NoPublishReleasedTwice(es: seq<Input>)
    ensures forall x, y :: 0 <= x < y < |ReleasedAt(es)| ==> ReleasedAt(es)[x] != ReleasedAt(es)[y]
    ensures forall i :: i in ReleasedAt(es) ==> ReleasedLater(es, i)
    decreases |es|
  {
    if es == [] {
      assert ReleasedAt(es) == [];
    } else {
      hide OpenAt, ReleasedAt, ReleasedLater;
      var prev, e := es[..|es| - 1], es[|es| - 1];
      assert es == prev + [e];
      NoPublishReleasedTwice(prev);
      ReleasedSnoc(prev, e);
      forall i | i in ReleasedAt(prev) ensures ReleasedLater(es, i) {
        ReleasedStays(prev, e, i);
      }
      if i: nat, id :| Opens(prev, i, id) && Releases(e, id) && ReleasedAt(es) == ReleasedAt(prev) + [i] {
        OpenIsNotReleased(prev, i, id);
        ReleasedNow(prev, e, i, id);
      }
    }
  }

  lemma ReleasedNow(prev: seq<Input>, e: Input, i: nat, id: uint16)
    requires Opens(prev, i, id) && Releases(e, id)
    ensures ReleasedLater(prev + [e], i)
  {
    assert Releases((prev + [e])[|prev|], (prev + [e])[i].packet.publish.packetIdentifier);
  }

  // ---------------------------------------------------------------- the receive quota

  /** The QoS 1 and 2 PUBLISH packets among the inputs. */
  function Counted(es: seq<Input>): nat {
    if es == [] then 0
    else
      (if es[0].Recv? && es[0].packet.PublishPacket? && es[0].packet.publish.Qos() != 0 then 1 else 0)
      + Counted(es[1..])
  }

  function Disconnects(sent: seq<Packet>): nat {
    if sent == [] then 0
    else Disconnects(sent[..|sent| - 1]) + (if sent[|sent| - 1].DisconnectPacket? then 1 else 0)
  }

  lemma DisconnectsSnoc(sent: seq<Packet>, p: Packet)
    ensures Disconnects(sent + [p]) == Disconnects(sent) + (if p.DisconnectPacket? then 1 else 0)
  {
    assert (sent + [p])[..|sent|] == sent;
  }

  lemma {:induction false} DisconnectsUnchanged(s: seq<Packet>, t: seq<Packet>)
    requires s <= t && forall i :: |s| <= i < |t| ==> !t[i].DisconnectPacket?
    ensures Disconnects(t) == Disconnects(s)
    decreases |t|
  {
    if |s| < |t| {
      DisconnectsUnchanged(s, t[..|t| - 1]);
    } else {
      assert s == t;
    }
  }

  function Monus(a: int, b: int): nat {
    if a > b then a - b else 0
  }

  lemma DeliverDisconnectsNothing(s: State, m: Publish)
    ensures var t := Deliver(s, m); Disconnects(t.sent) == Disconnects(s.sent) && t.receiveQuota == s.receiveQuota
  {
    hide Deliver;
    DeliverExtends(s, m);
    DisconnectsUnchanged(s.sent, Deliver(s, m).sent);
  }

  lemma StepTakesQuota(s: State, e: Input)
    requires !e.PubackWritten?
    ensures var t := Step(s, e);
            && t.receiveQuota == Monus(s.receiveQuota, Counted([e]))
            && Disconnects(t.sent) == Disconnects(s.sent) + Monus(Counted([e]), s.receiveQuota)
  {
    hide Deliver, HandlePuback, HandleSuback, HandleUnsuback, HandlePubrec, HandlePubcomp, Start, Disconnects,
         ReceivedIndex;
    assert [e][1..] == [];
    if !Receives(e) {
      StepReceivesNothing(s, e);
      DisconnectsUnchanged(s.sent, Step(s, e).sent);
    } else if e.packet.PubrelPacket? {
      var i, id := ReceivedIndex(s.received, e.packet.ack.packetIdentifier), e.packet.ack.packetIdentifier;
      DisconnectsSnoc(s.sent, PubcompPacket(Reply(id, if i == |s.received| then IDENTIFIER_NOT_FOUND else 0)));
      if i < |s.received| {
        DeliverDisconnectsNothing(Send(s.(received := Remove(s.received, i), released := s.released + [s.received[i]]),
                                       PubcompPacket(Reply(id, 0))), s.received[i]);
      }
    } else {
      PublishTakesQuota(s, e.packet.publish);
    }
  }

  lemma PublishTakesQuota(s: State, m: Publish)
    ensures var t, n := HandlePublish(s, m), if m.Qos() == 0 then 0 else 1;
            && t.receiveQuota == Monus(s.receiveQuota, n)
            && Disconnects(t.sent) == Disconnects(s.sent) + Monus(n, s.receiveQuota)
  {
    hide Deliver, Disconnects, ReceivedIndex;
    var t := TakeReceiveQuota(s, m);
    DisconnectsSnoc(s.sent, DisconnectPacket(Disconnect(QUOTA_EXCEEDED, Records.NO_DISCONNECT)));
    DisconnectsSnoc(t.sent, PubackPacket(Reply(m.packetIdentifier, 0)));
    DisconnectsSnoc(t.sent, PubrecPacket(Reply(m.packetIdentifier, 0)));
    var v := if m.Qos() == 1 then Send(t, PubackPacket(Reply(m.packetIdentifier, 0))) else t;
    var u := v.(direct := t.direct + [m]);
    DeliverDisconnectsNothing(u, m);
  }

  function WrittenPubacks(es: seq<Input>): nat {
    if es == [] then 0 else (if es[0].PubackWritten? then 1 else 0) + WrittenPubacks(es[1..])
  }

  lemma WrittenGivesOne(s: State, e: Input)
    requires e.PubackWritten?
    ensures var t := Step(s, e); t.receiveQuota <= s.receiveQuota + 1 && t.sent == s.sent
  {
  }

  /** Nothing but a written PUBACK gives receive quota back: in every run each counted PUBLISH, its
      exchange completed or not, is paid for by quota that was there, by a written PUBACK, or by a
      DISCONNECT; and exactly so when there are no PUBACKs. */
  lemma {:induction false} QuotaIsNotRestored(s: State, es: seq<Input>)
    ensures var t := Run(s, es);
            && t.receiveQuota + Counted(es) <= s.receiveQuota + WrittenPubacks(es)
               + Disconnects(t.sent) - Disconnects(s.sent)
            && (WrittenPubacks(es) == 0 ==>
                  && t.receiveQuota == Monus(s.receiveQuota, Counted(es))
                  && Disconnects(t.sent) == Disconnects(s.sent) + Monus(Counted(es), s.receiveQuota))
    decreases es
  {
    hide Step, Disconnects;
    if es != [] {
      var e := es[0];
      assert [e][1..] == [];
      if e.PubackWritten? {
        WrittenGivesOne(s, e);
      } else {
        StepTakesQuota(s, e);
      }
      QuotaIsNotRestored(Step(s, e), es[1..]);
    }
  }

  lemma StepKeepsMaximum(s: State, e: Input)
    ensures Step(s, e).receiveMaximum == s.receiveMaximum
  {
    hide Deliver, ReceivedIndex, HandlePuback, HandleSuback, HandleUnsuback, HandlePubrec, HandlePubcomp, Start;
    if !Receives(e) {
      StepReceivesNothing(s, e);
    } else if e.Recv? && e.packet.PubrelPacket? {
      var i := ReceivedIndex(s.received, e.packet.ack.packetIdentifier);
      if i < |s.received| {
        DeliverExtends(Send(s.(received := Remove(s.received, i), released := s.released + [s.received[i]]),
                            PubcompPacket(Reply(e.packet.ack.packetIdentifier, 0))), s.received[i]);
      }
    } else if e.Recv? {
      var m, t := e.packet.publish, TakeReceiveQuota(s, e.packet.publish);
      DeliverExtends(Send(t, PubackPacket(Reply(m.packetIdentifier, 0))).(direct := t.direct + [m]), m);
      DeliverExtends(t.(direct := t.direct + [m]), m);
    }
  }

  /** The counted PUBLISHes of a stretch of inputs less the PUBACKs written in it. */
  function Excess(es: seq<Input>): int {
    if es == [] then 0 else (if es[0].PubackWritten? then -1 else Counted([es[0]])) + Excess(es[1..])
  }

  /** No stretch of the session has more counted PUBLISHes than written PUBACKs by more than `max`. */
  predicate WithinReceiveMaximum(es: seq<Input>, max: nat) {
    forall i, j :: 0 <= i <= j <= |es| ==> Excess(es[i..j]) <= max
  }

  /** The messages that count as open after es, from n on. */
  function OpenAfter(es: seq<Input>, n: nat, max: nat): nat
    decreases es
  {
    if es == [] then n
    else if es[0].PubackWritten? then OpenAfter(es[1..], Monus(n, 1), max)
    else OpenAfter(es[1..], if n + Counted([es[0]]) > max then max else n + Counted([es[0]]), max)
  }

  /** From n open messages on, no PUBLISH finds `max` of them open. */
  predicate Stays(es: seq<Input>, n: nat, max: nat)
    decreases es
  {
    es == [] ||
    (if es[0].PubackWritten? then Stays(es[1..], Monus(n, 1), max)
     else n + Counted([es[0]]) <= max && Stays(es[1..], n + Counted([es[0]]), max))
  }

  predicate PrefixesFit(es: seq<Input>, n: int, max: nat) {
    forall j :: 0 <= j <= |es| ==> n + Excess(es[..j]) <= max
  }

  function Change(e: Input): int {
    if e.PubackWritten? then -1 else Counted([e])
  }

  lemma NoExcess()
    ensures Excess([]) == 0
  {
  }

  lemma ExcessOfPrefix(es: seq<Input>, j: nat)
    requires 0 < j <= |es|
    ensures Excess(es[..j]) == Change(es[0]) + Excess(es[1..][..j - 1])
  {
    assert es[..j][1..] == es[1..][..j - 1];
  }

  lemma PrefixesCons(es: seq<Input>, n: int, max: nat)
    requires es != [] && n <= max
    ensures PrefixesFit(es, n, max) <==> PrefixesFit(es[1..], n + Change(es[0]), max)
  {
    hide Excess, Change;
    NoExcess();
    var rest := es[1..];
    if PrefixesFit(es, n, max) {
      forall j | 0 <= j <= |rest| ensures n + Change(es[0]) + Excess(rest[..j]) <= max {
        ExcessOfPrefix(es, j + 1);
        assert n + Excess(es[..j + 1]) <= max;
      }
    }
    if PrefixesFit(rest, n + Change(es[0]), max) {
      forall j | 0 <= j <= |es| ensures n + Excess(es[..j]) <= max {
        if j == 0 {
          assert es[..0] == [];
        } else {
          ExcessOfPrefix(es, j);
          assert n + Change(es[0]) + Excess(rest[..j - 1]) <= max;
        }
      }
    }
  }

  lemma SliceOfTail(es: seq<Input>, i: nat, j: nat)
    requires i <= j < |es|
    ensures es[1..][i..j] == es[i + 1..j + 1]
  {
  }

  lemma StretchesCons(es: seq<Input>, max: nat)
    requires es != []
    ensures WithinReceiveMaximum(es, max) <==> WithinReceiveMaximum(es[1..], max) && PrefixesFit(es, 0, max)
  {
    hide Excess;
    var rest := es[1..];
    if WithinReceiveMaximum(es, max) {
      forall i, j | 0 <= i <= j <= |rest| ensures Excess(rest[i..j]) <= max {
        SliceOfTail(es, i, j);
        assert Excess(es[i + 1..j + 1]) <= max;
      }
      forall j | 0 <= j <= |es| ensures 0 + Excess(es[..j]) <= max {
        assert es[..j] == es[0..j];
      }
    }
    if WithinReceiveMaximum(rest, max) && PrefixesFit(es, 0, max) {
      forall i, j | 0 <= i <= j <= |es| ensures Excess(es[i..j]) <= max {
        if i == 0 {
          assert es[0..j] == es[..j];
          assert 0 + Excess(es[..j]) <= max;
        } else {
          SliceOfTail(es, i - 1, j - 1);
          assert Excess(rest[i - 1..j - 1]) <= max;
        }
      }
    }
  }

  lemma PrefixesWeaken(es: seq<Input>, m: int, n: int, max: nat)
    requires m <= n && PrefixesFit(es, n, max)
    ensures PrefixesFit(es, m, max)
  {
    hide Excess;
    forall j | 0 <= j <= |es| ensures m + Excess(es[..j]) <= max {
      assert n + Excess(es[..j]) <= max;
    }
  }

  /** No PUBLISH finds the window full exactly when every stretch is within it, and what is open at the
      start still fits in front of every prefix. */
  lemma {:induction false} StaysExactly(es: seq<Input>, n: nat, max: nat)
    requires n <= max
    ensures Stays(es, n, max) <==> PrefixesFit(es, n, max) && WithinReceiveMaximum(es, max)
    decreases es
  {
    if es == [] {
      assert forall i, j :: 0 <= i <= j <= |es| ==> es[i..j] == [];
      assert forall j :: 0 <= j <= |es| ==> es[..j] == [];
    } else {
      hide PrefixesFit, WithinReceiveMaximum;
      var rest, d := es[1..], Change(es[0]);
      PrefixesCons(es, n, max);
      PrefixesCons(es, 0, max);
      StretchesCons(es, max);
      if es[0].PubackWritten? {
        StaysExactly(rest, Monus(n, 1), max);
        if n == 0 && PrefixesFit(rest, 0, max) {
          PrefixesWeaken(rest, -1, 0, max);
        }
        WithinFromZero(rest, max);
        if PrefixesFit(rest, n - 1, max) {
          PrefixesWeaken(rest, -1, n - 1, max);
        }
      } else {
        if n + d <= max {
          StaysExactly(rest, n + d, max);
        } else {
          NotBeyond(rest, n + d, max);
        }
        if PrefixesFit(rest, n + d, max) {
          PrefixesWeaken(rest, d, n + d, max);
        }
      }
    }
  }

  lemma WithinFromZero(es: seq<Input>, max: nat)
    ensures WithinReceiveMaximum(es, max) ==> PrefixesFit(es, 0, max)
  {
    hide Excess;
    if WithinReceiveMaximum(es, max) {
      forall j | 0 <= j <= |es| ensures 0 + Excess(es[..j]) <= max {
        assert es[..j] == es[0..j];
      }
    }
  }

  lemma NotBeyond(es: seq<Input>, n: int, max: nat)
    requires n > max
    ensures !PrefixesFit(es, n, max)
  {
    NoExcess();
    assert es[..0] == [];
    assert 0 <= 0 <= |es| && n + Excess(es[..0]) > max;
  }

  lemma {:induction false} DisconnectsGrow(s: State, es: seq<Input>)
    ensures Disconnects(Run(s, es).sent) >= Disconnects(s.sent)
    decreases es
  {
    hide Step, Disconnects;
    if es != [] {
      if es[0].PubackWritten? {
        WrittenGivesOne(s, es[0]);
      } else {
        StepTakesQuota(s, es[0]);
      }
      DisconnectsGrow(Step(s, es[0]), es[1..]);
    }
  }

  /** The quota is the maximum less what counts as open, and a DISCONNECT is written exactly when some
      PUBLISH finds the window full. */
  lemma {:induction false} QuotaFollows(s: State, es: seq<Input>, n: nat)
    requires n <= s.receiveMaximum && s.receiveQuota == s.receiveMaximum - n
    ensures var t := Run(s, es);
            && t.receiveQuota == s.receiveMaximum - OpenAfter(es, n, s.receiveMaximum)
            && (Disconnects(t.sent) == Disconnects(s.sent) <==> Stays(es, n, s.receiveMaximum))
    decreases es
  {
    hide Disconnects, Counted;
    if es != [] {
      var t := Step(s, es[0]);
      StepKeepsMaximum(s, es[0]);
      if es[0].PubackWritten? {
        QuotaFollows(t, es[1..], Monus(n, 1));
      } else {
        hide Step;
        StepTakesQuota(s, es[0]);
        var k := n + Counted([es[0]]);
        QuotaFollows(t, es[1..], if k > s.receiveMaximum then s.receiveMaximum else k);
        DisconnectsGrow(t, es[1..]);
      }
    }
  }

  /** The receive window of a whole session, in which QoS 2 messages stay open for ever: a server is not
      disconnected if and only if in no stretch of the session its QoS 1 and 2 messages outnumber the
      PUBACKs written by more than the receive maximum. */
  lemma ReceiveWindow(receiveMaximum: uint16, serverMaximum: uint16, es: seq<Input>)
    ensures var t := Run(Connected(receiveMaximum, serverMaximum), es);
            && t.receiveQuota == receiveMaximum - OpenAfter(es, 0, receiveMaximum)
            && (Disconnects(t.sent) == 0 <==> WithinReceiveMaximum(es, receiveMaximum))
  {
    hide Run, OpenAfter, Stays, WithinReceiveMaximum, PrefixesFit;
    QuotaFollows(Connected(receiveMaximum, serverMaximum), es, 0);
    StaysExactly(es, 0, receiveMaximum);
    WithinFromZero(es, receiveMaximum);
  }

  // ---------------------------------------------------------------- a conforming server

  /** A QoS 2 message, and the PUBREL that answers its PUBREC. */
  function Exchange(m: Publish): seq<Input> {
    [Recv(PublishPacket(m)), Recv(PubrelPacket(Reply(m.packetIdentifier, 0)))]
  }

  function Exchanges(m: Publish, k: nat): seq<Input> {
    if k == 0 then [] else Exchange(m) + Exchanges(m, k - 1)
  }

  /** What the client writes in k exchanges. */
  function Answered(m: Publish, k: nat): seq<Packet> {
    if k == 0 then []
    else [PubrecPacket(Reply(m.packetIdentifier, 0)), PubcompPacket(Reply(m.packetIdentifier, 0))] + Answered(m, k - 1)
  }

  lemma NobodyToCall(s: State, m: Publish)
    requires s.waiters == []
    ensures Deliver(s, m) == s
  {
    assert OtherWaiters([], m.topic) == [] && MatchingReceivers([], m.topic) == [];
  }

  lemma OneExchange(s: State, m: Publish)
    requires m.Qos() == 2 && s.received == [] && s.waiters == [] && s.receiveQuota > 0
    ensures var t := Step(Step(s, Exchange(m)[0]), Exchange(m)[1]);
            && t.received == [] && t.waiters == [] && t.receiveQuota == s.receiveQuota - 1
            && t.sent == s.sent + Answered(m, 1) && t.released == s.released + [m]
  {
    hide Deliver;
    var a, u := Reply(m.packetIdentifier, 0), HandlePublish(s, m);
    assert u.received == [m] && u.sent == s.sent + [PubrecPacket(a)];
    assert u.received[0].packetIdentifier == a.packetIdentifier;
    assert Remove(u.received, 0) == [];
    var v := Send(u.(received := [], released := u.released + [m]), PubcompPacket(a));
    NobodyToCall(v, m);
    assert HandlePubrel(u, a) == Deliver(v, m);
    assert Answered(m, 1) == [PubrecPacket(a), PubcompPacket(a)] + Answered(m, 0);
  }

  lemma {:induction false} ExchangesRun(s: State, m: Publish, k: nat)
    requires m.Qos() == 2 && s.received == [] && s.waiters == [] && s.receiveQuota >= k
    ensures var t := Run(s, Exchanges(m, k));
            && t.received == [] && t.waiters == [] && t.receiveQuota == s.receiveQuota - k
            && t.sent == s.sent + Answered(m, k) && |t.released| == |s.released| + k
    decreases k
  {
    AnsweredCons(m, k);
    if k == 0 {
      assert s.sent + [] == s.sent;
    } else {
      hide Run, Step, Answered, Exchanges;
      var t := Step(Step(s, Exchange(m)[0]), Exchange(m)[1]);
      FirstExchange(s, m, k);
      OneExchange(s, m);
      ExchangesRun(t, m, k - 1);
      Assoc(s.sent, Answered(m, 1), Answered(m, k - 1));
    }
  }

  lemma FirstExchange(s: State, m: Publish, k: nat)
    requires k > 0
    ensures Run(s, Exchanges(m, k)) == Run(Step(Step(s, Exchange(m)[0]), Exchange(m)[1]), Exchanges(m, k - 1))
  {
    hide Step;
    var es := Exchanges(m, k);
    assert es[1..][0] == es[1] && es[1..][1..] == Exchanges(m, k - 1);
    assert Run(s, es) == Run(Step(s, es[0]), es[1..]);
  }

  lemma AnsweredCons(m: Publish, k: nat)
    ensures k > 0 ==> Answered(m, k) == Answered(m, 1) + Answered(m, k - 1)
    ensures Answered(m, 0) == []
  {
    assert Answered(m, 1) == Answered(m, 1) + Answered(m, 0);
  }

  /** A server that has one QoS 2 message open at a time and completes every exchange: the client answers
      as many exchanges as its receive maximum, each with its PUBREC and its PUBCOMP, and the next
      message, though nothing else is open, with a DISCONNECT. */
  lemma ConformingServerIsDisconnected(receiveMaximum: uint16, serverMaximum: uint16, m: Publish)
    requires m.Qos() == 2
    ensures var t := Run(Connected(receiveMaximum, serverMaximum), Exchanges(m, receiveMaximum));
            && t.sent == Answered(m, receiveMaximum) && |t.released| == receiveMaximum && t.received == []
            && Step(t, Recv(PublishPacket(m))).sent
               == t.sent + [DisconnectPacket(Disconnect(151, Records.NO_DISCONNECT)),
                            PubrecPacket(Reply(m.packetIdentifier, 0))]
  {
    hide Run, Exchanges, Answered;
    ExchangesRun(Connected(receiveMaximum, serverMaximum), m, receiveMaximum);
    assert [] + Answered(m, receiveMaximum) == Answered(m, receiveMaximum);
  }
}
