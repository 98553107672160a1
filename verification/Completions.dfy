/** What the receivers of publishes, subscribes and unsubscribes are told: which acknowledgement
    completes which operation, with what, and that nothing is ever completed twice. */
module Completions {
  import opened Bytes
  import opened Packets
  import opened Engine
  import Records
  import opened Starts
  import Window

  /** The completions and closings among the events. */
  function Outcomes(log: seq<Event>): seq<Event> {
    if log == [] then []
    else
      var n, e := |log| - 1, log[|log| - 1];
      Outcomes(log[..n]) + (if e.Sent? || e.Delivered? then [] else [e])
  }

  /** New starts are numbered upwards from where the old ones stop. */
  predicate StartsGrow(s: State, t: State) {
    && s.started <= t.started && s.issued <= t.issued
    && (forall i :: |s.started| <= i < |t.started| ==> s.issued <= t.started[i].serial < t.issued)
    && (forall i, j :: |s.started| <= i < j < |t.started| ==> t.started[i].serial < t.started[j].serial)
  }

  predicate Reports(s: State, t: State, es: seq<Event>) {
    Outcomes(t.log) == Outcomes(s.log) + es && StartsGrow(s, t)
  }

  /** What an acknowledgement means for an operation with its identifier. */
  function PublishOutcome(f: InFlight, p: Packet): seq<Event>
    requires p.PubackPacket? || p.PubrecPacket? || p.PubcompPacket?
  {
    if p.PubcompPacket? || (p.PubrecPacket? && p.ack.reasonCode > 16)
       || (p.PubackPacket? && f.state == WaitingPuback)
    then [Completed(f.pending, Value(p.ack.reasonCode))]
    else if p.PubackPacket? || f.state == WaitingPuback then [Completed(f.pending, Done), Closed]
    else []
  }

  // ---------------------------------------------------------------- composing reports

  lemma OutcomesSnoc(log: seq<Event>, e: Event)
    ensures Outcomes(log + [e]) == Outcomes(log) + (if e.Sent? || e.Delivered? then [] else [e])
  {
    assert (log + [e])[..|log|] == log;
  }

  lemma {:induction false} OutcomesUnchanged(s: seq<Event>, t: seq<Event>)
    requires s <= t && forall i :: |s| <= i < |t| ==> t[i].Sent? || t[i].Delivered?
    ensures Outcomes(t) == Outcomes(s)
    decreases |t|
  {
    if |s| < |t| {
      OutcomesUnchanged(s, t[..|t| - 1]);
    } else {
      assert s == t;
    }
  }

  lemma ExtendsReports(s: State, t: State)
    requires Extends(s, t)
    ensures Reports(s, t, [])
  {
    OutcomesUnchanged(s.log, t.log);
  }

  lemma ReportsTrans(s: State, t: State, u: State, a: seq<Event>, b: seq<Event>)
    requires Reports(s, t, a) && Reports(t, u, b)
    ensures Reports(s, u, a + b)
  {
    Assoc(Outcomes(s.log), a, b);
    forall i | |s.started| <= i < |u.started| ensures s.issued <= u.started[i].serial < u.issued {
      if i < |t.started| { assert u.started[i] == t.started[i]; }
    }
  }

  lemma CallbackReports(s: State, rx: Receiver, e: Event)
    requires !e.Sent? && !e.Delivered?
    ensures Reports(s, Callback(s, rx, e), [e])
  {
    hide Extends, Callback;
    var t := s.(log := s.log + [e]);
    OutcomesSnoc(s.log, e);
    CallbackExtends(s, rx, e);
    ExtendsReports(t, Callback(s, rx, e));
    ReportsTrans(s, t, Callback(s, rx, e), [e], []);
    assert [e] + [] == [e];
  }

  lemma FinishReports(s: State, i: nat, r: PublishResult)
    requires i < |s.published|
    ensures Reports(s, Finish(s, i, r), [Completed(s.published[i].pending, r)])
  {
    var p := s.published[i].pending;
    CallbackReports(s.(published := Remove(s.published, i)), p.receiver, Completed(p, r));
  }

  lemma CloseReports(s: State, t: State, es: seq<Event>)
    requires Reports(s, t, es)
    ensures Reports(s, Close(t), es + [Closed])
  {
    OutcomesSnoc(t.log, Closed);
    Assoc(Outcomes(s.log), es, [Closed]);
  }

  lemma SameReports(s: State, t: State, u: State, es: seq<Event>)
    requires Reports(t, u, es) && s.log == t.log && s.started == t.started && s.issued == t.issued
    ensures Reports(s, u, es)
  {
  }

  lemma NothingReports(s: State, t: State)
    requires s.log == t.log && s.started == t.started && s.issued == t.issued
    ensures Reports(s, t, [])
  {
    assert Outcomes(s.log) + [] == Outcomes(s.log);
  }

  lemma MaybeSendReports(s: State, t: State, es: seq<Event>)
    requires Reports(s, t, es)
    ensures Reports(s, MaybeSendQueued(t), es)
  {
  }

  // ---------------------------------------------------------------- publishes

  /** It is the first publish with the packet's identifier that is completed, with the packet's
      reason code, or with done, and then the connection closed, when the publish waits for a PUBACK
      and the packet is a PUBREC or the other way round. */
  lemma FirstCompletes(s: State, p: Packet, j: nat)
    requires p.PubackPacket? || p.PubrecPacket? || p.PubcompPacket?
    requires InFlightIndex(s.published, p.ack.packetIdentifier) == j < |s.published|
    ensures Reports(s, Step(s, Recv(p)), PublishOutcome(s.published[j], p))
  {
    hide Reports, MaybeSendQueued, Finish, Close;
    var f, code := s.published[j], p.ack.reasonCode;
    var t := s.(leaked := s.leaked + 1);
    if p.PubackPacket? && f.state == WaitingPuback {
      var u := s.(acknowledged := s.acknowledged + [f.pending.message]);
      FinishReports(u, j, Value(code));
      SameReports(s, u, Finish(u, j, Value(code)), [Completed(f.pending, Value(code))]);
      MaybeSendReports(s, Finish(u, j, Value(code)), [Completed(f.pending, Value(code))]);
    } else if p.PubackPacket? {
      FinishReports(s, j, Done);
      CloseReports(s, Finish(s, j, Done), [Completed(f.pending, Done)]);
      assert [Completed(f.pending, Done)] + [Closed] == [Completed(f.pending, Done), Closed];
      MaybeSendReports(s, Close(Finish(s, j, Done)), [Completed(f.pending, Done), Closed]);
    } else if p.PubcompPacket? {
      var u := t.(finished := t.finished + [f.pending.message]);
      FinishReports(u, j, Value(code));
      SameReports(s, u, Finish(u, j, Value(code)), [Completed(f.pending, Value(code))]);
    } else if code > NO_MATCHING_SUBSCRIBERS {
      FinishReports(t, j, Value(code));
      SameReports(s, t, Finish(t, j, Value(code)), [Completed(f.pending, Value(code))]);
    } else if f.state == WaitingPuback {
      FinishReports(t, j, Done);
      CloseReports(t, Finish(t, j, Done), [Completed(f.pending, Done)]);
      assert [Completed(f.pending, Done)] + [Closed] == [Completed(f.pending, Done), Closed];
      SameReports(s, t, Close(Finish(t, j, Done)), [Completed(f.pending, Done), Closed]);
    } else {
      NothingReports(s, Step(s, Recv(p)));
    }
  }

  /** While the identifiers in flight are distinct, an acknowledgement completes the publish with its
      identifier and no other. */
  lemma AcknowledgementCompletes(s: State, p: Packet, j: nat)
    requires p.PubackPacket? || p.PubrecPacket? || p.PubcompPacket?
    requires j < |s.published| && s.published[j].Id() == p.ack.packetIdentifier
    requires forall i :: 0 <= i < |s.published| && i != j ==> s.published[i].Id() != s.published[j].Id()
    ensures Reports(s, Step(s, Recv(p)), PublishOutcome(s.published[j], p))
  {
    hide Reports;
    assert InFlightIndex(s.published, p.ack.packetIdentifier) == j;
    FirstCompletes(s, p, j);
  }

  /** An acknowledgement for an identifier that is not in flight completes nothing. */
  lemma StrayCompletesNothing(s: State, p: Packet)
    requires p.PubackPacket? || p.PubrecPacket? || p.PubcompPacket?
    requires forall i :: 0 <= i < |s.published| ==> s.published[i].Id() != p.ack.packetIdentifier
    ensures Reports(s, Step(s, Recv(p)), [])
  {
    hide Reports;
    assert InFlightIndex(s.published, p.ack.packetIdentifier) == |s.published|;
    NothingReports(s, Step(s, Recv(p)));
  }

  // ---------------------------------------------------------------- subscribes and unsubscribes

  lemma SubackCompletes(s: State, c: Codes, j: nat)
    requires SubscribeIndex(s.subscribes, c.packetIdentifier) == j < |s.subscribes|
    ensures Reports(s, HandleSuback(s, c), [Subscribed(s.subscribes[j], c.reasonCodes)])
  {
    var rx := s.subscribes[j].receiver;
    CallbackReports(s.(subscribes := Remove(s.subscribes, j)), rx, Subscribed(s.subscribes[j], c.reasonCodes));
  }

  lemma UnsubackCompletes(s: State, c: Codes, j: nat)
    requires UnsubscribeIndex(s.unsubscribes, c.packetIdentifier) == j < |s.unsubscribes|
    ensures Reports(s, HandleUnsuback(s, c), [Unsubscribed(s.unsubscribes[j], c.reasonCodes)])
  {
    var rx := s.unsubscribes[j].receiver;
    CallbackReports(s.(unsubscribes := Remove(s.unsubscribes, j)), rx, Unsubscribed(s.unsubscribes[j], c.reasonCodes));
  }

  // ---------------------------------------------------------------- every other input

  lemma DeliverReports(s: State, t: State, m: Publish, es: seq<Event>)
    requires Reports(s, t, es)
    ensures Reports(s, Deliver(t, m), es)
  {
    hide Reports, Deliver, Extends;
    DeliverExtends(t, m);
    ExtendsReports(t, Deliver(t, m));
    ReportsTrans(s, t, Deliver(t, m), es, []);
    assert es + [] == es;
  }

  function QuotaOutcome(s: State, m: Publish): seq<Event> {
    if m.Qos() != 0 && s.receiveQuota == 0 then [Closed] else []
  }

  /** An incoming PUBLISH completes nothing; without receive quota it closes the connection. */
  lemma PublishCompletesNothing(s: State, m: Publish)
    ensures Reports(s, HandlePublish(s, m), QuotaOutcome(s, m))
  {
    hide Reports, Deliver;
    var t := TakeReceiveQuota(s, m);
    if m.Qos() != 0 && s.receiveQuota == 0 {
      var u := Send(s, DisconnectPacket(Disconnect(QUOTA_EXCEEDED, Records.NO_DISCONNECT)));
      NothingReports(s, u);
      CloseReports(s, u, []);
      assert [] + [Closed] == [Closed];
    } else {
      NothingReports(s, t);
    }
    var v := Send(t, PubackPacket(Reply(m.packetIdentifier, 0))).(direct := t.direct + [m]);
    var w := t.(direct := t.direct + [m]);
    LaterReports(s, t, v, QuotaOutcome(s, m));
    LaterReports(s, t, w, QuotaOutcome(s, m));
    DeliverReports(s, v, m, QuotaOutcome(s, m));
    DeliverReports(s, w, m, QuotaOutcome(s, m));
    LaterReports(s, t, Send(t, PubrecPacket(Reply(m.packetIdentifier, 0))), QuotaOutcome(s, m));
    var u := Send(t.(received := t.received + [m]), PubrecPacket(Reply(m.packetIdentifier, 0)));
    LaterReports(s, t, u, QuotaOutcome(s, m));
  }

  lemma LaterReports(s: State, t: State, u: State, es: seq<Event>)
    requires Reports(s, t, es) && u.log == t.log && u.started == t.started && u.issued == t.issued
    ensures Reports(s, u, es)
  {
  }

  lemma PubrelCompletesNothing(s: State, a: Ack)
    ensures Reports(s, HandlePubrel(s, a), [])
  {
    hide Reports, Deliver;
    var i := ReceivedIndex(s.received, a.packetIdentifier);
    if i == |s.received| {
      NothingReports(s, HandlePubrel(s, a));
    } else {
      var t := Send(s.(received := Remove(s.received, i), released := s.released + [s.received[i]]),
                    PubcompPacket(Reply(a.packetIdentifier, 0)));
      NothingReports(s, t);
      DeliverReports(s, t, s.received[i], []);
    }
  }

  lemma OtherStep(s: State, p: Packet)
    requires !(p.PubackPacket? || p.PubrecPacket? || p.PubcompPacket? || p.PublishPacket? || p.PubrelPacket?)
    requires p.SubackPacket? ==> SubscribeIndex(s.subscribes, p.codes.packetIdentifier) == |s.subscribes|
    requires p.UnsubackPacket? ==> UnsubscribeIndex(s.unsubscribes, p.codes.packetIdentifier) == |s.unsubscribes|
    ensures Reports(s, Step(s, Recv(p)), [])
  {
    hide Reports;
    NothingReports(s, Step(s, Recv(p)));
  }

  lemma StepReports(s: State, e: Input) returns (es: seq<Event>)
    ensures Reports(s, Step(s, e), es)
    ensures e.App? || e.PubackWritten? ==> es == []
  {
    hide Reports, Start, HandlePublish, HandlePubrel, HandleSuback, HandleUnsuback, HandlePuback, HandlePubrec,
         HandlePubcomp;
    es := [];
    match e
    case App(op) =>
      StartExtends(s, op);
      ExtendsReports(s, Start(s, op));
    case PubackWritten => NothingReports(s, Step(s, e));
    case Recv(p) =>
      if p.PubackPacket? || p.PubrecPacket? || p.PubcompPacket? {
        var i := InFlightIndex(s.published, p.ack.packetIdentifier);
        if i < |s.published| {
          FirstCompletes(s, p, i);
          es := PublishOutcome(s.published[i], p);
        } else {
          StrayCompletesNothing(s, p);
        }
      } else if p.SubackPacket? && SubscribeIndex(s.subscribes, p.codes.packetIdentifier) < |s.subscribes| {
        var i := SubscribeIndex(s.subscribes, p.codes.packetIdentifier);
        SubackCompletes(s, p.codes, i);
        es := [Subscribed(s.subscribes[i], p.codes.reasonCodes)];
      } else if p.UnsubackPacket? && UnsubscribeIndex(s.unsubscribes, p.codes.packetIdentifier) < |s.unsubscribes| {
        var i := UnsubscribeIndex(s.unsubscribes, p.codes.packetIdentifier);
        UnsubackCompletes(s, p.codes, i);
        es := [Unsubscribed(s.unsubscribes[i], p.codes.reasonCodes)];
      } else if p.PublishPacket? {
        PublishCompletesNothing(s, p.publish);
        es := QuotaOutcome(s, p.publish);
      } else if p.PubrelPacket? {
        PubrelCompletesNothing(s, p.ack);
      } else {
        OtherStep(s, p);
      }
  }

  // ---------------------------------------------------------------- only what was asked for

  /** Every operation that waits for an acknowledgement has had its packet written, under the
      identifier it waits with. */
  predicate Asked(s: State) {
    && (forall i :: 0 <= i < |s.published| ==> PublishPacket(s.published[i].pending.message) in s.sent)
    && (forall i :: 0 <= i < |s.subscribes| ==> SubscribePacket(s.subscribes[i].message) in s.sent)
    && (forall i :: 0 <= i < |s.unsubscribes| ==> UnsubscribePacket(s.unsubscribes[i].message) in s.sent)
  }

  lemma ExtendsAsked(s: State, t: State)
    requires Asked(s) && Extends(s, t)
    ensures Asked(t)
  {
    hide Window.LaunchedIn, Window.Messages, Window.Pendings, Request;
  }

  lemma CallbackAsked(s: State, rx: Receiver, e: Event)
    requires Asked(s)
    ensures Asked(Callback(s, rx, e))
  {
    hide Extends, Callback;
    CallbackExtends(s, rx, e);
    ExtendsAsked(s.(log := s.log + [e]), Callback(s, rx, e));
  }

  lemma FinishAsked(s: State, i: nat, r: PublishResult)
    requires Asked(s) && i < |s.published|
    ensures Asked(Finish(s, i, r))
  {
    hide Callback;
    var p := s.published[i].pending;
    CallbackAsked(s.(published := Remove(s.published, i)), p.receiver, Completed(p, r));
  }

  lemma MaybeSendAsked(s: State)
    requires Asked(s)
    ensures Asked(MaybeSendQueued(s))
  {
  }

  lemma DeliverAsked(s: State, m: Publish)
    requires Asked(s)
    ensures Asked(Deliver(s, m))
  {
    hide Extends, Deliver;
    DeliverExtends(s, m);
    ExtendsAsked(s, Deliver(s, m));
  }

  /** The tables are the same and packets are only added. */
  lemma SameAsked(s: State, t: State)
    requires Asked(s) && t.published == s.published && t.subscribes == s.subscribes && t.unsubscribes == s.unsubscribes
    requires s.sent <= t.sent
    ensures Asked(t)
  {
  }

  lemma AckAsked(s: State, p: Packet)
    requires Asked(s) && (p.PubackPacket? || p.PubrecPacket? || p.PubcompPacket?)
    ensures Asked(Step(s, Recv(p)))
  {
    hide Asked, Finish, MaybeSendQueued;
    var i, code, l := InFlightIndex(s.published, p.ack.packetIdentifier), p.ack.reasonCode, s.(leaked := s.leaked + 1);
    if i == |s.published| {
      MaybeSendAsked(s);
      SameAsked(s, Send(s, PubrelPacket(Reply(p.ack.packetIdentifier, IDENTIFIER_NOT_FOUND))));
    } else {
      var m := s.published[i].pending.message;
      var t, u := s.(acknowledged := s.acknowledged + [m]), l.(finished := l.finished + [m]);
      SameAsked(s, t);
      SameAsked(s, l);
      SameAsked(s, u);
      FinishAsked(t, i, Value(code));
      MaybeSendAsked(Finish(t, i, Value(code)));
      FinishAsked(s, i, Done);
      SameAsked(Finish(s, i, Done), Close(Finish(s, i, Done)));
      MaybeSendAsked(Close(Finish(s, i, Done)));
      FinishAsked(l, i, Value(code));
      FinishAsked(l, i, Done);
      SameAsked(Finish(l, i, Done), Close(Finish(l, i, Done)));
      FinishAsked(u, i, Value(code));
      ResumeAsked(s, i, PubrelPacket(Reply(p.ack.packetIdentifier, 0)));
    }
  }

  lemma ResumeAsked(s: State, i: nat, p: Packet)
    requires Asked(s) && i < |s.published|
    ensures Asked(Send(s.(published := s.published[i := s.published[i].(state := WaitingPubcomp)]), p))
  {
  }

  lemma CodesAsked(s: State, p: Packet)
    requires Asked(s) && (p.SubackPacket? || p.UnsubackPacket?)
    ensures Asked(Step(s, Recv(p)))
  {
    hide Callback;
    if p.SubackPacket? && SubscribeIndex(s.subscribes, p.codes.packetIdentifier) < |s.subscribes| {
      var i := SubscribeIndex(s.subscribes, p.codes.packetIdentifier);
      CallbackAsked(s.(subscribes := Remove(s.subscribes, i)), s.subscribes[i].receiver,
                    Subscribed(s.subscribes[i], p.codes.reasonCodes));
    }
    if p.UnsubackPacket? && UnsubscribeIndex(s.unsubscribes, p.codes.packetIdentifier) < |s.unsubscribes| {
      var i := UnsubscribeIndex(s.unsubscribes, p.codes.packetIdentifier);
      CallbackAsked(s.(unsubscribes := Remove(s.unsubscribes, i)), s.unsubscribes[i].receiver,
                    Unsubscribed(s.unsubscribes[i], p.codes.reasonCodes));
    }
  }

  lemma ReceivingAsked(s: State, p: Packet)
    requires Asked(s) && (p.PublishPacket? || p.PubrelPacket?)
    ensures Asked(Step(s, Recv(p)))
  {
    hide Asked, Deliver, ReceivedIndex;
    if p.PublishPacket? {
      var m, t := p.publish, TakeReceiveQuota(s, p.publish);
      SameAsked(s, t);
      SameAsked(s, Send(t, PubackPacket(Reply(m.packetIdentifier, 0))).(direct := t.direct + [m]));
      DeliverAsked(Send(t, PubackPacket(Reply(m.packetIdentifier, 0))).(direct := t.direct + [m]), m);
      SameAsked(s, t.(direct := t.direct + [m]));
      DeliverAsked(t.(direct := t.direct + [m]), m);
      SameAsked(s, Send(t, PubrecPacket(Reply(m.packetIdentifier, 0))));
      SameAsked(s, Send(t.(received := t.received + [m]), PubrecPacket(Reply(m.packetIdentifier, 0))));
    } else {
      var i, id := ReceivedIndex(s.received, p.ack.packetIdentifier), p.ack.packetIdentifier;
      SameAsked(s, Send(s, PubcompPacket(Reply(id, IDENTIFIER_NOT_FOUND))));
      if i < |s.received| {
        var t := Send(s.(received := Remove(s.received, i), released := s.released + [s.received[i]]),
            PubcompPacket(Reply(id, 0)));
        SameAsked(s, t);
        DeliverAsked(t, s.received[i]);
      }
    }
  }

  lemma StepAsked(s: State, e: Input)
    requires Asked(s)
    ensures Asked(Step(s, e))
  {
    hide Asked, Extends, HandlePuback, HandleSuback, HandleUnsuback, HandlePublish, HandlePubrec, HandlePubrel,
         HandlePubcomp, Start;
    match e
    case App(op) =>
      StartExtends(s, op);
      ExtendsAsked(s, Start(s, op));
    case PubackWritten => SameAsked(s, Step(s, e));
    case Recv(p) =>
      if p.PubackPacket? || p.PubrecPacket? || p.PubcompPacket? {
        AckAsked(s, p);
      } else if p.SubackPacket? || p.UnsubackPacket? {
        CodesAsked(s, p);
      } else if p.PublishPacket? || p.PubrelPacket? {
        ReceivingAsked(s, p);
      }
  }

  /** In every session: whatever waits for an acknowledgement was written before, with the identifier
      that the acknowledgement will have to name. */
  lemma {:induction false} EveryWaitWasAsked(s: State, es: seq<Input>)
    requires Asked(s)
    ensures Asked(Run(s, es))
    decreases es
  {
    hide Asked, Step;
    if es != [] {
      StepAsked(s, es[0]);
      EveryWaitWasAsked(Step(s, es[0]), es[1..]);
    }
  }

  // ---------------------------------------------------------------- never twice

  predicate Serials(s: State) {
    && (forall i, j :: 0 <= i < j < |s.started| ==> s.started[i].serial < s.started[j].serial)
    && (forall i :: 0 <= i < |s.started| ==> s.started[i].serial < s.issued)
  }

  lemma GrowKeepsSerials(s: State, t: State)
    requires Serials(s) && StartsGrow(s, t)
    ensures Serials(t)
  {
    forall i | 0 <= i < |t.started| ensures t.started[i].serial < t.issued {
      if i < |s.started| { assert t.started[i] == s.started[i]; }
    }
    forall i, j | 0 <= i < j < |t.started| ensures t.started[i].serial < t.started[j].serial {
      if i < |s.started| { assert t.started[i] == s.started[i]; }
      if j < |s.started| { assert t.started[j] == s.started[j]; }
    }
  }

  lemma {:induction false} RunKeepsSerials(s: State, es: seq<Input>)
    requires Serials(s)
    ensures Serials(Run(s, es))
    decreases es
  {
    hide Serials, Step;
    if es != [] {
      var _ := StepReports(s, es[0]);
      GrowKeepsSerials(s, Step(s, es[0]));
      RunKeepsSerials(Step(s, es[0]), es[1..]);
    }
  }

  lemma {:induction false} DistinctOnce(ps: seq<Pending>, p: Pending)
    requires forall i, j :: 0 <= i < j < |ps| ==> ps[i].serial < ps[j].serial
    ensures multiset(ps)[p] <= 1
  {
    if ps != [] {
      var n := |ps| - 1;
      assert ps == ps[..n] + [ps[n]];
      DistinctOnce(ps[..n], p);
      assert p in multiset(ps[..n]) ==> p in ps[..n];
    }
  }

  /** In every session each started publish is in exactly one place, once: queued, in flight, or
      completed, so its receiver is called at most once, and only ever for a started publish. */
  lemma NeverCompletedTwice(receiveMaximum: uint16, serverMaximum: uint16, es: seq<Input>, p: Pending)
    ensures var t := Run(Connected(receiveMaximum, serverMaximum), es);
            multiset(t.queue)[p] + multiset(Window.Pendings(t.published))[p] + Window.CompletedIn(t.log)[p]
            == (if p in t.started then 1 else 0)
  {
    var s := Connected(receiveMaximum, serverMaximum);
    var t := Run(s, es);
    RunKeepsSerials(s, es);
    DistinctOnce(t.started, p);
    Window.FirstInFirstOut(receiveMaximum, serverMaximum, es);
    assert multiset(t.started)[p]
        == multiset(t.queue)[p] + multiset(Window.Pendings(t.published))[p] + Window.CompletedIn(t.log)[p];
  }
}
