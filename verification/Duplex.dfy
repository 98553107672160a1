/** Two clients joined by two in-order channels, both publishing to each other. Whatever the
    interleaving, and whatever the callbacks start, each direction delivers its QoS 2 publishes in
    order and exactly once, its QoS 1 publishes in order and once too (the channels lose nothing),
    and the senders' completions never run ahead (MQTT 5.0 sections 4.3 and 4.6). */
module Duplex {
  import opened Bytes
  import opened Packets
  import opened Engine
  import opened Starts
  import opened Window
  import Identifiers
  import Records

  // ---------------------------------------------------------------- what is on its way

  datatype AckKind = Pubacks | Pubrecs | Pubrels | Pubcomps

  predicate IsAck(p: Packet, k: AckKind) {
    match k
    case Pubacks => p.PubackPacket?
    case Pubrecs => p.PubrecPacket?
    case Pubrels => p.PubrelPacket?
    case Pubcomps => p.PubcompPacket?
  }

  function AcksIn(ps: seq<Packet>, k: AckKind): seq<Ack> {
    if ps == [] then []
    else (if IsAck(ps[0], k) then [ps[0].ack] else []) + AcksIn(ps[1..], k)
  }

  function PublishesIn(ps: seq<Packet>, qos: nat): seq<Publish> {
    if ps == [] then []
    else
      (if ps[0].PublishPacket? && ps[0].publish.Qos() == qos then [ps[0].publish] else [])
      + PublishesIn(ps[1..], qos)
  }

  function OfQos(ms: seq<Publish>, qos: nat): seq<Publish> {
    if ms == [] then [] else (if ms[0].Qos() == qos then [ms[0]] else []) + OfQos(ms[1..], qos)
  }

  datatype Flight = Flight(message: Publish, state: PublishState)

  function Flights(fs: seq<InFlight>, qos: nat): seq<Flight> {
    if fs == [] then []
    else
      var m := fs[0].pending.message;
      (if m.Qos() == qos then [Flight(m, fs[0].state)] else []) + Flights(fs[1..], qos)
  }

  function Stage(ms: seq<Publish>, st: PublishState): seq<Flight> {
    seq(|ms|, i requires 0 <= i < |ms| => Flight(ms[i], st))
  }

  /** The acknowledgements that a receiver with an open entry sends. */
  function Replies(ms: seq<Publish>): seq<Ack> {
    seq(|ms|, i requires 0 <= i < |ms| => Reply(ms[i].packetIdentifier, 0))
  }

  /** Where the QoS 2 publishes of one direction are, oldest first: finished at the sender; released,
      with the PUBCOMP on its way back; known at the receiver, with the PUBREL on its way; known,
      with the PUBREC on its way back; still on their way. The same for QoS 1. */
  datatype Cut = Cut(done: seq<Publish>, comp: seq<Publish>, rel: seq<Publish>, rec: seq<Publish>, fly: seq<Publish>,
                     done1: seq<Publish>, ack1: seq<Publish>, fly1: seq<Publish>)

  /** x sends to y; y has read r of x's packets and x has read t of y's. */
  predicate Link2(x: State, y: State, r: nat, t: nat, c: Cut)
    requires r <= |x.sent| && t <= |y.sent|
  {
    && x.finished == c.done && y.released == c.done + c.comp && y.received == c.rel + c.rec
    && AcksIn(y.sent[t..], Pubcomps) == Replies(c.comp)
    && AcksIn(x.sent[r..], Pubrels) == Replies(c.rel)
    && AcksIn(y.sent[t..], Pubrecs) == Replies(c.rec)
    && PublishesIn(x.sent[r..], 2) == c.fly
    && Flights(x.published, 2) == Stage(c.comp + c.rel, WaitingPubcomp) + Stage(c.rec + c.fly, WaitingPubrec)
    && PublishesIn(x.sent, 2) == c.done + c.comp + c.rel + c.rec + c.fly
  }

  predicate Link1(x: State, y: State, r: nat, t: nat, c: Cut)
    requires r <= |x.sent| && t <= |y.sent|
  {
    && x.acknowledged == c.done1 && OfQos(y.direct, 1) == c.done1 + c.ack1
    && AcksIn(y.sent[t..], Pubacks) == Replies(c.ack1)
    && PublishesIn(x.sent[r..], 1) == c.fly1
    && Flights(x.published, 1) == Stage(c.ack1 + c.fly1, WaitingPuback)
    && PublishesIn(x.sent, 1) == c.done1 + c.ack1 + c.fly1
  }

  predicate Link0(x: State, y: State, r: nat)
    requires r <= |x.sent|
  {
    PublishesIn(x.sent, 0) == OfQos(y.direct, 0) + PublishesIn(x.sent[r..], 0)
  }

  predicate Link(x: State, y: State, r: nat, t: nat, c: Cut) {
    r <= |x.sent| && t <= |y.sent| && Link2(x, y, r, t, c) && Link1(x, y, r, t, c) && Link0(x, y, r)
  }

  ghost predicate Linked(x: State, y: State, r: nat, t: nat) {
    exists c :: Link(x, y, r, t, c)
  }

  predicate DistinctIds(fs: seq<InFlight>) {
    forall i, j :: 0 <= i < j < |fs| ==> fs[i].Id() != fs[j].Id()
  }

  // ---------------------------------------------------------------- sequences

  lemma {:induction false} AcksConcat(ps: seq<Packet>, qs: seq<Packet>, k: AckKind)
    ensures AcksIn(ps + qs, k) == AcksIn(ps, k) + AcksIn(qs, k)
  {
    if ps == [] {
      assert ps + qs == qs && [] + AcksIn(qs, k) == AcksIn(qs, k);
    } else {
      var head := if IsAck(ps[0], k) then [ps[0].ack] else [];
      assert (ps + qs)[1..] == ps[1..] + qs;
      AcksConcat(ps[1..], qs, k);
      Assoc(head, AcksIn(ps[1..], k), AcksIn(qs, k));
    }
  }

  lemma {:induction false} PublishesConcat(ps: seq<Packet>, qs: seq<Packet>, qos: nat)
    ensures PublishesIn(ps + qs, qos) == PublishesIn(ps, qos) + PublishesIn(qs, qos)
  {
    if ps == [] {
      assert ps + qs == qs && [] + PublishesIn(qs, qos) == PublishesIn(qs, qos);
    } else {
      var head := if ps[0].PublishPacket? && ps[0].publish.Qos() == qos then [ps[0].publish] else [];
      assert (ps + qs)[1..] == ps[1..] + qs;
      PublishesConcat(ps[1..], qs, qos);
      Assoc(head, PublishesIn(ps[1..], qos), PublishesIn(qs, qos));
    }
  }

  lemma {:induction false} OfQosConcat(ms: seq<Publish>, ns: seq<Publish>, qos: nat)
    ensures OfQos(ms + ns, qos) == OfQos(ms, qos) + OfQos(ns, qos)
  {
    if ms == [] {
      assert ms + ns == ns && [] + OfQos(ns, qos) == OfQos(ns, qos);
    } else {
      var head := if ms[0].Qos() == qos then [ms[0]] else [];
      assert (ms + ns)[1..] == ms[1..] + ns;
      OfQosConcat(ms[1..], ns, qos);
      Assoc(head, OfQos(ms[1..], qos), OfQos(ns, qos));
    }
  }

  lemma {:induction false} FlightsConcat(fs: seq<InFlight>, gs: seq<InFlight>, qos: nat)
    ensures Flights(fs + gs, qos) == Flights(fs, qos) + Flights(gs, qos)
  {
    if fs == [] {
      assert fs + gs == gs && [] + Flights(gs, qos) == Flights(gs, qos);
    } else {
      var m := fs[0].pending.message;
      assert (fs + gs)[1..] == fs[1..] + gs;
      FlightsConcat(fs[1..], gs, qos);
      Assoc(if m.Qos() == qos then [Flight(m, fs[0].state)] else [], Flights(fs[1..], qos), Flights(gs, qos));
    }
  }

  /** The packet at the head of a channel, and the rest. */
  lemma Head(ps: seq<Packet>, r: nat, qos: nat, k: AckKind)
    requires r < |ps|
    ensures AcksIn(ps[r..], k) == (if IsAck(ps[r], k) then [ps[r].ack] else []) + AcksIn(ps[r + 1..], k)
    ensures PublishesIn(ps[r..], qos) ==
            (if ps[r].PublishPacket? && ps[r].publish.Qos() == qos then [ps[r].publish] else [])
                + PublishesIn(ps[r + 1..], qos)
  {
    assert ps[r..][1..] == ps[r + 1..];
  }

  /** What is appended to a channel. */
  lemma Tail(ps: seq<Packet>, qs: seq<Packet>, r: nat, qos: nat, k: AckKind)
    requires r <= |ps| && ps <= qs
    ensures AcksIn(qs[r..], k) == AcksIn(ps[r..], k) + AcksIn(qs[|ps|..], k)
    ensures PublishesIn(qs[r..], qos) == PublishesIn(ps[r..], qos) + PublishesIn(qs[|ps|..], qos)
    ensures PublishesIn(qs, qos) == PublishesIn(ps, qos) + PublishesIn(qs[|ps|..], qos)
  {
    var d := qs[|ps|..];
    assert qs == ps + d && qs[r..] == ps[r..] + d;
    AcksConcat(ps[r..], d, k);
    PublishesConcat(ps[r..], d, qos);
    PublishesConcat(ps, d, qos);
  }

  lemma {:induction false} NoAcks(ps: seq<Packet>, k: AckKind)
    requires forall i :: 0 <= i < |ps| ==> !IsAck(ps[i], k)
    ensures AcksIn(ps, k) == []
  {
    if ps != [] {
      NoAcks(ps[1..], k);
    }
  }

  lemma {:induction false} LaunchedPublishes(ps: seq<Packet>, qos: nat)
    requires qos != 0
    ensures OfQos(LaunchedIn(ps), qos) == PublishesIn(ps, qos)
    decreases |ps|
  {
    if ps != [] {
      var n := |ps| - 1;
      assert ps == ps[..n] + [ps[n]];
      LaunchedPublishes(ps[..n], qos);
      PublishesConcat(ps[..n], [ps[n]], qos);
      assert [ps[n]][1..] == [];
      var last := if ps[n].PublishPacket? && ps[n].publish.Qos() != 0 then [ps[n].publish] else [];
      OfQosConcat(LaunchedIn(ps[..n]), last, qos);
    }
  }

  /** The k-th in-flight message of a QoS sits somewhere in the table. */
  lemma {:induction false} Rank(fs: seq<InFlight>, qos: nat, k: nat) returns (i: nat)
    requires k < |Flights(fs, qos)|
    ensures i < |fs| && fs[i].pending.message.Qos() == qos
    ensures Flights(fs, qos)[k] == Flight(fs[i].pending.message, fs[i].state)
    ensures |Flights(fs[..i], qos)| == k
  {
    if fs[0].pending.message.Qos() == qos && k == 0 {
      i := 0;
    } else {
      var here := if fs[0].pending.message.Qos() == qos then 1 else 0;
      var j := Rank(fs[1..], qos, k - here);
      i := j + 1;
      assert fs[..i][1..] == fs[1..][..j];
    }
  }

  lemma Split(fs: seq<InFlight>, i: nat, f: InFlight, qos: nat)
    requires i < |fs|
    ensures Flights(fs[i := f], qos) == Flights(fs[..i], qos) + Flights([f], qos) + Flights(fs[i + 1..], qos)
    ensures Flights(Remove(fs, i), qos) == Flights(fs[..i], qos) + Flights(fs[i + 1..], qos)
    ensures fs[i := fs[i]] == fs
  {
    assert fs[i := f] == fs[..i] + [f] + fs[i + 1..];
    FlightsConcat(fs[..i] + [f], fs[i + 1..], qos);
    FlightsConcat(fs[..i], [f], qos);
    FlightsConcat(fs[..i], fs[i + 1..], qos);
  }

  /** An acknowledgement with its identifier finds it there, and what the handlers do with it. */
  lemma FindFlight(fs: seq<InFlight>, qos: nat, k: nat, id: uint16, st: PublishState, other: nat) returns (i: nat)
    requires DistinctIds(fs) && k < |Flights(fs, qos)| && other != qos
    requires Flights(fs, qos)[k].message.packetIdentifier == id
    ensures i == InFlightIndex(fs, id) < |fs|
    ensures Flights(fs, qos)[k] == Flight(fs[i].pending.message, fs[i].state) && fs[i].pending.message.Qos() == qos
    ensures Flights(Remove(fs, i), qos) == Flights(fs, qos)[..k] + Flights(fs, qos)[k + 1..]
    ensures Flights(Remove(fs, i), other) == Flights(fs, other)
    ensures Flights(fs[i := fs[i].(state := st)], qos) == Flights(fs, qos)[k := Flights(fs, qos)[k].(state := st)]
    ensures Flights(fs[i := fs[i].(state := st)], other) == Flights(fs, other)
  {
    hide Flights, InFlightIndex, DistinctIds;
    i := Rank(fs, qos, k);
    Found(fs, i, id);
    TakenOrMoved(fs, i, qos, st);
    TakenOrMoved(fs, i, other, st);
  }

  lemma TakenOrMoved(fs: seq<InFlight>, i: nat, qos: nat, st: PublishState)
    requires i < |fs|
    ensures var all, k, left := Flights(fs, qos), |Flights(fs[..i], qos)|, Flights(Remove(fs, i), qos);
            var moved := Flights(fs[i := fs[i].(state := st)], qos);
            if fs[i].pending.message.Qos() == qos then
              k < |all| && left == all[..k] + all[k + 1..] && moved == all[k := all[k].(state := st)]
            else left == all && moved == all
  {
    hide Flights;
    var before, after := Flights(fs[..i], qos), Flights(fs[i + 1..], qos);
    Split(fs, i, fs[i], qos);
    Split(fs, i, fs[i].(state := st), qos);
    OneFlight(fs[i], qos);
    OneFlight(fs[i].(state := st), qos);
    assert before + [] == before;
  }

  lemma OneFlight(f: InFlight, qos: nat)
    ensures Flights([f], qos) == if f.pending.message.Qos() == qos then [Flight(f.pending.message, f.state)] else []
  {
    assert [f][1..] == [];
  }

  lemma Found(fs: seq<InFlight>, i: nat, id: uint16)
    requires DistinctIds(fs) && i < |fs| && fs[i].Id() == id
    ensures InFlightIndex(fs, id) == i
  {
  }

  lemma FlightsDistinct(fs: seq<InFlight>, qos: nat, j: nat, k: nat)
    requires DistinctIds(fs) && j < k < |Flights(fs, qos)|
    ensures Flights(fs, qos)[j].message.packetIdentifier != Flights(fs, qos)[k].message.packetIdentifier
  {
    var a := Rank(fs, qos, j);
    var b := Rank(fs, qos, k);
    assert a != b;
  }

  // ---------------------------------------------------------------- the quiet half of a step

  /** The sending side writes and launches new publishes, and otherwise nothing. */
  predicate Sends(x: State, u: State) {
    && x.sent <= u.sent && u.finished == x.finished && u.acknowledged == x.acknowledged
    && AcksIn(u.sent[|x.sent|..], Pubrels) == []
    && Flights(u.published, 2) == Flights(x.published, 2) + Stage(PublishesIn(u.sent[|x.sent|..], 2), WaitingPubrec)
    && Flights(u.published, 1) == Flights(x.published, 1) + Stage(PublishesIn(u.sent[|x.sent|..], 1), WaitingPuback)
  }

  /** The receiving side neither takes nor answers anything. */
  predicate Quiet(y: State, u: State) {
    && y.sent <= u.sent && u.received == y.received && u.released == y.released && u.direct == y.direct
    && AcksIn(u.sent[|y.sent|..], Pubacks) == []
    && AcksIn(u.sent[|y.sent|..], Pubrecs) == []
    && AcksIn(u.sent[|y.sent|..], Pubcomps) == []
  }

  lemma LinkSends(x: State, u: State, y: State, r: nat, t: nat)
    requires Linked(x, y, r, t) && Sends(x, u)
    ensures Linked(u, y, r, t)
  {
    hide AcksIn, PublishesIn, Flights, OfQos;
    var c :| Link(x, y, r, t, c);
    var new2, new1 := PublishesIn(u.sent[|x.sent|..], 2), PublishesIn(u.sent[|x.sent|..], 1);
    var d := c.(fly := c.fly + new2, fly1 := c.fly1 + new1);
    Tail(x.sent, u.sent, r, 2, Pubrels);
    Tail(x.sent, u.sent, r, 1, Pubrels);
    Tail(x.sent, u.sent, r, 0, Pubrels);
    assert Stage(c.rec + d.fly, WaitingPubrec) == Stage(c.rec + c.fly, WaitingPubrec) + Stage(new2, WaitingPubrec);
    assert Stage(c.ack1 + d.fly1, WaitingPuback) == Stage(c.ack1 + c.fly1, WaitingPuback) + Stage(new1, WaitingPuback);
    Assoc(Stage(c.comp + c.rel, WaitingPubcomp), Stage(c.rec + c.fly, WaitingPubrec), Stage(new2, WaitingPubrec));
    Assoc(c.done + c.comp + c.rel + c.rec, c.fly, new2);
    Assoc(c.done1 + c.ack1, c.fly1, new1);
    Assoc(OfQos(y.direct, 0), PublishesIn(x.sent[r..], 0), PublishesIn(u.sent[|x.sent|..], 0));
    assert Link(u, y, r, t, d);
  }

  lemma LinkQuiet(x: State, y: State, u: State, r: nat, t: nat)
    requires Linked(x, y, r, t) && Quiet(y, u)
    ensures Linked(x, u, r, t)
  {
    hide AcksIn, PublishesIn, Flights, OfQos;
    var c :| Link(x, y, r, t, c);
    Tail(y.sent, u.sent, t, 0, Pubacks);
    Tail(y.sent, u.sent, t, 0, Pubrecs);
    Tail(y.sent, u.sent, t, 0, Pubcomps);
    assert Link(x, u, r, t, c);
  }

  lemma {:induction false} LaunchedConcat(ps: seq<Packet>, qs: seq<Packet>)
    ensures LaunchedIn(ps + qs) == LaunchedIn(ps) + LaunchedIn(qs)
    decreases |qs|
  {
    if qs == [] {
      assert ps + qs == ps;
    } else {
      var n := |qs| - 1;
      assert (ps + qs)[..|ps + qs| - 1] == ps + qs[..n];
      LaunchedConcat(ps, qs[..n]);
      Assoc(LaunchedIn(ps), LaunchedIn(qs[..n]),
          if qs[n].PublishPacket? && qs[n].publish.Qos() != 0 then [qs[n].publish] else []);
    }
  }

  lemma NewMessages(fs: seq<InFlight>)
    ensures Messages(Pendings(fs)) ==
            if fs == [] then [] else [fs[0].pending.message] + Messages(Pendings(fs[1..]))
  {
  }

  lemma StageCons(ms: seq<Publish>, st: PublishState)
    ensures Stage(ms, st) == if ms == [] then [] else [Flight(ms[0], st)] + Stage(ms[1..], st)
  {
  }

  lemma {:induction false} NewFlights(fs: seq<InFlight>, qos: nat)
    requires forall i :: 0 <= i < |fs| ==> Launched(fs[i])
    ensures Flights(fs, qos)
            == Stage(OfQos(Messages(Pendings(fs)), qos), if qos == 2 then WaitingPubrec else WaitingPuback)
  {
    hide Messages, Pendings, Stage;
    NewMessages(fs);
    var st := if qos == 2 then WaitingPubrec else WaitingPuback;
    if fs == [] {
      StageCons([], st);
    } else {
      NewFlights(fs[1..], qos);
      assert Messages(Pendings(fs))[1..] == Messages(Pendings(fs[1..]));
      var ms := OfQos(Messages(Pendings(fs)), qos);
      StageCons(ms, st);
      if fs[0].pending.message.Qos() == qos {
        assert Launched(fs[0]);
        assert ms[1..] == OfQos(Messages(Pendings(fs[1..])), qos);
      } else {
        assert ms == OfQos(Messages(Pendings(fs[1..])), qos);
        assert Flights(fs, qos) == Flights(fs[1..], qos);
      }
    }
  }

  lemma ExtendsLaunches(s: State, t: State)
    requires Extends(s, t)
    ensures LaunchedIn(t.sent[|s.sent|..]) == Messages(Pendings(t.published[|s.published|..]))
  {
    hide LaunchedIn, Messages, Pendings;
    assert t.sent == s.sent + t.sent[|s.sent|..];
    LaunchedConcat(s.sent, t.sent[|s.sent|..]);
    Cancel(LaunchedIn(s.sent), LaunchedIn(t.sent[|s.sent|..]), Messages(Pendings(t.published[|s.published|..])));
  }

  lemma Cancel<T>(a: seq<T>, b: seq<T>, c: seq<T>)
    requires a + b == a + c
    ensures b == c
  {
    assert b == (a + b)[|a|..];
    assert c == (a + c)[|a|..];
  }

  lemma ExtendsSends(s: State, t: State)
    requires Extends(s, t)
    ensures Sends(s, t)
  {
    hide LaunchedIn, Messages, Pendings;
    var ps, fs := t.sent[|s.sent|..], t.published[|s.published|..];
    ExtendsLaunches(s, t);
    NoAcks(ps, Pubrels);
    assert t.published == s.published + fs;
    FlightsConcat(s.published, fs, 1);
    FlightsConcat(s.published, fs, 2);
    NewFlights(fs, 1);
    NewFlights(fs, 2);
    LaunchedPublishes(ps, 1);
    LaunchedPublishes(ps, 2);
  }

  lemma ExtendsQuiet(s: State, t: State)
    requires Extends(s, t)
    ensures Quiet(s, t)
  {
    hide LaunchedIn;
    NoAcks(t.sent[|s.sent|..], Pubacks);
    NoAcks(t.sent[|s.sent|..], Pubrecs);
    NoAcks(t.sent[|s.sent|..], Pubcomps);
  }

  lemma ReceivesNothingQuiet(s: State, t: State)
    requires ReceivesNothing(s, t)
    ensures Quiet(s, t)
  {
    NoAcks(t.sent[|s.sent|..], Pubacks);
    NoAcks(t.sent[|s.sent|..], Pubrecs);
    NoAcks(t.sent[|s.sent|..], Pubcomps);
  }

  // ---------------------------------------------------------------- what one direction ignores

  lemma SkipAtReceiver(x: State, y: State, r: nat, t: nat)
    requires Linked(x, y, r, t) && r < |x.sent|
    requires !x.sent[r].PubrelPacket? && !(x.sent[r].PublishPacket? && x.sent[r].publish.Qos() <= 2)
    ensures Linked(x, y, r + 1, t)
  {
    hide AcksIn, PublishesIn, Flights, OfQos;
    var c :| Link(x, y, r, t, c);
    Head(x.sent, r, 0, Pubrels);
    Head(x.sent, r, 1, Pubrels);
    Head(x.sent, r, 2, Pubrels);
    assert Link(x, y, r + 1, t, c);
  }

  lemma SkipAtSender(x: State, y: State, r: nat, t: nat)
    requires Linked(x, y, r, t) && t < |y.sent|
    requires !y.sent[t].PubackPacket? && !y.sent[t].PubrecPacket? && !y.sent[t].PubcompPacket?
    ensures Linked(x, y, r, t + 1)
  {
    hide AcksIn, PublishesIn, Flights, OfQos;
    var c :| Link(x, y, r, t, c);
    Head(y.sent, t, 0, Pubacks);
    Head(y.sent, t, 0, Pubrecs);
    Head(y.sent, t, 0, Pubcomps);
    assert Link(x, y, r, t + 1, c);
  }

  // ---------------------------------------------------------------- the receiver's moves

  lemma Answered(y: State, u: State, p: Packet, t: nat, k: AckKind)
    requires u.sent == y.sent + [p] && t <= |y.sent|
    ensures AcksIn(u.sent[t..], k) == AcksIn(y.sent[t..], k) + (if IsAck(p, k) then [p.ack] else [])
  {
    assert u.sent[t..] == y.sent[t..] + [p];
    AcksConcat(y.sent[t..], [p], k);
    assert [p][1..] == [];
  }

  lemma RepliesSnoc(ms: seq<Publish>, m: Publish)
    ensures Replies(ms + [m]) == Replies(ms) + [Reply(m.packetIdentifier, 0)]
  {
  }

  /** The first acknowledgement on its way is the one for the oldest message. */
  lemma FirstReply(a: Ack, acks: seq<Ack>, ms: seq<Publish>)
    requires [a] + acks == Replies(ms)
    ensures ms != [] && a == Reply(ms[0].packetIdentifier, 0) && acks == Replies(ms[1..]) && ms == [ms[0]] + ms[1..]
  {
    assert a == ([a] + acks)[0] && acks == ([a] + acks)[1..];
    assert Replies(ms)[1..] == Replies(ms[1..]);
  }

  /** A QoS 2 PUBLISH is never one that the receiver already knows. */
  lemma NotKnown(x: State, y: State, r: nat, t: nat, c: Cut, m: Publish)
    requires Link(x, y, r, t, c) && DistinctIds(x.published) && c.fly != [] && c.fly[0] == m
    ensures ReceivedIndex(y.received, m.packetIdentifier) == |y.received|
  {
    hide AcksIn, PublishesIn, Flights, OfQos;
    var i := ReceivedIndex(y.received, m.packetIdentifier);
    var n := |c.comp| + |y.received|;
    var fs := Flights(x.published, 2);
    assert fs[n].message == m;
    if i < |y.received| {
      assert fs[|c.comp| + i].message == y.received[i];
      FlightsDistinct(x.published, 2, |c.comp| + i, n);
    }
  }

  lemma TakePublish2(x: State, y: State, r: nat, t: nat, m: Publish)
    requires Linked(x, y, r, t) && DistinctIds(x.published) && r < |x.sent|
    requires x.sent[r] == PublishPacket(m) && m.Qos() == 2
    ensures ReceivedIndex(y.received, m.packetIdentifier) == |y.received|
    ensures Linked(x, Send(y.(received := y.received + [m]), PubrecPacket(Reply(m.packetIdentifier, 0))), r + 1, t)
  {
    hide AcksIn, PublishesIn, Flights, OfQos;
    var c :| Link(x, y, r, t, c);
    Head(x.sent, r, 0, Pubrels);
    Head(x.sent, r, 1, Pubrels);
    Head(x.sent, r, 2, Pubrels);
    assert c.fly == [m] + c.fly[1..];
    NotKnown(x, y, r, t, c, m);
    var p := PubrecPacket(Reply(m.packetIdentifier, 0));
    var u := Send(y.(received := y.received + [m]), p);
    var d := c.(rec := c.rec + [m], fly := c.fly[1..]);
    Answered(y, u, p, t, Pubacks);
    Answered(y, u, p, t, Pubrecs);
    Answered(y, u, p, t, Pubcomps);
    RepliesSnoc(c.rec, m);
    Assoc(c.rec, [m], c.fly[1..]);
    Assoc(c.done + c.comp + c.rel, c.rec, [m]);
    Assoc(c.done + c.comp + c.rel + c.rec, [m], c.fly[1..]);
    Assoc(c.rel, c.rec, [m]);
    assert Link(x, u, r + 1, t, d);
  }

  lemma TakePublish1(x: State, y: State, r: nat, t: nat, m: Publish)
    requires Linked(x, y, r, t) && r < |x.sent| && x.sent[r] == PublishPacket(m) && m.Qos() == 1
    ensures Linked(x, Send(y, PubackPacket(Reply(m.packetIdentifier, 0))).(direct := y.direct + [m]), r + 1, t)
  {
    hide AcksIn, PublishesIn, Flights, OfQos;
    var c :| Link(x, y, r, t, c);
    Head(x.sent, r, 0, Pubrels);
    Head(x.sent, r, 1, Pubrels);
    Head(x.sent, r, 2, Pubrels);
    assert c.fly1 == [m] + c.fly1[1..];
    var p := PubackPacket(Reply(m.packetIdentifier, 0));
    var u := Send(y, p).(direct := y.direct + [m]);
    var d := c.(ack1 := c.ack1 + [m], fly1 := c.fly1[1..]);
    Answered(y, u, p, t, Pubacks);
    Answered(y, u, p, t, Pubrecs);
    Answered(y, u, p, t, Pubcomps);
    RepliesSnoc(c.ack1, m);
    OneMore(y.direct, m);
    Assoc(c.done1, c.ack1, [m]);
    Assoc(c.done1 + c.ack1, [m], c.fly1[1..]);
    Assoc(c.ack1, [m], c.fly1[1..]);
    assert Link(x, u, r + 1, t, d);
  }

  lemma OneMore(ms: seq<Publish>, m: Publish)
    ensures forall qos: nat :: OfQos(ms + [m], qos) == OfQos(ms, qos) + (if m.Qos() == qos then [m] else [])
  {
    forall qos: nat ensures OfQos(ms + [m], qos) == OfQos(ms, qos) + (if m.Qos() == qos then [m] else []) {
      OfQosConcat(ms, [m], qos);
      assert [m][1..] == [];
    }
  }

  lemma TakePublish0(x: State, y: State, r: nat, t: nat, m: Publish)
    requires Linked(x, y, r, t) && r < |x.sent| && x.sent[r] == PublishPacket(m) && m.Qos() != 1 && m.Qos() != 2
    ensures Linked(x, y.(direct := y.direct + [m]), r + 1, t)
  {
    hide AcksIn, PublishesIn, Flights, OfQos;
    var c :| Link(x, y, r, t, c);
    Head(x.sent, r, 0, Pubrels);
    Head(x.sent, r, 1, Pubrels);
    Head(x.sent, r, 2, Pubrels);
    OneMore(y.direct, m);
    Assoc(OfQos(y.direct, 0), if m.Qos() == 0 then [m] else [], PublishesIn(x.sent[r + 1..], 0));
    assert Link(x, y.(direct := y.direct + [m]), r + 1, t, c);
  }

  /** A PUBREL always finds the oldest open entry. */
  lemma TakePubrel(x: State, y: State, r: nat, t: nat, a: Ack)
    requires Linked(x, y, r, t) && r < |x.sent| && x.sent[r] == PubrelPacket(a)
    ensures y.received != [] && ReceivedIndex(y.received, a.packetIdentifier) == 0
    ensures Linked(x, Send(y.(received := Remove(y.received, 0), released := y.released + [y.received[0]]),
                           PubcompPacket(Reply(a.packetIdentifier, 0))), r + 1, t)
  {
    hide AcksIn, PublishesIn, Flights, OfQos;
    var c :| Link(x, y, r, t, c);
    Head(x.sent, r, 0, Pubrels);
    Head(x.sent, r, 1, Pubrels);
    Head(x.sent, r, 2, Pubrels);
    assert a == Replies(c.rel)[0];
    var m, p := c.rel[0], PubcompPacket(Reply(a.packetIdentifier, 0));
    assert c.rel == [m] + c.rel[1..];
    var u := Send(y.(received := Remove(y.received, 0), released := y.released + [y.received[0]]), p);
    var d := c.(comp := c.comp + [m], rel := c.rel[1..]);
    Answered(y, u, p, t, Pubacks);
    Answered(y, u, p, t, Pubrecs);
    Answered(y, u, p, t, Pubcomps);
    RepliesSnoc(c.comp, m);
    assert Replies(c.rel)[1..] == Replies(d.rel);
    assert u.received == d.rel + d.rec;
    Assoc(c.comp, [m], d.rel);
    Assoc(c.done, c.comp, [m]);
    Assoc(c.done + c.comp, [m], d.rel);
    assert Link(x, u, r + 1, t, d);
  }

  // ---------------------------------------------------------------- the sender's moves

  lemma FindPuback(x: State, y: State, r: nat, t: nat, c: Cut) returns (i: nat)
    requires Link(x, y, r, t, c) && DistinctIds(x.published) && c.ack1 != []
    ensures i == InFlightIndex(x.published, c.ack1[0].packetIdentifier) < |x.published|
    ensures x.published[i].state == WaitingPuback && x.published[i].pending.message == c.ack1[0] && c.ack1[0].Qos() == 1
    ensures Flights(Remove(x.published, i), 2) == Flights(x.published, 2)
    ensures Flights(Remove(x.published, i), 1) == Stage(c.ack1[1..] + c.fly1, WaitingPuback)
  {
    hide AcksIn, PublishesIn, Flights, OfQos, InFlightIndex, Link2;
    var m, fs := c.ack1[0], Flights(x.published, 1);
    assert fs[0] == Flight(m, WaitingPuback);
    i := FindFlight(x.published, 1, 0, m.packetIdentifier, WaitingPuback, 2);
    assert fs[..0] + fs[1..] == fs[1..] == Stage(c.ack1[1..] + c.fly1, WaitingPuback);
  }

  /** A PUBACK always finds the oldest QoS 1 message in flight, waiting for it. */
  lemma TakePuback(x: State, y: State, r: nat, t: nat, a: Ack) returns (i: nat)
    requires Linked(x, y, r, t) && DistinctIds(x.published) && t < |y.sent| && y.sent[t] == PubackPacket(a)
    ensures i == InFlightIndex(x.published, a.packetIdentifier) < |x.published| && x.published[i].state == WaitingPuback
    ensures x.published[i].pending.message.Qos() == 1 && a.reasonCode == 0
    ensures Linked(x.(acknowledged := x.acknowledged + [x.published[i].pending.message],
                      published := Remove(x.published, i)),
                   y, r, t + 1)
  {
    hide AcksIn, PublishesIn, Flights, OfQos, InFlightIndex, Stage, Replies;
    var c :| Link(x, y, r, t, c);
    Head(y.sent, t, 0, Pubacks);
    Head(y.sent, t, 0, Pubrecs);
    Head(y.sent, t, 0, Pubcomps);
    FirstReply(a, AcksIn(y.sent[t + 1..], Pubacks), c.ack1);
    i := FindPuback(x, y, r, t, c);
    var m, d := c.ack1[0], c.(done1 := c.done1 + [c.ack1[0]], ack1 := c.ack1[1..]);
    Assoc(c.done1, [m], d.ack1);
    assert Link(x.(acknowledged := x.acknowledged + [m], published := Remove(x.published, i)), y, r, t + 1, d);
  }

  lemma FindPubrec(x: State, y: State, r: nat, t: nat, c: Cut) returns (i: nat)
    requires Link(x, y, r, t, c) && DistinctIds(x.published) && c.rec != []
    ensures i == InFlightIndex(x.published, c.rec[0].packetIdentifier) < |x.published|
    ensures x.published[i].state == WaitingPubrec && x.published[i].pending.message.Qos() == 2
    ensures var fs := x.published[i := x.published[i].(state := WaitingPubcomp)];
            && Flights(fs, 1) == Flights(x.published, 1)
            && Flights(fs, 2)
               == Stage(c.comp + (c.rel + [c.rec[0]]), WaitingPubcomp) + Stage(c.rec[1..] + c.fly, WaitingPubrec)
  {
    hide AcksIn, PublishesIn, Flights, OfQos;
    var m, fs, k := c.rec[0], Flights(x.published, 2), |c.comp + c.rel|;
    assert fs[k] == Flight(m, WaitingPubrec);
    i := FindFlight(x.published, 2, k, m.packetIdentifier, WaitingPubcomp, 1);
    assert fs[k := fs[k].(state := WaitingPubcomp)]
        == Stage(c.comp + (c.rel + [m]), WaitingPubcomp) + Stage(c.rec[1..] + c.fly, WaitingPubrec);
  }

  lemma WritePubrel(x: State, u: State, p: Packet, r: nat)
    requires u.sent == x.sent + [p] && p.PubrelPacket? && r <= |x.sent|
    ensures AcksIn(u.sent[r..], Pubrels) == AcksIn(x.sent[r..], Pubrels) + [p.ack]
    ensures PublishesIn(u.sent[r..], 0) == PublishesIn(x.sent[r..], 0)
            && PublishesIn(u.sent, 0) == PublishesIn(x.sent, 0)
    ensures PublishesIn(u.sent[r..], 1) == PublishesIn(x.sent[r..], 1)
            && PublishesIn(u.sent, 1) == PublishesIn(x.sent, 1)
    ensures PublishesIn(u.sent[r..], 2) == PublishesIn(x.sent[r..], 2)
            && PublishesIn(u.sent, 2) == PublishesIn(x.sent, 2)
  {
    hide AcksIn, PublishesIn;
    Answered(x, u, p, r, Pubrels);
    Tail(x.sent, u.sent, r, 0, Pubrels);
    Tail(x.sent, u.sent, r, 1, Pubrels);
    Tail(x.sent, u.sent, r, 2, Pubrels);
    NoPublishes(u.sent[|x.sent|..], p);
  }

  /** A PUBREC always finds the oldest QoS 2 message that waits for one. */
  lemma TakePubrec(x: State, y: State, r: nat, t: nat, a: Ack) returns (i: nat)
    requires Linked(x, y, r, t) && DistinctIds(x.published) && t < |y.sent| && y.sent[t] == PubrecPacket(a)
    ensures i == InFlightIndex(x.published, a.packetIdentifier) < |x.published| && x.published[i].state == WaitingPubrec
    ensures x.published[i].pending.message.Qos() == 2 && a == Reply(a.packetIdentifier, 0)
    ensures Linked(Send(x.(published := x.published[i := x.published[i].(state := WaitingPubcomp)]),
                        PubrelPacket(Reply(a.packetIdentifier, 0))), y, r, t + 1)
  {
    hide AcksIn, PublishesIn, Flights, OfQos, InFlightIndex, Stage, Replies;
    var c :| Link(x, y, r, t, c);
    Head(y.sent, t, 0, Pubacks);
    Head(y.sent, t, 0, Pubrecs);
    Head(y.sent, t, 0, Pubcomps);
    FirstReply(a, AcksIn(y.sent[t + 1..], Pubrecs), c.rec);
    i := FindPubrec(x, y, r, t, c);
    var m, d := c.rec[0], c.(rel := c.rel + [c.rec[0]], rec := c.rec[1..]);
    Assoc(c.rel, [m], d.rec);
    Assoc(c.done + c.comp, c.rel, [m]);
    Assoc(c.done + c.comp + c.rel, [m], d.rec);
    RepliesSnoc(c.rel, m);
    var p := PubrelPacket(Reply(a.packetIdentifier, 0));
    var u := Send(x.(published := x.published[i := x.published[i].(state := WaitingPubcomp)]), p);
    WritePubrel(x, u, p, r);
    assert Link(u, y, r, t + 1, d);
  }

  lemma NoPublishes(ps: seq<Packet>, p: Packet)
    requires ps == [p] && !p.PublishPacket?
    ensures PublishesIn(ps, 0) == [] && PublishesIn(ps, 1) == [] && PublishesIn(ps, 2) == []
  {
    assert ps[1..] == [];
  }

  lemma FindPubcomp(x: State, y: State, r: nat, t: nat, c: Cut) returns (i: nat)
    requires Link(x, y, r, t, c) && DistinctIds(x.published) && c.comp != []
    ensures i == InFlightIndex(x.published, c.comp[0].packetIdentifier) < |x.published|
    ensures x.published[i].state == WaitingPubcomp && x.published[i].pending.message == c.comp[0]
            && c.comp[0].Qos() == 2
    ensures Flights(Remove(x.published, i), 1) == Flights(x.published, 1)
    ensures Flights(Remove(x.published, i), 2)
            == Stage(c.comp[1..] + c.rel, WaitingPubcomp) + Stage(c.rec + c.fly, WaitingPubrec)
  {
    hide AcksIn, PublishesIn, Flights, OfQos, InFlightIndex, Link1;
    var m, fs := c.comp[0], Flights(x.published, 2);
    assert fs[0] == Flight(m, WaitingPubcomp);
    i := FindFlight(x.published, 2, 0, m.packetIdentifier, WaitingPubcomp, 1);
    assert fs[..0] + fs[1..] == fs[1..]
        == Stage(c.comp[1..] + c.rel, WaitingPubcomp) + Stage(c.rec + c.fly, WaitingPubrec);
  }

  /** A PUBCOMP always finds the oldest QoS 2 message in flight, and it waits for a PUBCOMP, although
      the handler does not look. */
  lemma TakePubcomp(x: State, y: State, r: nat, t: nat, a: Ack) returns (i: nat)
    requires Linked(x, y, r, t) && DistinctIds(x.published) && t < |y.sent| && y.sent[t] == PubcompPacket(a)
    ensures i == InFlightIndex(x.published, a.packetIdentifier) < |x.published|
            && x.published[i].state == WaitingPubcomp
    ensures x.published[i].pending.message.Qos() == 2 && a.reasonCode == 0
    ensures Linked(x.(finished := x.finished + [x.published[i].pending.message], published := Remove(x.published, i)),
                   y, r, t + 1)
  {
    hide AcksIn, PublishesIn, Flights, OfQos, InFlightIndex, Stage, Replies;
    var c :| Link(x, y, r, t, c);
    Head(y.sent, t, 0, Pubacks);
    Head(y.sent, t, 0, Pubrecs);
    Head(y.sent, t, 0, Pubcomps);
    FirstReply(a, AcksIn(y.sent[t + 1..], Pubcomps), c.comp);
    i := FindPubcomp(x, y, r, t, c);
    var m, d := c.comp[0], c.(done := c.done + [c.comp[0]], comp := c.comp[1..]);
    Assoc(c.done, [m], d.comp);
    assert Link(x.(finished := x.finished + [m], published := Remove(x.published, i)), y, r, t + 1, d);
  }

  // ---------------------------------------------------------------- whole steps, seen from one direction

  /** The packet is written, or nothing; the tables of the sending side stay. */
  lemma WriteSends(x: State, u: State, ps: seq<Packet>)
    requires u.sent == x.sent + ps && |ps| <= 1 && (forall p :: p in ps ==> !p.PublishPacket? && !p.PubrelPacket?)
    requires u.published == x.published && u.finished == x.finished && u.acknowledged == x.acknowledged
    ensures Sends(x, u)
  {
    assert u.sent[|x.sent|..] == ps;
    NoAcks(ps, Pubrels);
    if ps != [] {
      assert ps[0] in ps;
      NoPublishes(ps, ps[0]);
    }
    assert Stage([], WaitingPubrec) == [] && Stage([], WaitingPuback) == [];
  }

  lemma CallbackSends(x: State, rx: Receiver, e: Event)
    ensures Sends(x, Callback(x, rx, e))
  {
    hide Extends, Callback, AcksIn, PublishesIn, Flights;
    CallbackExtends(x, rx, e);
    ExtendsSends(x.(log := x.log + [e]), Callback(x, rx, e));
  }

  lemma DeliverSends(x: State, m: Publish)
    ensures Sends(x, Deliver(x, m))
  {
    hide Extends, Deliver;
    DeliverExtends(x, m);
    ExtendsSends(x, Deliver(x, m));
  }

  lemma LaunchSends(x: State, p: Pending)
    ensures Sends(x, Launch(x, p))
  {
    var u, m := Launch(x, p), p.message;
    var f := u.published[|x.published|];
    assert u.sent[|x.sent|..] == [PublishPacket(m)] && [PublishPacket(m)][1..] == [];
    assert u.published == x.published + [f] && [f][1..] == [];
    FlightsConcat(x.published, [f], 1);
    FlightsConcat(x.published, [f], 2);
    StageCons([m], f.state);
    StageCons([], WaitingPubrec);
    StageCons([], WaitingPuback);
    assert [m][1..] == [];
  }

  lemma MaybeSendSends(x: State)
    ensures Sends(x, MaybeSendQueued(x))
  {
    hide Sends, Launch;
    if x.sendQuota < x.maxQuota && x.queue != [] {
      var u := x.(sendQuota := x.sendQuota + 1, queue := x.queue[1..]);
      LaunchSends(u, x.queue[0]);
      SameSends(x, u, Launch(u, x.queue[0]));
    } else {
      WriteSends(x, MaybeSendQueued(x), []);
    }
  }

  lemma SameSends(x: State, w: State, u: State)
    requires Sends(w, u) && x.sent == w.sent && x.published == w.published
    requires x.finished == w.finished && x.acknowledged == w.acknowledged
    ensures Sends(x, u)
  {
  }

  /** x handles a packet that is not an acknowledgement to its publishes. */
  lemma OtherAtSender(x: State, y: State, r: nat, t: nat)
    requires Linked(x, y, r, t) && t < |y.sent|
    requires !y.sent[t].PubackPacket? && !y.sent[t].PubrecPacket? && !y.sent[t].PubcompPacket?
    ensures Linked(Step(x, Recv(y.sent[t])), y, r, t + 1)
  {
    hide Linked, Sends, Deliver, Callback, ReceivedIndex, SubscribeIndex, UnsubscribeIndex;
    SkipAtSender(x, y, r, t);
    match y.sent[t]
    case PublishPacket(m) =>
      var v := TakeReceiveQuota(x, m);
      WriteSends(x, v, if m.Qos() == 0 || x.receiveQuota != 0 then []
                       else [DisconnectPacket(Disconnect(QUOTA_EXCEEDED, Records.NO_DISCONNECT))]);
      LinkSends(x, v, y, r, t + 1);
      PublishAtSender(v, y, r, t + 1, m);
    case PubrelPacket(a) =>
      var i, id := ReceivedIndex(x.received, a.packetIdentifier), a.packetIdentifier;
      if i == |x.received| {
        WriteSends(x, Step(x, Recv(y.sent[t])), [PubcompPacket(Reply(id, IDENTIFIER_NOT_FOUND))]);
        LinkSends(x, Step(x, Recv(y.sent[t])), y, r, t + 1);
      } else {
        var u := Send(x.(received := Remove(x.received, i), released := x.released + [x.received[i]]),
            PubcompPacket(Reply(id, 0)));
        WriteSends(x, u, [PubcompPacket(Reply(id, 0))]);
        LinkSends(x, u, y, r, t + 1);
        DeliverSends(u, x.received[i]);
        LinkSends(u, Deliver(u, x.received[i]), y, r, t + 1);
      }
    case SubackPacket(c) =>
      var i := SubscribeIndex(x.subscribes, c.packetIdentifier);
      if i < |x.subscribes| {
        var u := x.(subscribes := Remove(x.subscribes, i));
        WriteSends(x, u, []);
        CalledAtSender(x, u, y, r, t + 1, x.subscribes[i].receiver, Subscribed(x.subscribes[i], c.reasonCodes));
      }
    case UnsubackPacket(c) =>
      var i := UnsubscribeIndex(x.unsubscribes, c.packetIdentifier);
      if i < |x.unsubscribes| {
        var u := x.(unsubscribes := Remove(x.unsubscribes, i));
        WriteSends(x, u, []);
        CalledAtSender(x, u, y, r, t + 1, x.unsubscribes[i].receiver, Unsubscribed(x.unsubscribes[i], c.reasonCodes));
      }
    case _ =>
  }

  lemma CalledAtSender(x: State, u: State, y: State, r: nat, t: nat, rx: Receiver, e: Event)
    requires Linked(x, y, r, t) && Sends(x, u)
    ensures Linked(Callback(u, rx, e), y, r, t)
  {
    hide Linked, Sends, Callback;
    LinkSends(x, u, y, r, t);
    CallbackSends(u, rx, e);
    LinkSends(u, Callback(u, rx, e), y, r, t);
  }

  lemma PublishAtSender(v: State, y: State, r: nat, t: nat, m: Publish)
    requires Linked(v, y, r, t)
    ensures Linked(Deliver(Send(v, PubackPacket(Reply(m.packetIdentifier, 0))).(direct := v.direct + [m]), m), y, r, t)
    ensures Linked(Send(v, PubrecPacket(Reply(m.packetIdentifier, 0))), y, r, t)
    ensures Linked(Send(v.(received := v.received + [m]), PubrecPacket(Reply(m.packetIdentifier, 0))), y, r, t)
    ensures Linked(Deliver(v.(direct := v.direct + [m]), m), y, r, t)
  {
    hide Linked, Sends, Deliver;
    var a, b := PubackPacket(Reply(m.packetIdentifier, 0)), PubrecPacket(Reply(m.packetIdentifier, 0));
    var u, w := Send(v, a).(direct := v.direct + [m]), v.(direct := v.direct + [m]);
    WriteSends(v, u, [a]);
    LinkSends(v, u, y, r, t);
    DeliverSends(u, m);
    LinkSends(u, Deliver(u, m), y, r, t);
    WriteSends(v, Send(v, b), [b]);
    LinkSends(v, Send(v, b), y, r, t);
    WriteSends(v, Send(v.(received := v.received + [m]), b), [b]);
    LinkSends(v, Send(v.(received := v.received + [m]), b), y, r, t);
    WriteSends(v, w, []);
    LinkSends(v, w, y, r, t);
    DeliverSends(w, m);
    LinkSends(w, Deliver(w, m), y, r, t);
  }

  /** Any packet from y, at the sender x. */
  lemma AtSender(x: State, y: State, r: nat, t: nat)
    requires Linked(x, y, r, t) && DistinctIds(x.published) && t < |y.sent|
    ensures Linked(Step(x, Recv(y.sent[t])), y, r, t + 1)
  {
    hide Linked, Sends, DistinctIds, Callback, MaybeSendQueued, InFlightIndex;
    match y.sent[t]
    case PubackPacket(a) =>
      var i := TakePuback(x, y, r, t, a);
      var p := x.published[i].pending;
      var u := x.(acknowledged := x.acknowledged + [p.message], published := Remove(x.published, i));
      var v := Callback(u, p.receiver, Completed(p, Value(a.reasonCode)));
      CallbackSends(u, p.receiver, Completed(p, Value(a.reasonCode)));
      LinkSends(u, v, y, r, t + 1);
      MaybeSendSends(v);
      LinkSends(v, MaybeSendQueued(v), y, r, t + 1);
    case PubrecPacket(a) =>
      var i := TakePubrec(x, y, r, t, a);
    case PubcompPacket(a) =>
      var i := TakePubcomp(x, y, r, t, a);
      var p := x.published[i].pending;
      var u := x.(finished := x.finished + [p.message], published := Remove(x.published, i));
      WriteSends(u, u.(leaked := u.leaked + 1), []);
      CalledAtSender(u, u.(leaked := u.leaked + 1), y, r, t + 1, p.receiver, Completed(p, Value(a.reasonCode)));
    case _ => OtherAtSender(x, y, r, t);
  }

  /** Any packet from x, at the receiver y. */
  lemma AtReceiver(x: State, y: State, r: nat, t: nat)
    requires Linked(x, y, r, t) && DistinctIds(x.published) && r < |x.sent|
    ensures Linked(x, Step(y, Recv(x.sent[r])), r + 1, t)
  {
    hide Linked, Quiet, DistinctIds, Deliver, ReceivedIndex, ReceivesNothing, HandlePuback, HandlePubrec,
         HandlePubcomp, HandleSuback, HandleUnsuback;
    match x.sent[r]
    case PublishPacket(m) =>
      var v := TakeReceiveQuota(y, m);
      QuotaQuiet(y, m);
      LinkQuiet(x, y, v, r, t);
      if m.Qos() == 2 {
        TakePublish2(x, v, r, t, m);
      } else {
        var w := if m.Qos() == 1 then Send(v, PubackPacket(Reply(m.packetIdentifier, 0))) else v;
        var u := w.(direct := v.direct + [m]);
        if m.Qos() == 1 {
          TakePublish1(x, v, r, t, m);
        } else {
          TakePublish0(x, v, r, t, m);
        }
        DeliverQuiet(u, m);
        LinkQuiet(x, u, Deliver(u, m), r + 1, t);
      }
    case PubrelPacket(a) =>
      TakePubrel(x, y, r, t, a);
      var u := Send(y.(received := Remove(y.received, 0), released := y.released + [y.received[0]]),
                    PubcompPacket(Reply(a.packetIdentifier, 0)));
      DeliverQuiet(u, y.received[0]);
      LinkQuiet(x, u, Deliver(u, y.received[0]), r + 1, t);
    case _ =>
      SkipAtReceiver(x, y, r, t);
      StepReceivesNothing(y, Recv(x.sent[r]));
      ReceivesNothingQuiet(y, Step(y, Recv(x.sent[r])));
      LinkQuiet(x, y, Step(y, Recv(x.sent[r])), r + 1, t);
  }

  lemma QuotaQuiet(y: State, m: Publish)
    ensures Quiet(y, TakeReceiveQuota(y, m))
  {
    var u := TakeReceiveQuota(y, m);
    NoAcks(u.sent[|y.sent|..], Pubacks);
    NoAcks(u.sent[|y.sent|..], Pubrecs);
    NoAcks(u.sent[|y.sent|..], Pubcomps);
  }

  lemma DeliverQuiet(y: State, m: Publish)
    ensures Quiet(y, Deliver(y, m))
  {
    hide Extends, Deliver;
    DeliverExtends(y, m);
    ExtendsQuiet(y, Deliver(y, m));
  }

  // ---------------------------------------------------------------- two clients

  /** `ab` of a's packets have reached b, and `ba` of b's have reached a; the rest are on their way,
      in order. */
  datatype World = World(a: State, b: State, ab: nat, ba: nat)

  datatype Move = StartA(op: Op) | StartB(op: Op) | ToA | ToB | WrittenA | WrittenB

  function Next(w: World, mv: Move): World {
    match mv
    case StartA(op) => w.(a := Step(w.a, App(op)))
    case StartB(op) => w.(b := Step(w.b, App(op)))
    case ToA => if w.ba < |w.b.sent| then w.(a := Step(w.a, Recv(w.b.sent[w.ba])), ba := w.ba + 1) else w
    case ToB => if w.ab < |w.a.sent| then w.(b := Step(w.b, Recv(w.a.sent[w.ab])), ab := w.ab + 1) else w
    case WrittenA => w.(a := Step(w.a, PubackWritten))
    case WrittenB => w.(b := Step(w.b, PubackWritten))
  }

  function After(w: World, mvs: seq<Move>): World
    decreases mvs
  {
    if mvs == [] then w else After(Next(w, mvs[0]), mvs[1..])
  }

  /** Both clients as they are after their CONNACKs, with any receive maxima. */
  function Joined(maxA: uint16, windowA: uint16, maxB: uint16, windowB: uint16): World {
    World(Connected(maxA, windowA), Connected(maxB, windowB), 0, 0)
  }

  /** At no moment do two publishes that one client has in flight share an identifier. */
  predicate AlwaysDistinct(w: World, mvs: seq<Move>)
    decreases mvs
  {
    DistinctIds(w.a.published) && DistinctIds(w.b.published) && (mvs == [] || AlwaysDistinct(Next(w, mvs[0]), mvs[1..]))
  }

  /** At no moment is anything outstanding that is older than 65535 identifiers. */
  predicate AlwaysRecent(w: World, mvs: seq<Move>)
    decreases mvs
  {
    Identifiers.Recent(w.a) && Identifiers.Recent(w.b) && (mvs == [] || AlwaysRecent(Next(w, mvs[0]), mvs[1..]))
  }

  ghost predicate Sound(w: World) {
    Linked(w.a, w.b, w.ab, w.ba) && Linked(w.b, w.a, w.ba, w.ab) && Orderly(w.a) && Orderly(w.b)
  }

  lemma LinkStart(x: State, y: State, r: nat, t: nat, op: Op)
    requires Linked(x, y, r, t)
    ensures Linked(Start(x, op), y, r, t)
  {
    hide Linked, Sends, Extends;
    StartExtends(x, op);
    ExtendsSends(x, Start(x, op));
    LinkSends(x, Start(x, op), y, r, t);
  }

  lemma LinkPeerStart(x: State, y: State, r: nat, t: nat, op: Op)
    requires Linked(x, y, r, t)
    ensures Linked(x, Start(y, op), r, t)
  {
    hide Linked, Quiet, Extends;
    StartExtends(y, op);
    ExtendsQuiet(y, Start(y, op));
    LinkQuiet(x, y, Start(y, op), r, t);
  }

  lemma LinkWritten(x: State, y: State, r: nat, t: nat)
    requires Linked(x, y, r, t)
    ensures Linked(HandlePubackWritten(x), y, r, t) && Linked(x, HandlePubackWritten(y), r, t)
  {
    hide AcksIn, PublishesIn, Flights, OfQos;
    var c :| Link(x, y, r, t, c);
    assert Link(HandlePubackWritten(x), y, r, t, c);
    assert Link(x, HandlePubackWritten(y), r, t, c);
  }

  lemma LinkedBounds(x: State, y: State, r: nat, t: nat)
    requires Linked(x, y, r, t)
    ensures r <= |x.sent| && t <= |y.sent|
  {
  }

  lemma NextIsSound(w: World, mv: Move)
    requires Sound(w) && DistinctIds(w.a.published) && DistinctIds(w.b.published)
    ensures Sound(Next(w, mv))
  {
    hide Linked, Orderly, DistinctIds, Step;
    match mv
    case StartA(op) =>
      StepKeepsOrder(w.a, App(op));
      LinkStart(w.a, w.b, w.ab, w.ba, op);
      LinkPeerStart(w.b, w.a, w.ba, w.ab, op);
      assert Step(w.a, App(op)) == Start(w.a, op) by { StepOfApp(w.a, op); }
    case StartB(op) =>
      StepKeepsOrder(w.b, App(op));
      LinkStart(w.b, w.a, w.ba, w.ab, op);
      LinkPeerStart(w.a, w.b, w.ab, w.ba, op);
      assert Step(w.b, App(op)) == Start(w.b, op) by { StepOfApp(w.b, op); }
    case ToA =>
      if w.ba < |w.b.sent| {
        StepKeepsOrder(w.a, Recv(w.b.sent[w.ba]));
        AtSender(w.a, w.b, w.ab, w.ba);
        AtReceiver(w.b, w.a, w.ba, w.ab);
      }
    case ToB =>
      if w.ab < |w.a.sent| {
        StepKeepsOrder(w.b, Recv(w.a.sent[w.ab]));
        AtSender(w.b, w.a, w.ba, w.ab);
        AtReceiver(w.a, w.b, w.ab, w.ba);
      }
    case WrittenA =>
      StepKeepsOrder(w.a, PubackWritten);
      LinkWritten(w.a, w.b, w.ab, w.ba);
      LinkWritten(w.b, w.a, w.ba, w.ab);
      StepOfWritten(w.a);
    case WrittenB =>
      StepKeepsOrder(w.b, PubackWritten);
      LinkWritten(w.a, w.b, w.ab, w.ba);
      LinkWritten(w.b, w.a, w.ba, w.ab);
      StepOfWritten(w.b);
  }

  lemma StepOfApp(s: State, op: Op)
    ensures Step(s, App(op)) == Start(s, op)
  {
  }

  lemma StepOfWritten(s: State)
    ensures Step(s, PubackWritten) == HandlePubackWritten(s)
  {
  }

  lemma {:induction false} AfterIsSound(w: World, mvs: seq<Move>)
    requires Sound(w) && AlwaysDistinct(w, mvs)
    ensures var u := After(w, mvs); Sound(u) && DistinctIds(u.a.published) && DistinctIds(u.b.published)
    decreases mvs
  {
    hide Sound, Next, DistinctIds;
    if mvs != [] {
      NextIsSound(w, mvs[0]);
      AfterIsSound(Next(w, mvs[0]), mvs[1..]);
    }
  }

  lemma JoinedIsSound(maxA: uint16, windowA: uint16, maxB: uint16, windowB: uint16)
    ensures Sound(Joined(maxA, windowA, maxB, windowB))
  {
    var w := Joined(maxA, windowA, maxB, windowB);
    var c := Cut([], [], [], [], [], [], [], []);
    assert Link(w.a, w.b, 0, 0, c);
    assert Link(w.b, w.a, 0, 0, c);
  }

  // ---------------------------------------------------------------- the guarantees

  /** What y has of x's publishes: QoS 2 finished at x, delivered at y, written and started at x, each
      list a prefix of the next; the same for QoS 1; and QoS 0 delivered in the order written. */
  predicate InOrder(x: State, y: State) {
    && x.finished <= y.released <= PublishesIn(x.sent, 2) <= OfQos(Messages(x.started), 2)
    && x.acknowledged <= OfQos(y.direct, 1) <= PublishesIn(x.sent, 1) <= OfQos(Messages(x.started), 1)
    && OfQos(y.direct, 0) <= PublishesIn(x.sent, 0)
  }

  lemma LinkedInOrder(x: State, y: State, r: nat, t: nat)
    requires Linked(x, y, r, t) && Orderly(x)
    ensures InOrder(x, y)
  {
    hide AcksIn, PublishesIn, Flights, OfQos;
    var c :| Link(x, y, r, t, c);
    assert y.released + (c.rel + c.rec + c.fly) == PublishesIn(x.sent, 2);
    assert OfQos(y.direct, 1) + c.fly1 == PublishesIn(x.sent, 1);
    SentOfStarted(x, 1);
    SentOfStarted(x, 2);
  }

  lemma SentOfStarted(x: State, qos: nat)
    requires Orderly(x) && qos != 0
    ensures PublishesIn(x.sent, qos) <= OfQos(Messages(x.started), qos)
  {
    hide LaunchedIn, Messages;
    LaunchedPublishes(x.sent, qos);
    OfQosConcat(LaunchedIn(x.sent), Messages(x.queue), qos);
  }

  /** Ordered exactly-once delivery, in both directions, over every run of the two clients. */
  lemma OrderedExactlyOnce(maxA: uint16, windowA: uint16, maxB: uint16, windowB: uint16, mvs: seq<Move>)
    requires AlwaysDistinct(Joined(maxA, windowA, maxB, windowB), mvs)
    ensures var w := After(Joined(maxA, windowA, maxB, windowB), mvs); InOrder(w.a, w.b) && InOrder(w.b, w.a)
  {
    hide Linked, Orderly, InOrder, AlwaysDistinct, Joined, After;
    var w := After(Joined(maxA, windowA, maxB, windowB), mvs);
    JoinedIsSound(maxA, windowA, maxB, windowB);
    AfterIsSound(Joined(maxA, windowA, maxB, windowB), mvs);
    LinkedInOrder(w.a, w.b, w.ab, w.ba);
    LinkedInOrder(w.b, w.a, w.ba, w.ab);
  }

  /** The packet fits the state it finds: an acknowledgement names a publish in flight that waits for
      just this kind, a PUBREL the oldest open entry, a QoS 2 PUBLISH an unknown identifier. */
  predicate Fits(s: State, p: Packet) {
    match p
    case PubackPacket(a) => Awaits(s, a, WaitingPuback)
    case PubrecPacket(a) => Awaits(s, a, WaitingPubrec)
    case PubcompPacket(a) => Awaits(s, a, WaitingPubcomp)
    case PubrelPacket(a) => s.received != [] && s.received[0].packetIdentifier == a.packetIdentifier
    case PublishPacket(m) =>
      m.Qos() == 2 ==> forall k :: 0 <= k < |s.received| ==> s.received[k].packetIdentifier != m.packetIdentifier
    case _ => true
  }

  predicate Awaits(s: State, a: Ack, st: PublishState) {
    var i := InFlightIndex(s.published, a.packetIdentifier);
    i < |s.published| && s.published[i].state == st && a.reasonCode == 0
  }

  lemma NextFits(x: State, y: State, r: nat, t: nat)
    requires Linked(x, y, r, t) && Linked(y, x, t, r) && DistinctIds(x.published) && DistinctIds(y.published)
    requires t < |y.sent|
    ensures Fits(x, y.sent[t])
  {
    hide Linked, DistinctIds;
    match y.sent[t]
    case PubackPacket(a) => var _ := TakePuback(x, y, r, t, a);
    case PubrecPacket(a) => var _ := TakePubrec(x, y, r, t, a);
    case PubcompPacket(a) => var _ := TakePubcomp(x, y, r, t, a);
    case PubrelPacket(a) => TakePubrel(y, x, t, r, a);
    case PublishPacket(m) => if m.Qos() == 2 { TakePublish2(y, x, t, r, m); }
    case _ =>
  }

  /** Over every run, the next packet of either channel fits: in particular a PUBCOMP only ever finds a
      publish waiting for one, though its handler does not check, and no handler ever closes the
      connection over a mismatch. */
  lemma EveryPacketFits(maxA: uint16, windowA: uint16, maxB: uint16, windowB: uint16, mvs: seq<Move>)
    requires AlwaysDistinct(Joined(maxA, windowA, maxB, windowB), mvs)
    ensures var w := After(Joined(maxA, windowA, maxB, windowB), mvs);
            && (w.ba < |w.b.sent| ==> Fits(w.a, w.b.sent[w.ba]))
            && (w.ab < |w.a.sent| ==> Fits(w.b, w.a.sent[w.ab]))
  {
    hide Linked, Orderly, DistinctIds, Fits, AlwaysDistinct, Joined, After;
    var w := After(Joined(maxA, windowA, maxB, windowB), mvs);
    JoinedIsSound(maxA, windowA, maxB, windowB);
    AfterIsSound(Joined(maxA, windowA, maxB, windowB), mvs);
    if w.ba < |w.b.sent| { NextFits(w.a, w.b, w.ab, w.ba); }
    if w.ab < |w.a.sent| { NextFits(w.b, w.a, w.ba, w.ab); }
  }

  /** Everything that x wrote to y has arrived and is completed. */
  predicate Settled(x: State, y: State) {
    && x.finished == y.released == PublishesIn(x.sent, 2) && y.received == []
    && x.acknowledged == OfQos(y.direct, 1) == PublishesIn(x.sent, 1)
    && OfQos(y.direct, 0) == PublishesIn(x.sent, 0)
    && (forall i :: 0 <= i < |x.published| ==> x.published[i].pending.message.Qos() !in {1, 2})
  }

  lemma {:induction false} NoFlights(fs: seq<InFlight>, qos: nat)
    requires Flights(fs, qos) == []
    ensures forall i :: 0 <= i < |fs| ==> fs[i].pending.message.Qos() != qos
  {
    if fs != [] {
      NoFlights(fs[1..], qos);
      assert forall i :: 1 <= i < |fs| ==> fs[i] == fs[1..][i - 1];
    }
  }

  lemma LinkedSettled(x: State, y: State)
    requires Linked(x, y, |x.sent|, |y.sent|)
    ensures Settled(x, y)
  {
    hide PublishesIn, Flights, OfQos;
    var c :| Link(x, y, |x.sent|, |y.sent|, c);
    assert x.sent[|x.sent|..] == [] && y.sent[|y.sent|..] == [];
    NothingThere();
    assert |Replies(c.comp)| == 0 && |Replies(c.rel)| == 0 && |Replies(c.rec)| == 0 && |Replies(c.ack1)| == 0;
    NoFlights(x.published, 1);
    NoFlights(x.published, 2);
  }

  lemma NothingThere()
    ensures forall k :: AcksIn([], k) == []
    ensures forall qos: nat :: PublishesIn([], qos) == []
  {
  }

  /** Whenever both channels are empty, every publish written by either client has been delivered to
      the other, exactly once and in order, and completed at its sender. */
  lemma QuietMeansDone(maxA: uint16, windowA: uint16, maxB: uint16, windowB: uint16, mvs: seq<Move>)
    requires AlwaysDistinct(Joined(maxA, windowA, maxB, windowB), mvs)
    requires var w := After(Joined(maxA, windowA, maxB, windowB), mvs); w.ab >= |w.a.sent| && w.ba >= |w.b.sent|
    ensures var w := After(Joined(maxA, windowA, maxB, windowB), mvs); Settled(w.a, w.b) && Settled(w.b, w.a)
  {
    hide Linked, Orderly, Settled, AlwaysDistinct, Joined, After;
    var w := After(Joined(maxA, windowA, maxB, windowB), mvs);
    JoinedIsSound(maxA, windowA, maxB, windowB);
    AfterIsSound(Joined(maxA, windowA, maxB, windowB), mvs);
    LinkedBounds(w.a, w.b, w.ab, w.ba);
    LinkedSettled(w.a, w.b);
    LinkedSettled(w.b, w.a);
  }

  // ---------------------------------------------------------------- when identifiers are distinct

  lemma RecentIsDistinct(s: State)
    requires Identifiers.Numbered(s) && Identifiers.Recent(s)
    ensures DistinctIds(s.published)
  {
    hide Identifiers.Outstanding, Identifiers.Recent, Identifiers.Numbered;
    Identifiers.NumberedIsDistinct(s);
    forall i, j | 0 <= i < j < |s.published| ensures s.published[i].Id() != s.published[j].Id() {
      SlotsOf(s, i, j);
    }
  }

  lemma Twice<T>(xs: seq<T>, i: nat, j: nat)
    requires i < j < |xs|
    ensures xs[i] in multiset(xs) && xs[j] in multiset(xs)
    ensures xs[i] == xs[j] ==> multiset(xs)[xs[i]] >= 2
  {
    assert xs == xs[..j] + [xs[j]] + xs[j + 1..];
    assert xs[..j][i] == xs[i];
  }

  /** Two publishes in flight are two outstanding operations. */
  lemma SlotsOf(s: State, i: nat, j: nat)
    requires i < j < |s.published| && Identifiers.Numbered(s)
    ensures var x, y := Identifiers.PublishSlots(s.published)[i], Identifiers.PublishSlots(s.published)[j];
            x in Identifiers.Outstanding(s) && y in Identifiers.Outstanding(s) && x != y
  {
    hide Identifiers.IdOf;
    Twice(Identifiers.PublishSlots(s.published), i, j);
  }

  lemma {:induction false} RecentFromHere(w: World, mvs: seq<Move>)
    requires Identifiers.Numbered(w.a) && Identifiers.Numbered(w.b) && AlwaysRecent(w, mvs)
    ensures AlwaysDistinct(w, mvs)
    decreases mvs
  {
    hide Identifiers.Numbered, Identifiers.Recent, DistinctIds, Step;
    RecentIsDistinct(w.a);
    RecentIsDistinct(w.b);
    if mvs != [] {
      var mv := mvs[0];
      match mv {
        case StartA(op) => Identifiers.StepKeepsNumbers(w.a, App(op));
        case StartB(op) => Identifiers.StepKeepsNumbers(w.b, App(op));
        case ToA => if w.ba < |w.b.sent| { Identifiers.StepKeepsNumbers(w.a, Recv(w.b.sent[w.ba])); }
        case ToB => if w.ab < |w.a.sent| { Identifiers.StepKeepsNumbers(w.b, Recv(w.a.sent[w.ab])); }
        case WrittenA => Identifiers.StepKeepsNumbers(w.a, PubackWritten);
        case WrittenB => Identifiers.StepKeepsNumbers(w.b, PubackWritten);
      }
      RecentFromHere(Next(w, mv), mvs[1..]);
    }
  }

  /** The guarantees hold in particular of every run in which no operation stays outstanding while
      65535 further identifiers are given out. */
  lemma RecentRunsAreDistinct(maxA: uint16, windowA: uint16, maxB: uint16, windowB: uint16, mvs: seq<Move>)
    requires AlwaysRecent(Joined(maxA, windowA, maxB, windowB), mvs)
    ensures AlwaysDistinct(Joined(maxA, windowA, maxB, windowB), mvs)
  {
    RecentFromHere(Joined(maxA, windowA, maxB, windowB), mvs);
  }
}
