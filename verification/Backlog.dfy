/** What becomes of every publish that the two clients of `Duplex` start, those in the queue included:
    which ones arrive, and which are left behind the window for ever. */
module Backlog {
  import opened Bytes
  import opened Packets
  import opened Engine
  import opened Window
  import opened Progress
  import opened Duplex
  import Liveness
  import Starts

  // ---------------------------------------------------------------- quota that never comes back

  /** The messages that keep their unit of quota: only a PUBACK gives one back. */
  function Keeping(ms: seq<Publish>): nat {
    if ms == [] then 0 else Keeping(ms[..|ms| - 1]) + (if ms[|ms| - 1].Qos() == 1 then 0 else 1)
  }

  lemma {:induction false} KeepingConcat(a: seq<Publish>, b: seq<Publish>)
    ensures Keeping(a + b) == Keeping(a) + Keeping(b)
    decreases |b|
  {
    if b == [] {
      assert a + b == a;
    } else {
      assert (a + b)[..|a + b| - 1] == a + b[..|b| - 1];
      KeepingConcat(a, b[..|b| - 1]);
    }
  }

  lemma {:induction false} KeepingBound(ms: seq<Publish>)
    ensures Keeping(ms) <= |ms|
    ensures (forall i :: 0 <= i < |ms| ==> ms[i].Qos() != 1) ==> Keeping(ms) == |ms|
    decreases |ms|
  {
    if ms != [] {
      KeepingBound(ms[..|ms| - 1]);
    }
  }

  function Flying(s: State): seq<Publish> {
    Messages(Pendings(s.published))
  }

  /** The messages written that keep their quota are those still in flight and those gone without it;
      and none was written when as many as the window holds had been written before. */
  predicate Ledger(s: State) {
    var w := LaunchedIn(s.sent);
    && Keeping(w) == Keeping(Flying(s)) + s.leaked
    && (forall i :: 0 <= i < |w| ==> Keeping(w[..i]) < s.maxQuota)
  }

  lemma SameLedger(s: State, t: State)
    requires Ledger(s) && LaunchedIn(t.sent) == LaunchedIn(s.sent) && Flying(t) == Flying(s)
    requires t.leaked == s.leaked && t.maxQuota == s.maxQuota
    ensures Ledger(t)
  {
    hide LaunchedIn, Keeping, Flying;
  }

  lemma FlyingGrows(s: State, t: State)
    requires s.published <= t.published
    ensures Flying(t) == Flying(s) + Messages(Pendings(t.published[|s.published|..]))
    ensures |Flying(s)| == |s.published|
  {
  }

  /** New messages are launched only while there is quota, so each finds the window not yet kept. */
  lemma LedgerGrows(s: State, t: State)
    requires Ledger(s) && Stalled(s, t) && Held(t) == Held(s) <= s.maxQuota
    ensures Ledger(t)
  {
    hide LaunchedIn, CompletedIn, Keeping, Flying, Messages, Pendings;
    var w, more := LaunchedIn(s.sent), Messages(Pendings(t.published[|s.published|..]));
    FlyingGrows(s, t);
    KeepingConcat(w, more);
    KeepingConcat(Flying(s), more);
    forall i | 0 <= i < |w + more| ensures Keeping((w + more)[..i]) < t.maxQuota {
      if i < |w| {
        assert (w + more)[..i] == w[..i];
      } else {
        var j := i - |w|;
        assert (w + more)[..i] == w + more[..j];
        KeepingConcat(w, more[..j]);
        KeepingBound(more[..j]);
        KeepingBound(Flying(s));
        MoreLaunched(s, t);
      }
    }
  }

  lemma MoreLaunched(s: State, t: State)
    requires s.published <= t.published
    ensures |Messages(Pendings(t.published[|s.published|..]))| == |t.published| - |s.published|
  {
  }

  // ---------------------------------------------------------------- single steps

  /** An acknowledgement that names a publish of its own QoS, in the state it is for. */
  predicate Expected(s: State, e: Input) {
    e.Recv? ==>
      match e.packet
      case PubackPacket(a) => FoundAt(s, a, WaitingPuback, 1)
      case PubrecPacket(a) => FoundAt(s, a, WaitingPubrec, 2)
      case PubcompPacket(a) => FoundAt(s, a, WaitingPubcomp, 2)
      case _ => true
  }

  predicate FoundAt(s: State, a: Ack, st: PublishState, qos: nat) {
    var i := InFlightIndex(s.published, a.packetIdentifier);
    i < |s.published| && s.published[i].state == st && s.published[i].pending.message.Qos() == qos && a.reasonCode == 0
  }

  lemma FlyingRemove(fs: seq<InFlight>, i: nat)
    requires i < |fs|
    ensures Keeping(Messages(Pendings(fs)))
            == Keeping(Messages(Pendings(Remove(fs, i)))) + (if fs[i].pending.message.Qos() == 1 then 0 else 1)
  {
    hide Keeping;
    var ms, m := Messages(Pendings(fs)), fs[i].pending.message;
    assert ms == ms[..i] + [m] + ms[i + 1..];
    assert Messages(Pendings(Remove(fs, i))) == ms[..i] + ms[i + 1..];
    KeepingConcat(ms[..i] + [m], ms[i + 1..]);
    KeepingConcat(ms[..i], [m]);
    KeepingConcat(ms[..i], ms[i + 1..]);
    KeepingOne(m);
  }

  lemma KeepingOne(m: Publish)
    ensures Keeping([m]) == if m.Qos() == 1 then 0 else 1
  {
    assert [m][..0] == [];
  }

  lemma PubcompLedger(s: State, a: Ack)
    requires Orderly(s) && Conserved(s) && Ledger(s) && FoundAt(s, a, WaitingPubcomp, 2)
    ensures Ledger(HandlePubcomp(s, a))
  {
    hide LaunchedIn, CompletedIn, Keeping, Messages, Pendings, Callback, Orderly;
    var i := InFlightIndex(s.published, a.packetIdentifier);
    var p := s.published[i].pending;
    FlyingRemove(s.published, i);
    PubcompKeeps(s, a);
    var t := s.(leaked := s.leaked + 1, finished := s.finished + [p.message], published := Remove(s.published, i));
    CallbackGrows(t, p.receiver, Completed(p, Value(a.reasonCode)));
    LedgerGrows(t.(log := t.log + [Completed(p, Value(a.reasonCode))]), HandlePubcomp(s, a));
  }

  lemma CallbackGrows(s: State, rx: Receiver, e: Event)
    ensures Stalled(s.(log := s.log + [e]), Callback(s, rx, e))
  {
    hide LaunchedIn, CompletedIn, Callback, Starts.Extends, Stalled;
    Starts.CallbackExtends(s, rx, e);
    var t := s.(log := s.log + [e]);
    ThenExtends(t, t, Callback(s, rx, e));
  }

  lemma PubackLedger(s: State, a: Ack)
    requires Orderly(s) && Conserved(s) && Ledger(s) && FoundAt(s, a, WaitingPuback, 1)
    ensures Ledger(HandlePuback(s, a))
  {
    hide LaunchedIn, CompletedIn, Keeping, Messages, Pendings, Callback, Orderly, MaybeSendQueued;
    var i := InFlightIndex(s.published, a.packetIdentifier);
    var p := s.published[i].pending;
    var u := s.(acknowledged := s.acknowledged + [p.message]);
    var t := u.(published := Remove(u.published, i));
    var v := Finish(u, i, Value(a.reasonCode));
    FlyingRemove(s.published, i);
    SameOrder(s, u);
    FinishKeeps(u, i, Value(a.reasonCode));
    CallbackGrows(t, p.receiver, Completed(p, Value(a.reasonCode)));
    LedgerGrows(t.(log := t.log + [Completed(p, Value(a.reasonCode))]), v);
    MaybeSendLedger(v);
  }

  lemma MaybeSendLedger(v: State)
    requires Orderly(v) && Ledger(v) && Held(v) < v.maxQuota
    ensures Ledger(MaybeSendQueued(v))
  {
    hide LaunchedIn, CompletedIn, Keeping, Messages, Pendings;
    SameLedger(v, v.(sendQuota := v.sendQuota + 1));
    if v.queue != [] {
      var u := v.(sendQuota := v.sendQuota + 1, queue := v.queue[1..]);
      SameLedger(v, u);
      Starts.LaunchExtends(u, v.queue[0]);
      ThenExtends(u, u, Launch(u, v.queue[0]));
      LedgerGrows(u, Launch(u, v.queue[0]));
    }
  }

  lemma PubrecLedger(s: State, a: Ack)
    requires Ledger(s) && FoundAt(s, a, WaitingPubrec, 2)
    ensures Ledger(HandlePubrec(s, a))
  {
    hide LaunchedIn, Keeping;
    var t := HandlePubrec(s, a);
    LaunchedSnoc(s.sent, PubrelPacket(Reply(a.packetIdentifier, 0)));
    assert Pendings(t.published) == Pendings(s.published);
    SameLedger(s, t);
  }

  lemma StepLedger(s: State, e: Input)
    requires Orderly(s) && Conserved(s) && Ledger(s) && Expected(s, e)
    ensures Ledger(Step(s, e)) && Conserved(Step(s, e))
  {
    hide LaunchedIn, CompletedIn, Keeping, Ledger, Orderly, Stalled, HandlePublish, HandlePubrel, HandlePuback,
         HandlePubrec, HandlePubcomp, HandleSuback, HandleUnsuback, Start;
    StepConserves(s, e);
    StepKeepsOrder(s, e);
    match e
    case App(op) =>
      Starts.StartExtends(s, op);
      ThenExtends(s, s, Start(s, op));
      LedgerGrows(s, Start(s, op));
    case PubackWritten => SameLedger(s, Step(s, e));
    case Recv(p) =>
      if p.PubackPacket? {
        PubackLedger(s, p.ack);
      } else if p.PubrecPacket? {
        PubrecLedger(s, p.ack);
      } else if p.PubcompPacket? {
        PubcompLedger(s, p.ack);
      } else {
        if p.PublishPacket? {
          PublishStalls(s, p.publish);
        } else if p.PubrelPacket? {
          PubrelStalls(s, p.ack);
        } else {
          OtherStalls(s, p);
        }
        LedgerGrows(s, Step(s, e));
      }
  }

  // ---------------------------------------------------------------- two clients

  predicate Accounted(s: State, window: uint16) {
    Conserved(s) && Ledger(s) && s.maxQuota == window
  }

  lemma NextIsExpected(x: State, y: State, r: nat, t: nat)
    requires Linked(x, y, r, t) && DistinctIds(x.published) && t < |y.sent|
    ensures Expected(x, Recv(y.sent[t]))
  {
    hide Linked, DistinctIds;
    match y.sent[t]
    case PubackPacket(a) => var _ := TakePuback(x, y, r, t, a);
    case PubrecPacket(a) => var _ := TakePubrec(x, y, r, t, a);
    case PubcompPacket(a) => var _ := TakePubcomp(x, y, r, t, a);
    case _ =>
  }

  lemma StepAccounted(s: State, e: Input, window: uint16)
    requires Orderly(s) && Accounted(s, window) && Expected(s, e)
    ensures Accounted(Step(s, e), window)
  {
    hide Orderly, Ledger, Held, Step, Expected;
    StepLedger(s, e);
    StepKeepsOrder(s, e);
  }

  lemma NextAccounted(w: World, mv: Move, windowA: uint16, windowB: uint16)
    requires Sound(w) && DistinctIds(w.a.published) && DistinctIds(w.b.published)
    requires Accounted(w.a, windowA) && Accounted(w.b, windowB)
    ensures var u := Next(w, mv); Accounted(u.a, windowA) && Accounted(u.b, windowB)
  {
    hide Linked, Orderly, DistinctIds, Accounted, Step;
    match mv
    case StartA(op) => StepAccounted(w.a, App(op), windowA);
    case StartB(op) => StepAccounted(w.b, App(op), windowB);
    case ToA =>
      if w.ba < |w.b.sent| {
        NextIsExpected(w.a, w.b, w.ab, w.ba);
        StepAccounted(w.a, Recv(w.b.sent[w.ba]), windowA);
      }
    case ToB =>
      if w.ab < |w.a.sent| {
        NextIsExpected(w.b, w.a, w.ba, w.ab);
        StepAccounted(w.b, Recv(w.a.sent[w.ab]), windowB);
      }
    case WrittenA => StepAccounted(w.a, PubackWritten, windowA);
    case WrittenB => StepAccounted(w.b, PubackWritten, windowB);
  }

  lemma {:induction false} AfterAccounted(w: World, mvs: seq<Move>, windowA: uint16, windowB: uint16)
    requires Sound(w) && AlwaysDistinct(w, mvs) && Accounted(w.a, windowA) && Accounted(w.b, windowB)
    ensures var u := After(w, mvs); Accounted(u.a, windowA) && Accounted(u.b, windowB)
    decreases mvs
  {
    hide Sound, Next, DistinctIds, Accounted;
    if mvs != [] {
      NextIsSound(w, mvs[0]);
      NextAccounted(w, mvs[0], windowA, windowB);
      AfterAccounted(Next(w, mvs[0]), mvs[1..], windowA, windowB);
    }
  }

  lemma ConnectedIsAccounted(receiveMaximum: uint16, window: uint16)
    ensures Accounted(Connected(receiveMaximum, window), window)
  {
    assert LaunchedIn([]) == [] && Messages(Pendings([])) == [];
  }

  /** Of the publishes started, in order, exactly those are written that fewer than `window` publishes of
      a QoS other than 1 were started before. */
  predicate WrittenExactly(s: State, window: uint16) {
    var all := Messages(s.started);
    && LaunchedIn(s.sent) <= all
    && forall i :: 0 <= i < |all| ==> (i < |LaunchedIn(s.sent)| <==> Keeping(all[..i]) < window)
  }

  lemma KeepingPrefix(ms: seq<Publish>, i: nat, j: nat)
    requires i <= j <= |ms|
    ensures Keeping(ms[..i]) <= Keeping(ms[..j])
  {
    assert ms[..j] == ms[..i] + ms[i..j];
    KeepingConcat(ms[..i], ms[i..j]);
  }

  lemma QueueIsExact(s: State, window: uint16)
    requires Orderly(s) && Accounted(s, window)
    requires forall i :: 0 <= i < |s.published| ==> s.published[i].pending.message.Qos() != 1
    ensures WrittenExactly(s, window)
  {
    hide LaunchedIn, CompletedIn, Keeping;
    var w, all := LaunchedIn(s.sent), Messages(s.started);
    assert all == w + Messages(s.queue);
    forall i | 0 <= i < |all| ensures i < |w| <==> Keeping(all[..i]) < window {
      if i < |w| {
        assert all[..i] == w[..i];
      } else {
        assert all[..|w|] == w;
        KeepingPrefix(all, |w|, i);
        KeepingBound(Flying(s));
      }
    }
  }

  /** Exactly what arrives. In every run of the two clients, once nothing is on its way: of the publishes
      above QoS 0 that a client started, from the application or from a callback, those have been
      written, and so delivered to the other, once and in order, and completed, that fewer than its
      server's receive maximum of publishes of a QoS other than 1 were started before; the others are
      left in the queue. */
  lemma ArrivesExactly(maxA: uint16, windowA: uint16, maxB: uint16, windowB: uint16, mvs: seq<Move>)
    requires AlwaysDistinct(Joined(maxA, windowA, maxB, windowB), mvs)
    requires Liveness.ChannelsEmpty(After(Joined(maxA, windowA, maxB, windowB), mvs))
    ensures var w := After(Joined(maxA, windowA, maxB, windowB), mvs);
            && Settled(w.a, w.b) && Settled(w.b, w.a)
            && WrittenExactly(w.a, windowA) && WrittenExactly(w.b, windowB)
  {
    hide Linked, Orderly, AlwaysDistinct, After, Accounted, WrittenExactly;
    var start := Joined(maxA, windowA, maxB, windowB);
    var w := After(start, mvs);
    JoinedIsSound(maxA, windowA, maxB, windowB);
    AfterIsSound(start, mvs);
    ConnectedIsAccounted(maxA, windowA);
    ConnectedIsAccounted(maxB, windowB);
    AfterAccounted(start, mvs, windowA, windowB);
    QuietMeansDone(maxA, windowA, maxB, windowB, mvs);
    QueueIsExact(w.a, windowA);
    QueueIsExact(w.b, windowB);
  }
}
