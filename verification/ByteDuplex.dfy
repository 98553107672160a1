/** The two clients of `Duplex` on real connections: each writes bytes, and reads packets off the bytes
    that the other wrote. */
module ByteDuplex {
  import opened Bytes
  import opened Packets
  import opened PacketRoundTrips
  import opened Framing
  import opened Streams
  import opened Engine
  import opened Duplex
  import EndToEnd
  import Liveness
  import Starts

  // ---------------------------------------------------------------- two clients and two byte streams

  /** The bytes on their way from each client to the other. */
  datatype ByteWorld = ByteWorld(a: State, b: State, ab: bytes, ba: bytes)

  /** What is written for a list of packets; a packet that cannot be printed throws before any byte. */
  function BytesOf(ps: seq<Packet>): bytes {
    if ps == [] then []
    else (if Print(ps[0]).Success? then Print(ps[0]).value else []) + BytesOf(ps[1..])
  }

  /** The packets that a step wrote. */
  function NewPackets(s: State, t: State): seq<Packet> {
    if |s.sent| <= |t.sent| then t.sent[|s.sent|..] else []
  }

  /** a handles something. */
  function ActA(w: ByteWorld, e: Input): ByteWorld {
    var t := Step(w.a, e);
    w.(a := t, ab := w.ab + BytesOf(NewPackets(w.a, t)))
  }

  function ActB(w: ByteWorld, e: Input): ByteWorld {
    var t := Step(w.b, e);
    w.(b := t, ba := w.ba + BytesOf(NewPackets(w.b, t)))
  }

  /** Whether a whole packet is at the front of the bytes. */
  ghost predicate Arrived(s: bytes) {
    ReadFrom(s).Received? && FrameLength(s) <= |s|
  }

  /** A delivery is one read of a packet; nothing happens before the packet is complete. */
  ghost function ByteNext(w: ByteWorld, mv: Move): ByteWorld {
    match mv
    case StartA(op) => ActA(w, App(op))
    case StartB(op) => ActB(w, App(op))
    case ToA => if Arrived(w.ba) then ActA(w.(ba := w.ba[FrameLength(w.ba)..]), Recv(ReadFrom(w.ba).packet)) else w
    case ToB => if Arrived(w.ab) then ActB(w.(ab := w.ab[FrameLength(w.ab)..]), Recv(ReadFrom(w.ab).packet)) else w
    case WrittenA => ActA(w, PubackWritten)
    case WrittenB => ActB(w, PubackWritten)
  }

  ghost function ByteAfter(w: ByteWorld, mvs: seq<Move>): ByteWorld
    decreases mvs
  {
    if mvs == [] then w else ByteAfter(ByteNext(w, mvs[0]), mvs[1..])
  }

  /** The requests that the application made can be printed and read back unchanged. */
  predicate RequestsCarried(s: State) {
    forall i :: 0 <= i < |s.sent| && Starts.Request(s.sent[i]) ==> Sendable(s.sent[i]) && Faithful(s.sent[i])
  }

  predicate Proper(w: ByteWorld) {
    DistinctIds(w.a.published) && DistinctIds(w.b.published) && RequestsCarried(w.a) && RequestsCarried(w.b)
  }

  ghost predicate AlwaysProper(w: ByteWorld, mvs: seq<Move>)
    decreases mvs
  {
    Proper(w) && (mvs == [] || AlwaysProper(ByteNext(w, mvs[0]), mvs[1..]))
  }

  // ---------------------------------------------------------------- the bytes of packets

  lemma {:induction false} BytesConcat(ps: seq<Packet>, qs: seq<Packet>)
    ensures BytesOf(ps + qs) == BytesOf(ps) + BytesOf(qs)
  {
    hide Print;
    if ps == [] {
      assert ps + qs == qs && [] + BytesOf(qs) == BytesOf(qs);
    } else {
      assert (ps + qs)[1..] == ps[1..] + qs;
      BytesConcat(ps[1..], qs);
      Assoc(if Print(ps[0]).Success? then Print(ps[0]).value else [], BytesOf(ps[1..]), BytesOf(qs));
    }
  }

  predicate AllCarried(s: State) {
    forall i :: 0 <= i < |s.sent| ==> Sendable(s.sent[i]) && Faithful(s.sent[i])
  }

  lemma EverythingCarried(s: State)
    requires RequestsCarried(s) && EndToEnd.Written(s.sent)
    ensures AllCarried(s)
  {
    hide Sendable, Faithful, Starts.Request, EndToEnd.Own;
    forall i | 0 <= i < |s.sent| ensures Sendable(s.sent[i]) && Faithful(s.sent[i]) {
      if !Starts.Request(s.sent[i]) {
        EndToEnd.OwnIsCarried(s.sent[i]);
      }
    }
  }

  /** What is at the front of a channel is read as the packet that was written. */
  lemma ReadBack(s: State, r: nat)
    requires AllCarried(s) && r <= |s.sent|
    ensures var c := BytesOf(s.sent[r..]);
            if r == |s.sent| then !Arrived(c)
            else Arrived(c) && ReadFrom(c).packet == s.sent[r] && c[FrameLength(c)..] == BytesOf(s.sent[r + 1..])
  {
    hide Sendable, Faithful, ReadFrom, FrameLength, Canonical, Print;
    if r == |s.sent| {
      assert s.sent[r..] == [];
      NothingArrived();
    } else {
      var p, rest := s.sent[r], s.sent[r + 1..];
      assert s.sent[r..] == [p] + rest && [p][1..] == [];
      BytesConcat([p], rest);
      FirstBytes(p);
      ReadOfPrint(p, BytesOf(rest));
      FaithfulIsUnchanged(p);
    }
  }

  lemma FirstBytes(p: Packet)
    requires Sendable(p)
    ensures BytesOf([p]) == Wire(p)
  {
    hide Print;
    assert [p][1..] == [] && BytesOf([]) == [] && Print(p).value + [] == Print(p).value;
  }

  lemma NothingArrived()
    ensures !Arrived(BytesOf([]))
  {
  }

  // ---------------------------------------------------------------- refinement

  /** The bytes on their way are those of the packets on their way. */
  predicate Carries(bw: ByteWorld, w: World) {
    && bw.a == w.a && bw.b == w.b && w.ab <= |w.a.sent| && w.ba <= |w.b.sent|
    && bw.ab == BytesOf(w.a.sent[w.ab..]) && bw.ba == BytesOf(w.b.sent[w.ba..])
    && EndToEnd.Written(w.a.sent) && EndToEnd.Written(w.b.sent)
  }

  lemma SentGrows(s: State, e: Input)
    ensures s.sent <= Step(s, e).sent
  {
    hide Step;
    match e
    case App(op) =>
      Starts.StartExtends(s, op);
      StepOfApp(s, op);
    case PubackWritten => StepOfWritten(s);
    case Recv(p) => Liveness.SentGrows(s, p);
  }

  /** A step appends its packets to a channel of packets and their bytes to a channel of bytes. */
  lemma ChannelGrows(s: State, e: Input, r: nat)
    requires r <= |s.sent|
    ensures var t := Step(s, e);
            && r <= |t.sent|
            && BytesOf(t.sent[r..]) == BytesOf(s.sent[r..]) + BytesOf(NewPackets(s, t))
  {
    hide Step, BytesOf;
    var t := Step(s, e);
    SentGrows(s, e);
    assert t.sent[r..] == s.sent[r..] + t.sent[|s.sent|..];
    BytesConcat(s.sent[r..], t.sent[|s.sent|..]);
  }

  lemma NextCarries(bw: ByteWorld, w: World, mv: Move)
    requires Carries(bw, w) && RequestsCarried(bw.a) && RequestsCarried(bw.b)
    ensures Carries(ByteNext(bw, mv), Next(w, mv))
  {
    hide Step, BytesOf, NewPackets, RequestsCarried, EndToEnd.Written, AllCarried, Arrived, ReadFrom, FrameLength;
    EverythingCarried(w.a);
    EverythingCarried(w.b);
    match mv
    case StartA(op) =>
      ChannelGrows(w.a, App(op), w.ab);
      EndToEnd.StepWrites(w.a, App(op));
    case StartB(op) =>
      ChannelGrows(w.b, App(op), w.ba);
      EndToEnd.StepWrites(w.b, App(op));
    case ToA =>
      ReadBack(w.b, w.ba);
      if w.ba < |w.b.sent| {
        ChannelGrows(w.a, Recv(w.b.sent[w.ba]), w.ab);
        EndToEnd.StepWrites(w.a, Recv(w.b.sent[w.ba]));
      }
    case ToB =>
      ReadBack(w.a, w.ab);
      if w.ab < |w.a.sent| {
        ChannelGrows(w.b, Recv(w.a.sent[w.ab]), w.ba);
        EndToEnd.StepWrites(w.b, Recv(w.a.sent[w.ab]));
      }
    case WrittenA =>
      ChannelGrows(w.a, PubackWritten, w.ab);
      EndToEnd.StepWrites(w.a, PubackWritten);
    case WrittenB =>
      ChannelGrows(w.b, PubackWritten, w.ba);
      EndToEnd.StepWrites(w.b, PubackWritten);
  }

  lemma {:induction false} RunCarries(bw: ByteWorld, w: World, mvs: seq<Move>)
    requires Carries(bw, w) && AlwaysProper(bw, mvs)
    ensures Carries(ByteAfter(bw, mvs), After(w, mvs)) && AlwaysDistinct(w, mvs)
    decreases mvs
  {
    hide Next, ByteNext, DistinctIds, RequestsCarried, BytesOf, EndToEnd.Written;
    if mvs != [] {
      NextCarries(bw, w, mvs[0]);
      RunCarries(ByteNext(bw, mvs[0]), Next(w, mvs[0]), mvs[1..]);
    }
  }

  /** Both clients as they are after their CONNACKs, with nothing on its way. */
  function ByteJoined(maxA: uint16, windowA: uint16, maxB: uint16, windowB: uint16): ByteWorld {
    ByteWorld(Connected(maxA, windowA), Connected(maxB, windowB), [], [])
  }

  /** Ordered exactly-once delivery over bytes: in every run in which requests print unchanged and
      identifiers in flight are distinct, both clients are in the states that they reach by exchanging
      packets, the bytes on their way are those of the packets on their way, and both directions
      are in order. */
  lemma OrderedExactlyOnceOverBytes(maxA: uint16, windowA: uint16, maxB: uint16, windowB: uint16, mvs: seq<Move>)
    requires AlwaysProper(ByteJoined(maxA, windowA, maxB, windowB), mvs)
    ensures var bw := ByteAfter(ByteJoined(maxA, windowA, maxB, windowB), mvs);
            && Carries(bw, After(Joined(maxA, windowA, maxB, windowB), mvs))
            && InOrder(bw.a, bw.b) && InOrder(bw.b, bw.a)
  {
    hide AlwaysProper, ByteAfter, After, AlwaysDistinct, InOrder;
    var start := Joined(maxA, windowA, maxB, windowB);
    assert start.a.sent[0..] == [] && start.b.sent[0..] == [];
    RunCarries(ByteJoined(maxA, windowA, maxB, windowB), start, mvs);
    OrderedExactlyOnce(maxA, windowA, maxB, windowB, mvs);
  }
}
