/** Whole streams: many packets printed one after the other, delivered in arbitrary pieces, and
    read back one at a time. */
module Streams {
  import opened Bytes
  import opened Packets
  import opened PacketRoundTrips
  import opened Framing
  import VarInt

  /** A packet the printer accepts, with a body the 32-bit counter can count. */
  predicate Sendable(p: Packet) {
    Good(p) && Agrees(p) && Print(p).Success? && |PrintBody(p).value| < 0x1_0000_0000
  }

  /** Its bytes on the wire. */
  function Wire(p: Packet): bytes
    requires Sendable(p)
  {
    Print(p).value
  }

  predicate AllSendable(ps: seq<Packet>) {
    forall i :: 0 <= i < |ps| ==> Sendable(ps[i])
  }

  function PrintStream(ps: seq<Packet>): bytes
    requires AllSendable(ps)
  {
    if ps == [] then [] else Wire(ps[0]) + PrintStream(ps[1..])
  }

  function CanonicalAll(ps: seq<Packet>): seq<Packet> {
    seq(|ps|, i requires 0 <= i < |ps| => Canonical(ps[i]))
  }

  /** Puts packets already read in front of what reading on gives. */
  function Join(ps: seq<Packet>, r: Option<(seq<Packet>, bytes)>): Option<(seq<Packet>, bytes)> {
    if r.Some? then Some((ps + r.value.0, r.value.1)) else None
  }

  /** Reads n packets from a stream; none if any of the reads does not end with a packet. */
  ghost function ReadMany(s: bytes, n: nat): Option<(seq<Packet>, bytes)>
    decreases n
  {
    if n == 0 then Some(([], s))
    else
      match ReadFrom(s)
      case Received(p) => if FrameLength(s) > |s| then None else Join([p], ReadMany(s[FrameLength(s)..], n - 1))
      case _ => None
  }

  lemma JoinOne(ps: seq<Packet>, p: Packet, r: Option<(seq<Packet>, bytes)>)
    ensures Join(ps, Join([p], r)) == Join(ps + [p], r)
  {
    if r.Some? {
      Assoc(ps, [p], r.value.0);
    }
  }

  lemma JoinNothing(s: bytes, n: nat, ps: seq<Packet>)
    ensures Join([], ReadMany(s, n)) == ReadMany(s, n)
    ensures Join(ps, ReadMany(s, 0)) == Some((ps, s))
  {
    hide ReadFrom, FrameLength;
    var r := ReadMany(s, n);
    assert r.Some? ==> [] + r.value.0 == r.value.0;
    assert ps + [] == ps;
  }

  lemma PrintedHeader(p: Packet, rest: bytes)
    requires Sendable(p)
    ensures var body := PrintBody(p).value;
            && VarInt.Print(|body|).Success?
            && var n := VarInt.Print(|body|).value;
            && Print(p).value + rest == [p.Type() * 16 + p.HeaderFlags()] + (n + (body + rest))
            && |Print(p).value| == 1 + |n| + |body|
  {
    var body := PrintBody(p).value;
    var n := VarInt.Print(|body|).value;
    Assoc([p.Type() * 16 + p.HeaderFlags()] + n, body, rest);
    Assoc([p.Type() * 16 + p.HeaderFlags()], n, body + rest);
  }

  /** An encoded length is settled by its own last byte. */
  lemma {:induction false} EncodingSettles(v: nat, rest: bytes)
    ensures VarInt.Settled(VarInt.Encode(v) + rest)
    decreases v
  {
    var s := VarInt.Encode(v) + rest;
    if v < 128 {
      assert s[0] == v;
    } else {
      EncodingSettles(v / 128, rest);
      var t := VarInt.Encode(v / 128) + rest;
      assert s[1..] == t;
      if |t| < 4 {
        var i :| 0 <= i < |t| && t[i] < 128;
        assert s[i + 1] == t[i];
      }
    }
  }

  lemma HeaderOfPrinted(h: byte, size: uint32, rest: bytes)
    requires VarInt.Print(size).Success?
    ensures var s := [h] + (VarInt.Print(size).value + rest);
            HeaderFrom(s) == HeaderIs(h, size) && s[HeaderSize(s)..] == rest
            && HeaderSize(s) == 1 + |VarInt.Print(size).value|
  {
    var n := VarInt.Print(size).value;
    var s := [h] + (n + rest);
    assert s[1..] == n + rest;
    EncodingSettles(size, rest);
    VarInt.RoundTrip(size, rest);
    assert s[1 + |n|..] == rest;
  }

  /** One printed packet, whatever follows it. */
  lemma ReadOfPrint(p: Packet, rest: bytes)
    requires Sendable(p)
    ensures var s := Wire(p) + rest;
            && ReadFrom(s) == Received(Canonical(p))
            && FrameLength(s) == |Wire(p)|
            && s[FrameLength(s)..] == rest
  {
    var body := PrintBody(p).value;
    PrintedHeader(p, rest);
    HeaderOfPrinted(p.Type() * 16 + p.HeaderFlags(), |body|, body + rest);
    assert (body + rest)[..|body|] == body;
    BodyRoundTrip(p);
    var s := Print(p).value + rest;
    assert s[|Print(p).value|..] == rest;
  }

  lemma ReadManyStep(s: bytes, p: Packet, tail: bytes, n: nat, more: seq<Packet>, rest: bytes)
    requires ReadFrom(s) == Received(p) && FrameLength(s) <= |s| && s[FrameLength(s)..] == tail
    requires ReadMany(tail, n) == Some((more, rest))
    ensures ReadMany(s, n + 1) == Some(([p] + more, rest))
  {
    hide ParseKind;
  }

  /** Any sequence of packets, with any bytes after it: reading that many packets gives their
      canonical forms and leaves exactly the bytes after them. */
  lemma {:induction false} StreamRoundTrip(ps: seq<Packet>, rest: bytes)
    requires AllSendable(ps)
    ensures ReadMany(PrintStream(ps) + rest, |ps|) == Some((CanonicalAll(ps), rest))
    decreases ps
  {
    hide ReadFrom, FrameLength, Canonical, Sendable, Wire;
    if ps == [] {
      assert PrintStream(ps) + rest == rest;
      assert CanonicalAll(ps) == [];
      assert ReadMany(rest, 0) == Some(([], rest));
    } else {
      var front, tail := Wire(ps[0]), PrintStream(ps[1..]) + rest;
      Assoc(front, PrintStream(ps[1..]), rest);
      ReadOfPrint(ps[0], tail);
      StreamRoundTrip(ps[1..], rest);
      ReadManyStep(front + tail, Canonical(ps[0]), tail, |ps| - 1, CanonicalAll(ps[1..]), rest);
      assert [Canonical(ps[0])] + CanonicalAll(ps[1..]) == CanonicalAll(ps);
    }
  }

  lemma UnchangedWhenFaithful(ps: seq<Packet>)
    requires forall i :: 0 <= i < |ps| ==> Agrees(ps[i])
    ensures CanonicalAll(ps) == ps <==> forall i :: 0 <= i < |ps| ==> Faithful(ps[i])
  {
    forall i | 0 <= i < |ps| ensures Canonical(ps[i]) == ps[i] <==> Faithful(ps[i]) {
      FaithfulIsUnchanged(ps[i]);
    }
    forall i | 0 <= i < |ps| && CanonicalAll(ps) == ps ensures Canonical(ps[i]) == ps[i] {
      assert CanonicalAll(ps)[i] == Canonical(ps[i]);
    }
  }

  /** The receive loop: one `ReadPacket` after another over the same connection. However the socket
      cuts the stream, the packets are those of the uncut stream. */
  method ReadAll(c: Connection, n: nat) returns (ps: seq<Packet>, ok: bool)
    modifies c
    ensures ok <==> ReadMany(old(c.Pending()), n).Some?
    ensures ok ==> ReadMany(old(c.Pending()), n) == Some((ps, c.Pending()))
    ensures c.consumed + c.Pending() == old(c.consumed + c.Pending())
  {
    hide ParseKind;
    ps := [];
    ghost var stream := c.Pending();
    JoinNothing(stream, n, []);
    for i := 0 to n
      invariant c.consumed + c.Pending() == old(c.consumed + c.Pending())
      invariant ReadMany(stream, n) == Join(ps, ReadMany(c.Pending(), n - i))
    {
      var r := c.ReadPacket();
      if !r.Received? {
        return ps, false;
      }
      JoinOne(ps, r.packet, ReadMany(c.Pending(), n - i - 1));
      ps := ps + [r.packet];
    }
    JoinNothing(c.Pending(), 0, ps);
    return ps, true;
  }

  /** Writes every packet, hands the bytes to a socket that delivers them in pieces of its own
      choosing, and reads the same packets back. */
  method Transfer(ps: seq<Packet>) returns (received: seq<Packet>, ok: bool)
    requires AllSendable(ps)
    ensures ok && received == CanonicalAll(ps)
    ensures received == ps <==> forall i :: 0 <= i < |ps| ==> Faithful(ps[i])
  {
    hide ParseKind, Good, Faithful, Canonical;
    var w := new Sink(false);
    for i := 0 to |ps|
      invariant fresh(w) && w.Valid()
      invariant w.written + PrintStream(ps[i..]) == PrintStream(ps)
    {
      assert ps[i..][1..] == ps[i + 1..];
      ghost var before := w.written;
      var r := Packets.Serialize(ps[i], w);
      Assoc(before, Print(ps[i]).value, PrintStream(ps[i + 1..]));
    }
    assert w.written + [] == w.written;
    var c := new Connection(w.buffer);
    assert [] + w.buffer == w.buffer && PrintStream(ps) + [] == PrintStream(ps);
    StreamRoundTrip(ps, []);
    received, ok := ReadAll(c, |ps|);
    UnchangedWhenFaithful(ps);
  }
}
