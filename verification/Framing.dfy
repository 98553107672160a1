/** Reading control packets from a byte stream that arrives in arbitrary pieces. */
module Framing {
  import opened Bytes
  import opened Packets
  import VarInt

  // ---------------------------------------------------------------- specification

  /** What one packet read ends with: a packet, an exception while parsing, or the end of the
      stream. */
  datatype Reading = Received(packet: Packet) | Broken | Closed

  datatype HeaderReading = HeaderIs(typeFlags: byte, remaining: uint32) | HeaderBroken | HeaderClosed

  /** The header loop's predicate: the type byte and a settled length are there. */
  ghost predicate HeaderReady(s: bytes) {
    |s| >= 2 && VarInt.Settled(s[1..])
  }

  ghost function HeaderFrom(s: bytes): HeaderReading {
    if !HeaderReady(s) then HeaderClosed
    else
      match VarInt.Parse(s[1..])
      case Success(p) => HeaderIs(s[0], p.0)
      case Failure(_) => HeaderBroken
  }

  /** Where the body starts. */
  ghost function HeaderSize(s: bytes): (n: nat)
    requires HeaderFrom(s).HeaderIs?
    ensures n <= |s|
  {
    |s| - |VarInt.Parse(s[1..]).value.1|
  }

  /** Bytes of the whole first packet. */
  ghost function FrameLength(s: bytes): nat
    requires HeaderFrom(s).HeaderIs?
  {
    HeaderSize(s) + HeaderFrom(s).remaining
  }

  ghost function BodyFrom(typeFlags: byte, size: nat, s: bytes): Reading {
    if |s| < size then Closed
    else
      match ParseBody(typeFlags, s[..size])
      case Success(p) => Received(p)
      case Failure(_) => Broken
  }

  /** The outcome of a read as a function of the whole stream, pieces forgotten. */
  ghost function ReadFrom(s: bytes): Reading {
    match HeaderFrom(s)
    case HeaderClosed => Closed
    case HeaderBroken => Broken
    case HeaderIs(typeFlags, size) => BodyFrom(typeFlags, size, s[HeaderSize(s)..])
  }

  ghost predicate HeaderMissing(s: bytes, at: int) {
    0 <= at <= |s| && !HeaderReady(s[..at])
  }

  /** Reading at this position of the stream is justified: its first packet is not complete yet. */
  ghost predicate StillNeeded(s: bytes, at: int) {
    && 0 <= at <= |s|
    && (HeaderReady(s[..at]) ==> HeaderFrom(s).HeaderIs? && at < FrameLength(s))
  }

  lemma HeaderOfPrefix(s: bytes, more: bytes)
    requires HeaderReady(s)
    ensures HeaderReady(s + more)
    ensures var p, q := VarInt.Parse(s[1..]), VarInt.Parse((s + more)[1..]);
            if p.Success? then q == Success((p.value.0, p.value.1 + more)) else q.Failure?
  {
    assert (s + more)[1..] == s[1..] + more;
    VarInt.SettledExtends(s[1..], more);
    VarInt.ParseExtends(s[1..], more);
  }

  // ---------------------------------------------------------------- the code

  /** The connection: the persistent read buffer, and what the socket has not delivered yet.
      `consumed` is what was taken out of the buffer so far, and `asked` records the stream
      position of every read request. */
  class Connection {
    var buffer: bytes
    var unread: bytes
    ghost var consumed: bytes
    ghost var asked: seq<nat>

    constructor (stream: bytes)
      ensures buffer == [] && unread == stream && consumed == [] && asked == []
    {
      buffer, unread, consumed, asked := [], stream, [], [];
    }

    ghost function Pending(): bytes
      reads this
    {
      buffer + unread
    }

    /** `read_some` followed by `commit`: at least one byte and at most the amount prepared, any
        number in between; zero only at the end of the stream. */
    method ReadSome(amount: nat) returns (n: nat)
      requires amount > 0
      modifies this
      ensures Pending() == old(Pending()) && consumed == old(consumed)
      ensures asked == old(asked) + [|old(consumed)| + |old(buffer)|]
      ensures n <= amount && n <= |old(unread)| && (n == 0 <==> old(unread) == [])
      ensures |buffer| == |old(buffer)| + n && |unread| == |old(unread)| - n
    {
      asked := asked + [|consumed| + |buffer|];
      n := 0;
      if unread != [] {
        n :| 0 < n <= amount && n <= |unread|;
        Assoc(buffer, unread[..n], unread[n..]);
        assert unread[..n] + unread[n..] == unread;
        buffer, unread := buffer + unread[..n], unread[n..];
      }
    }

    method Consume(n: nat)
      requires n <= |buffer|
      modifies this
      ensures buffer == old(buffer)[n..] && unread == old(unread) && asked == old(asked)
      ensures consumed == old(consumed) + old(buffer)[..n]
      ensures consumed + Pending() == old(consumed + Pending())
      ensures Pending() == old(Pending())[n..]
    {
      ghost var front := buffer[..n];
      consumed := consumed + front;
      assert front + buffer[n..] == buffer;
      Assoc(front, buffer[n..], unread);
      Assoc(old(consumed), front, buffer[n..] + unread);
      buffer := buffer[n..];
    }

    /** `get_data_until` with the header's predicate. */
    method FetchHeader() returns (open: bool)
      modifies this
      ensures Pending() == old(Pending()) && consumed == old(consumed)
      ensures open <==> HeaderReady(buffer)
      ensures !open ==> unread == []
      ensures old(asked) <= asked
      ensures forall i :: |old(asked)| <= i < |asked| ==> HeaderMissing(Pending(), asked[i] - |consumed|)
      ensures HeaderReady(old(buffer)) ==> asked == old(asked) && buffer == old(buffer) && unread == old(unread)
    {
      hide VarInt.Settled;
      ghost var stream := Pending();
      while true
        invariant Pending() == stream && consumed == old(consumed)
        invariant old(asked) <= asked
        invariant forall i :: |old(asked)| <= i < |asked| ==> HeaderMissing(stream, asked[i] - |consumed|)
        invariant HeaderReady(old(buffer)) ==> asked == old(asked) && buffer == old(buffer) && unread == old(unread)
        decreases |unread|
      {
        var ready := false;
        if |buffer| >= 2 {
          ready := VarInt.CanDeserialize(buffer[1..]);
        }
        if ready {
          return true;
        }
        assert HeaderMissing(stream, |buffer|) by {
          assert stream[..|buffer|] == buffer;
        }
        var n := ReadSome(64);
        if n == 0 {
          return false;
        }
      }
    }

    /** `get_data`: until the buffer holds the bytes requested. */
    method FetchBody(size: nat) returns (open: bool)
      modifies this
      ensures Pending() == old(Pending()) && consumed == old(consumed)
      ensures open <==> |buffer| >= size
      ensures !open ==> unread == []
      ensures old(asked) <= asked
      ensures forall i :: |old(asked)| <= i < |asked| ==>
                |consumed| <= asked[i] < |consumed| + size && asked[i] <= |consumed| + |Pending()|
      ensures |old(buffer)| >= size ==> asked == old(asked) && buffer == old(buffer) && unread == old(unread)
    {
      while |buffer| < size
        invariant Pending() == old(Pending()) && consumed == old(consumed)
        invariant old(asked) <= asked
        invariant forall i :: |old(asked)| <= i < |asked| ==>
                    |consumed| <= asked[i] < |consumed| + size && asked[i] <= |consumed| + |Pending()|
        invariant |old(buffer)| >= size ==> asked == old(asked) && buffer == old(buffer) && unread == old(unread)
        decreases |unread|
      {
        var missing := size - |buffer|;
        var n := ReadSome(if missing < 64 then 64 else missing);
        if n == 0 {
          return false;
        }
      }
      return true;
    }

    /** The header's deserializer: the type byte, then the remaining length. */
    method ReadHeader() returns (h: HeaderReading)
      modifies this
      ensures h == HeaderFrom(old(Pending()))
      ensures consumed + Pending() == old(consumed + Pending())
      ensures h.HeaderIs? ==>
                && Pending() == old(Pending())[HeaderSize(old(Pending()))..]
                && |consumed| == |old(consumed)| + HeaderSize(old(Pending()))
      ensures old(asked) <= asked
      ensures forall i :: |old(asked)| <= i < |asked| ==> StillNeeded(old(Pending()), asked[i] - |old(consumed)|)
      ensures HeaderReady(old(buffer)) ==> asked == old(asked) && unread == old(unread)
    {
      hide VarInt.Settled, VarInt.Digits;
      ghost var stream := Pending();
      var open := FetchHeader();
      if !open {
        assert Pending() == buffer;
        return HeaderClosed;
      }
      HeaderOfPrefix(buffer, unread);
      var typeFlags := buffer[0];
      ghost var tail := buffer[1..];
      Consume(1);
      var c := new Cursor(buffer);
      var length := VarInt.Deserialize(c);
      if length.Failure? {
        return HeaderBroken;
      }
      Consume(|buffer| - |c.data|);
      return HeaderIs(typeFlags, length.value);
    }

    /** `control_packet::inplace_deserializer`: header, body bytes, dispatch, consume. */
    method ReadPacket() returns (r: Reading)
      modifies this
      ensures r == ReadFrom(old(Pending()))
      ensures consumed + Pending() == old(consumed + Pending())
      ensures r.Received? ==>
                FrameLength(old(Pending())) <= |old(Pending())|
                && Pending() == old(Pending())[FrameLength(old(Pending()))..]
      ensures old(asked) <= asked
      ensures forall i :: |old(asked)| <= i < |asked| ==> StillNeeded(old(Pending()), asked[i] - |old(consumed)|)
    {
      hide ParseKind, ParseBody, HeaderFrom, HeaderReady, HeaderSize;
      ghost var stream := Pending();
      var h := ReadHeader();
      if h.HeaderBroken? {
        return Broken;
      } else if h.HeaderClosed? {
        return Closed;
      }
      ghost var body := Pending();
      var open := FetchBody(h.remaining);
      if !open {
        return Closed;
      }
      assert body[..h.remaining] == buffer[..h.remaining];
      var packet := DeserializeBody(h.typeFlags, buffer[..h.remaining]);
      if packet.Failure? {
        return Broken;
      }
      Consume(h.remaining);
      assert body[h.remaining..] == stream[FrameLength(stream)..];
      return Received(packet.value);
    }
  }

  // ---------------------------------------------------------------- the outcomes

  lemma HeaderStable(s: bytes, more: bytes)
    requires HeaderReady(s)
    ensures HeaderFrom(s + more) == HeaderFrom(s)
    ensures HeaderFrom(s).HeaderIs? ==> HeaderSize(s + more) == HeaderSize(s)
  {
    HeaderOfPrefix(s, more);
    hide VarInt.Settled, VarInt.Digits;
    assert (s + more)[0] == s[0];
  }

  /** What has been read, or refused, does not depend on what follows. */
  lemma OutcomeStable(s: bytes, more: bytes)
    requires !ReadFrom(s).Closed?
    ensures ReadFrom(s + more) == ReadFrom(s)
  {
    hide HeaderReady, BodyFrom, HeaderFrom, HeaderSize;
    SettledHeader(s);
    HeaderStable(s, more);
    if HeaderFrom(s).HeaderIs? {
      var n := HeaderSize(s);
      assert (s + more)[n..] == s[n..] + more;
      BodyStable(HeaderFrom(s).typeFlags, HeaderFrom(s).remaining, s[n..], more);
    }
  }

  lemma BodyStable(typeFlags: byte, size: nat, s: bytes, more: bytes)
    requires !BodyFrom(typeFlags, size, s).Closed?
    ensures BodyFrom(typeFlags, size, s + more) == BodyFrom(typeFlags, size, s)
  {
    hide ParseBody;
    assert (s + more)[..size] == s[..size];
  }

  lemma SettledHeader(s: bytes)
    requires !ReadFrom(s).Closed?
    ensures HeaderReady(s)
  {
    hide ParseBody;
  }

  lemma BodyCompletes(s: bytes)
    requires HeaderFrom(s).HeaderIs?
    ensures exists more :: !ReadFrom(s + more).Closed?
  {
    var more: bytes := seq(HeaderFrom(s).remaining, i => 0);
    HeaderStable(s, more);
    hide HeaderReady, HeaderFrom, HeaderSize, ParseBody;
    assert |(s + more)[HeaderSize(s)..]| >= |more|;
    assert !ReadFrom(s + more).Closed?;
  }

  lemma HeaderCompletes(s: bytes)
    requires !HeaderReady(s)
    ensures exists more :: HeaderReady(s + more) && !HeaderFrom(s + more).HeaderClosed?
                           && HeaderFrom(s + more).HeaderIs?
  {
    var more: bytes := if s == [] then [0, 0] else [0];
    var t := s + more;
    if |s| >= 2 {
      assert t[1..] == s[1..] + [0];
      VarInt.UnsettledCanStillDecode(s[1..]);
      assert t[1..][|s| - 1] == 0;
    } else {
      assert t[1..] == [0] && [0][0] < 128;
    }
    assert HeaderReady(t);
  }

  /** A read ends with "closed" exactly when the stream could still have gone on to a different outcome,
      and is refused exactly when no continuation makes it a packet. */
  lemma ClosedExactly(s: bytes)
    ensures ReadFrom(s).Closed? <==> exists more :: ReadFrom(s + more) != ReadFrom(s)
    ensures ReadFrom(s).Broken? <==> forall more :: ReadFrom(s + more).Broken?
  {
    hide ReadFrom, HeaderFrom, HeaderReady;
    assert s + [] == s;
    if ReadFrom(s).Closed? {
      ClosedCanGoOn(s);
    } else {
      forall more ensures ReadFrom(s + more) == ReadFrom(s) {
        OutcomeStable(s, more);
      }
    }
  }

  lemma ClosedCanGoOn(s: bytes)
    requires ReadFrom(s).Closed?
    ensures exists more :: !ReadFrom(s + more).Closed?
  {
    if HeaderReady(s) {
      BodyCompletes(s);
    } else {
      HeaderCompletes(s);
      var first :| HeaderFrom(s + first).HeaderIs?;
      BodyCompletes(s + first);
      var more :| !ReadFrom(s + first + more).Closed?;
      Assoc(s, first, more);
    }
  }
}
