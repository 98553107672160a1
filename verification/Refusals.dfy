/** What is read from bytes that the library itself would not write: header flags that do not fit,
    unknown packet types, optional parts that are missing, truncated fields, and with which exception. */
module Refusals {
  import opened Bytes
  import opened Primitives
  import opened Records
  import opened Packets
  import WireFormat

  /** The type is the first half of the first byte; a packet that is read has that type. */
  lemma TypeIsRead(h: byte, s: bytes)
    ensures var r := ParseBody(h, s); r.Success? ==> WireFormat.FirstByte(r.value) / 16 == h / 16
  {
    hide ParseConnect, ParseConnack, ParsePublish, ParseAck, ParseSubscribe, ParseUnsubscribe, ParseCodes,
         ParseDisconnect;
  }

  /** The second half is only looked at for a PUBLISH. */
  lemma FlagsAreIgnored(h: byte, s: bytes)
    requires !(0x30 <= h < 0x40)
    ensures ParseBody(h, s) == ParseBody(h / 16 * 16, s)
  {
    hide ParseConnect, ParseConnack, ParsePublish, ParseAck, ParseSubscribe, ParseUnsubscribe, ParseCodes,
         ParseDisconnect;
    assert h / 16 * 16 / 16 == h / 16 && h / 16 != 3;
  }

  /** Types 0 and 15 are refused; pings are read whatever their body. */
  lemma UnknownTypes(h: byte, s: bytes)
    ensures h < 0x10 || 0xF0 <= h ==> ParseBody(h, s) == Failure(RuntimeError)
    ensures 0xC0 <= h < 0xD0 ==> ParseBody(h, s) == Success(PingreqPacket)
    ensures 0xD0 <= h < 0xE0 ==> ParseBody(h, s) == Success(PingrespPacket)
  {
    hide ParseConnect, ParseConnack, ParsePublish, ParseAck, ParseSubscribe, ParseUnsubscribe, ParseCodes,
         ParseDisconnect;
  }

  lemma ReadShort(a: byte, b: byte, rest: bytes)
    ensures ParseShort([a, b] + rest) == Success((a * 256 + b, rest))
  {
    var s := [a, b] + rest;
    TwoDigits([a, b]);
    hide FromBigEndian;
    assert s[..2] == [a, b] && s[2..] == rest;
  }

  lemma TwoDigits(s: bytes)
    requires |s| == 2
    ensures FromBigEndian(s) == s[0] as int * 256 + s[1] as int
  {
    var t := s[..1];
    assert t[..0] == [] && FromBigEndian([]) == 0;
    assert FromBigEndian(t) == t[0];
  }

  lemma ReadByte(c: byte, rest: bytes)
    ensures ParseByte([c] + rest) == Success((c, rest))
  {
    var s := [c] + rest;
    assert s[..1] == [c] && s[1..] == rest && [c][..0] == [];
  }

  /** Acknowledgements of two bytes mean success; a third byte is a reason code, and the properties stay
      at their defaults; fewer than two bytes are refused. */
  lemma ShortAcknowledgements(a: byte, b: byte, c: byte)
    ensures ParseBody(0x40, [a, b]) == Success(PubackPacket(Ack(a * 256 + b, 0, NO_REASON)))
    ensures ParseBody(0x50, [a, b]) == Success(PubrecPacket(Ack(a * 256 + b, 0, NO_REASON)))
    ensures ParseBody(0x62, [a, b]) == Success(PubrelPacket(Ack(a * 256 + b, 0, NO_REASON)))
    ensures ParseBody(0x70, [a, b]) == Success(PubcompPacket(Ack(a * 256 + b, 0, NO_REASON)))
    ensures ParseBody(0x40, [a, b, c]) == Success(PubackPacket(Ack(a * 256 + b, c, NO_REASON)))
    ensures ParseBody(0x50, [a, b, c]) == Success(PubrecPacket(Ack(a * 256 + b, c, NO_REASON)))
    ensures ParseBody(0x62, [a, b, c]) == Success(PubrelPacket(Ack(a * 256 + b, c, NO_REASON)))
    ensures ParseBody(0x70, [a, b, c]) == Success(PubcompPacket(Ack(a * 256 + b, c, NO_REASON)))
    ensures ParseBody(0x40, [a]) == ParseBody(0x40, []) == Failure(RuntimeError)
  {
    ShortAck(a, b);
    LongerAck(a, b, c);
    hide ParseAck;
    assert ParseAck(1, [a]) == ParseAck(0, []) == Failure(RuntimeError) by { NoAck(a); }
  }

  lemma ShortAck(a: byte, b: byte)
    ensures ParseAck(2, [a, b]) == Success(Ack(a * 256 + b, 0, NO_REASON))
  {
    hide ParseRecord;
    ReadShort(a, b, []);
    assert [a, b] + [] == [a, b];
  }

  lemma LongerAck(a: byte, b: byte, c: byte)
    ensures ParseAck(3, [a, b, c]) == Success(Ack(a * 256 + b, c, NO_REASON))
  {
    hide ParseRecord;
    ReadShort(a, b, [c]);
    ReadByte(c, []);
    assert [a, b] + [c] == [a, b, c] && [c] + [] == [c];
  }

  lemma NoAck(a: byte)
    ensures ParseAck(1, [a]) == ParseAck(0, []) == Failure(RuntimeError)
  {
  }

  /** A DISCONNECT without a body is a normal one; one byte is its reason, and a second byte alone is
      passed over. */
  lemma ShortDisconnects(c: byte, x: byte)
    ensures ParseBody(0xE0, []) == Success(DisconnectPacket(Disconnect(0, NO_DISCONNECT)))
    ensures ParseBody(0xE0, [c]) == Success(DisconnectPacket(Disconnect(c, NO_DISCONNECT)))
    ensures ParseBody(0xE0, [c, x]) == Success(DisconnectPacket(Disconnect(c, NO_DISCONNECT)))
  {
    hide ParseRecord;
    ReadByte(c, []);
    ReadByte(c, [x]);
    assert [c] + [] == [c] && [c] + [x] == [c, x];
  }

  /** Too few bytes are a plain runtime error in a string, and the library's own exception in binary
      data once its length is there. */
  lemma Truncated(s: bytes)
    ensures |s| < 2 ==> ParseText(s) == ParseBinary(s) == Failure(RuntimeError)
    ensures |s| >= 2 && |s| - 2 < s[0] as int * 256 + s[1] as int ==>
              ParseText(s) == Failure(RuntimeError) && ParseBinary(s) == Failure(ProtocolError)
  {
    if |s| >= 2 {
      ReadShort(s[0], s[1], s[2..]);
      assert [s[0], s[1]] + s[2..] == s;
    }
  }

  /** A CONNECT for another protocol is a protocol error. */
  lemma ForeignProtocol(s: bytes)
    requires ParseText(s).Success? && ParseText(s).value.0 != [77, 81, 84, 84]
    ensures ParseBody(0x10, s) == Failure(ProtocolError)
  {
  }
}
