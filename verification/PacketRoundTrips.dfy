/** Printing a packet and parsing it again: for every packet type, exactly what comes back, and
    exactly which packets come back unchanged. */
module PacketRoundTrips {
  import opened Bytes
  import opened Primitives
  import opened Records
  import opened RecordRoundTrips
  import opened Packets
  import Properties
  import VarInt

  // ---------------------------------------------------------------- well-formed packets

  predicate GoodOptional(t: Option<text>) {
    t.Some? ==> FitsPrefix(t.value)
  }

  /** The flag byte says which optional fields follow. */
  predicate FlagsAgree(c: Connect) {
    && (HasBit(c.flags, USERNAME) <==> c.username.Some?)
    && (HasBit(c.flags, PASSWORD) <==> c.password.Some?)
  }

  /** The identifier is written by its value and read by the QoS. */
  predicate IdentifierAgrees(p: Publish) {
    p.packetIdentifier != 0 <==> p.Qos() != 0
  }

  /** What decides whether a field is written agrees with what decides whether it is read. */
  predicate Agrees(p: Packet) {
    match p
    case ConnectPacket(c) => FlagsAgree(c)
    case PublishPacket(m) => IdentifierAgrees(m)
    case _ => true
  }

  /** Lengths fit their prefixes, and unknown properties are typed and distinct. */
  predicate Good(p: Packet) {
    match p
    case ConnectPacket(c) =>
      && GoodConnect(c.properties) && FitsPrefix(c.clientId)
      && GoodOptional(c.username) && GoodOptional(c.password)
      && (HasBit(c.flags, WILL) ==> GoodWill(c.willProperties) && FitsPrefix(c.willTopic) && FitsPrefix(c.willPayload))
    case ConnackPacket(c) => GoodConnack(c.properties)
    case PublishPacket(m) => FitsPrefix(m.topic) && GoodPublish(m.properties)
    case PubackPacket(a) => GoodReason(a.properties)
    case PubrecPacket(a) => GoodReason(a.properties)
    case PubrelPacket(a) => GoodReason(a.properties)
    case PubcompPacket(a) => GoodReason(a.properties)
    case SubscribePacket(s) =>
      GoodSubscribe(s.properties) && forall i :: 0 <= i < |s.topics| ==> FitsPrefix(s.topics[i].topic)
    case SubackPacket(c) => GoodReason(c.properties)
    case UnsubscribePacket(u) =>
      GoodUnsubscribe(u.properties) && forall i :: 0 <= i < |u.topics| ==> FitsPrefix(u.topics[i])
    case UnsubackPacket(c) => GoodReason(c.properties)
    case DisconnectPacket(d) => GoodDisconnect(d.properties)
    case PingreqPacket => true
    case PingrespPacket => true
  }

  // ---------------------------------------------------------------- what comes back

  function CanonicalConnect(c: Connect): Connect {
    var d := c.(properties := c.properties.(session := CanonicalSession(c.properties.session)));
    if HasBit(c.flags, WILL) then d else d.(willProperties := NO_WILL, willTopic := [], willPayload := [])
  }

  function CanonicalAck(a: Ack): Ack {
    if ShortAck(a) then a.(properties := NO_REASON) else a
  }

  function Canonical(p: Packet): Packet {
    match p
    case ConnectPacket(c) => ConnectPacket(CanonicalConnect(c))
    case ConnackPacket(c) =>
      ConnackPacket(c.(properties := c.properties.(session := CanonicalSession(c.properties.session))))
    case PublishPacket(m) => PublishPacket(m.(properties := CanonicalPublish(m.properties)))
    case PubackPacket(a) => PubackPacket(CanonicalAck(a))
    case PubrecPacket(a) => PubrecPacket(CanonicalAck(a))
    case PubrelPacket(a) => PubrelPacket(CanonicalAck(a))
    case PubcompPacket(a) => PubcompPacket(CanonicalAck(a))
    case _ => p
  }

  /** Nothing the printer drops, doubles or truncates is there, and nothing it leaves out that the
      parser looks for or writes that the parser does not. */
  predicate Faithful(p: Packet) {
    match p
    case ConnectPacket(c) =>
      && FlagsAgree(c)
      && (c.properties.session.authenticationMethod != [] || c.properties.session.authenticationData == [])
      && (HasBit(c.flags, WILL) || (c.willProperties == NO_WILL && c.willTopic == [] && c.willPayload == []))
    case ConnackPacket(c) =>
      c.properties.session.authenticationMethod != [] || c.properties.session.authenticationData == []
    case PublishPacket(m) => IdentifierAgrees(m) && m.properties.base.users == [] && m.properties.expiry < 0x1_0000
    case PubackPacket(a) => ShortAck(a) ==> a.properties.base.unknown == []
    case PubrecPacket(a) => ShortAck(a) ==> a.properties.base.unknown == []
    case PubrelPacket(a) => ShortAck(a) ==> a.properties.base.unknown == []
    case PubcompPacket(a) => ShortAck(a) ==> a.properties.base.unknown == []
    case _ => true
  }

  lemma DoubledOnlyIfEmpty(kvs: seq<KeyValue>)
    ensures kvs + kvs == kvs <==> kvs == []
  {
    assert |kvs + kvs| == |kvs| + |kvs|;
  }

  lemma FaithfulIsUnchanged(p: Packet)
    ensures Faithful(p) <==> Agrees(p) && Canonical(p) == p
  {
    if p.PublishPacket? {
      DoubledOnlyIfEmpty(p.publish.properties.base.users);
    }
  }

  // ---------------------------------------------------------------- bodies

  lemma ParseByteOf(b: byte, rest: bytes)
    ensures ParseByte(BigEndian(b, 1) + rest) == Success((b, rest))
  {
    ParseFixedOfPrint(b, 1, rest);
  }

  lemma ParseShortOf(h: uint16, rest: bytes)
    ensures ParseShort(BigEndian(h, 2) + rest) == Success((h, rest))
  {
    ParseFixedOfPrint(h, 2, rest);
  }

  lemma WillBody(c: Connect, rest: bytes)
    requires Good(ConnectPacket(c)) && Fits(PrintWill(c))
    ensures var d := CanonicalConnect(c);
            ParseWill(c.flags, PrintWill(c).value + rest)
                == Success(((d.willProperties, d.willTopic, d.willPayload), rest))
  {
    if HasBit(c.flags, WILL) {
      var properties := PrintRecord(WillEntries(c.willProperties), c.willProperties.base).value;
      var topic, payload := PrintText(c.willTopic), PrintText(c.willPayload);
      Assoc(properties + topic, payload, rest);
      Assoc(properties, topic, payload + rest);
      WillRoundTrip(c.willProperties, topic + (payload + rest));
      TextRoundTrip(c.willTopic, payload + rest);
      TextRoundTrip(c.willPayload, rest);
    } else {
      assert [] + rest == rest;
    }
  }

  lemma OptionalsBody(c: Connect)
    requires Good(ConnectPacket(c)) && FlagsAgree(c)
    ensures ParseUsername(c.flags, PrintOptional(c.username) + PrintOptional(c.password))
            == Success((c.username, PrintOptional(c.password)))
    ensures ParsePassword(c.flags, PrintOptional(c.password)) == Success((c.password, []))
  {
    if c.username.Some? {
      TextRoundTrip(c.username.value, PrintOptional(c.password));
    } else {
      assert [] + PrintOptional(c.password) == PrintOptional(c.password);
    }
    if c.password.Some? {
      TextRoundTrip(c.password.value, []);
      assert PrintText(c.password.value) + [] == PrintText(c.password.value);
    }
  }

  function ConnectTail(c: Connect): bytes
    requires PrintWill(c).Success?
  {
    PrintText(c.clientId) + (PrintWill(c).value + (PrintOptional(c.username) + PrintOptional(c.password)))
  }

  lemma RegroupConnect(a: bytes, b: bytes, c: bytes, d: bytes, e: bytes, f: bytes, g: bytes, h: bytes, i: bytes)
    ensures a + b + c + d + e + f + g + h + i == a + (b + (c + (d + (e + (f + (g + (h + i)))))))
  {
    Assoc(a + b + c + d + e + f + g, h, i);
    Assoc(a + b + c + d + e + f, g, h + i);
    Assoc(a + b + c + d + e, f, g + (h + i));
    Assoc(a + b + c + d, e, f + (g + (h + i)));
    Assoc(a + b + c, d, e + (f + (g + (h + i))));
    Assoc(a + b, c, d + (e + (f + (g + (h + i)))));
    Assoc(a, b, c + (d + (e + (f + (g + (h + i))))));
  }

  lemma ConnectBody(c: Connect)
    requires Good(ConnectPacket(c)) && FlagsAgree(c) && Fits(PrintConnect(c))
    ensures ParseConnect(PrintConnect(c).value) == Success(CanonicalConnect(c))
  {
    var properties := PrintRecord(ConnectEntries(c.properties), c.properties.session.base).value;
    var will, last := PrintWill(c).value, PrintOptional(c.username) + PrintOptional(c.password);
    RegroupConnect(PrintText(PROTOCOL_NAME), BigEndian(c.version, 1), BigEndian(c.flags, 1), BigEndian(c.keepAlive, 2),
                   properties, PrintText(c.clientId), will, PrintOptional(c.username), PrintOptional(c.password));
    var s5 := ConnectTail(c);
    var s4 := properties + s5;
    var s3 := BigEndian(c.keepAlive, 2) + s4;
    var s2 := BigEndian(c.flags, 1) + s3;
    var s1 := BigEndian(c.version, 1) + s2;
    TextRoundTrip(PROTOCOL_NAME, s1);
    ParseByteOf(c.version, s2);
    ParseByteOf(c.flags, s3);
    ParseShortOf(c.keepAlive, s4);
    ConnectRoundTrip(c.properties, s5);
    TextRoundTrip(c.clientId, will + last);
    WillBody(c, last);
    OptionalsBody(c);
  }

  lemma ConnackBody(c: Connack)
    requires GoodConnack(c.properties) && Fits(PrintConnack(c))
    ensures ParseConnack(PrintConnack(c).value)
            == Success(c.(properties := c.properties.(session := CanonicalSession(c.properties.session))))
  {
    var properties := PrintRecord(ConnackEntries(c.properties), c.properties.session.base).value;
    Assoc(BigEndian(c.flags, 1), BigEndian(c.reasonCode, 1), properties);
    ParseByteOf(c.flags, BigEndian(c.reasonCode, 1) + properties);
    ParseByteOf(c.reasonCode, properties);
    ConnackRoundTrip(c.properties, []);
    assert properties + [] == properties;
  }

  lemma PublishBody(p: Publish)
    requires Good(PublishPacket(p)) && IdentifierAgrees(p) && Fits(PrintPublishBody(p))
    ensures ParsePublish(p.flags, PrintPublishBody(p).value)
            == Success(p.(properties := CanonicalPublish(p.properties)))
  {
    var properties, id := PrintPublish(p.properties).value, PrintIdentifier(p.packetIdentifier);
    Assoc(PrintText(p.topic) + id, properties, p.payload);
    Assoc(PrintText(p.topic), id, properties + p.payload);
    TextRoundTrip(p.topic, id + (properties + p.payload));
    if p.packetIdentifier != 0 {
      ParseShortOf(p.packetIdentifier, properties + p.payload);
    } else {
      assert [] + (properties + p.payload) == properties + p.payload;
    }
    PublishRoundTrip(p.properties, p.payload);
  }

  lemma AckBody(a: Ack)
    requires GoodReason(a.properties) && Fits(PrintAck(a))
    ensures var s := PrintAck(a).value; ParseAck(|s|, s) == Success(CanonicalAck(a))
  {
    if ShortAck(a) {
      ParseShortOf(a.packetIdentifier, []);
      assert BigEndian(a.packetIdentifier, 2) + [] == BigEndian(a.packetIdentifier, 2);
    } else {
      var properties := PrintRecord(ReasonEntries(a.properties), a.properties.base).value;
      Assoc(BigEndian(a.packetIdentifier, 2), BigEndian(a.reasonCode, 1), properties);
      ParseShortOf(a.packetIdentifier, BigEndian(a.reasonCode, 1) + properties);
      ParseByteOf(a.reasonCode, properties);
      ReasonRoundTrip(a.properties, []);
      assert properties + [] == properties;
      assert properties != [];
    }
  }

  lemma {:induction false} PrintTopicsConcat(ts: seq<Subscription>)
    requires ts != []
    ensures PrintTopics(ts) == PrintText(ts[0].topic) + (BigEndian(ts[0].options, 1) + PrintTopics(ts[1..]))
    decreases |ts|
  {
    var n := |ts| - 1;
    if n == 0 {
      assert PrintTopics(ts[..0]) == [] && PrintTopics(ts[1..]) == [];
      Assoc([], PrintText(ts[0].topic), BigEndian(ts[0].options, 1));
    } else {
      var front := ts[..n];
      PrintTopicsConcat(front);
      assert ts[1..][..n - 1] == front[1..] && ts[1..][n - 1] == ts[n];
      var a, b, mid := PrintText(ts[0].topic), BigEndian(ts[0].options, 1), PrintTopics(front[1..]);
      var x, y := PrintText(ts[n].topic), BigEndian(ts[n].options, 1);
      Assoc(a, b + mid, x);
      Assoc(a, b + mid + x, y);
      Assoc(b, mid, x);
      Assoc(b, mid + x, y);
    }
  }

  lemma {:induction false} TopicsBody(ts: seq<Subscription>)
    requires forall i :: 0 <= i < |ts| ==> FitsPrefix(ts[i].topic)
    ensures ParseTopics(PrintTopics(ts)) == Success(ts)
  {
    if ts != [] {
      PrintTopicsConcat(ts);
      TopicsBody(ts[1..]);
      TextRoundTrip(ts[0].topic, BigEndian(ts[0].options, 1) + PrintTopics(ts[1..]));
      ParseByteOf(ts[0].options, PrintTopics(ts[1..]));
      assert [Subscription(ts[0].topic, ts[0].options)] + ts[1..] == ts;
    }
  }

  lemma SubscribeBody(s: Subscribe)
    requires Good(SubscribePacket(s)) && Fits(PrintSubscribeBody(s))
    ensures ParseSubscribe(PrintSubscribeBody(s).value) == Success(s)
  {
    var properties := PrintSubscribe(s.properties).value;
    Assoc(BigEndian(s.packetIdentifier, 2), properties, PrintTopics(s.topics));
    ParseShortOf(s.packetIdentifier, properties + PrintTopics(s.topics));
    SubscribeRoundTrip(s.properties, PrintTopics(s.topics));
    TopicsBody(s.topics);
  }

  lemma {:induction false} PrintTextsConcat(ts: seq<text>)
    requires ts != []
    ensures PrintTexts(ts) == PrintText(ts[0]) + PrintTexts(ts[1..])
    decreases |ts|
  {
    var n := |ts| - 1;
    if n == 0 {
      assert PrintTexts(ts[..0]) == [] && PrintTexts(ts[1..]) == [];
      assert [] + PrintText(ts[0]) == PrintText(ts[0]) + [];
    } else {
      var front := ts[..n];
      PrintTextsConcat(front);
      assert ts[1..][..n - 1] == front[1..] && ts[1..][n - 1] == ts[n];
      Assoc(PrintText(ts[0]), PrintTexts(front[1..]), PrintText(ts[n]));
    }
  }

  lemma {:induction false} TextsBody(ts: seq<text>)
    requires forall i :: 0 <= i < |ts| ==> FitsPrefix(ts[i])
    ensures ParseTexts(PrintTexts(ts)) == Success(ts)
  {
    if ts != [] {
      PrintTextsConcat(ts);
      TextsBody(ts[1..]);
      TextRoundTrip(ts[0], PrintTexts(ts[1..]));
      assert [ts[0]] + ts[1..] == ts;
    }
  }

  lemma UnsubscribeBody(u: Unsubscribe)
    requires Good(UnsubscribePacket(u)) && Fits(PrintUnsubscribeBody(u))
    ensures ParseUnsubscribe(PrintUnsubscribeBody(u).value) == Success(u)
  {
    var properties := PrintRecord([], u.properties.base).value;
    Assoc(BigEndian(u.packetIdentifier, 2), properties, PrintTexts(u.topics));
    ParseShortOf(u.packetIdentifier, properties + PrintTexts(u.topics));
    UnsubscribeRoundTrip(u.properties, PrintTexts(u.topics));
    TextsBody(u.topics);
  }

  lemma CodesBody(c: Codes)
    requires GoodReason(c.properties) && Fits(PrintCodes(c))
    ensures ParseCodes(PrintCodes(c).value) == Success(c)
  {
    var properties := PrintRecord(ReasonEntries(c.properties), c.properties.base).value;
    Assoc(BigEndian(c.packetIdentifier, 2), properties, c.reasonCodes);
    ParseShortOf(c.packetIdentifier, properties + c.reasonCodes);
    ReasonRoundTrip(c.properties, c.reasonCodes);
  }

  /** A one-byte property section can only be the empty list. */
  lemma OneByteRecord<R>(h: Handler<R>, start: R, s: bytes, r: R)
    requires |s| == 1 && ParseRecord(h, start, s) == Success((r, []))
    ensures r == start
  {
  }

  lemma DisconnectBody(d: Disconnect)
    requires GoodDisconnect(d.properties) && Fits(PrintDisconnect(d))
    ensures ParseDisconnect(PrintDisconnect(d).value) == Success(d)
  {
    if d.reason != 0 || d.properties != NO_DISCONNECT {
      var properties := PrintRecord(DisconnectEntries(d.properties), d.properties.base).value;
      ParseByteOf(d.reason, properties);
      DisconnectRoundTrip(d.properties, []);
      assert properties + [] == properties;
      if |properties| == 1 {
        OneByteRecord(HandleDisconnect, NO_DISCONNECT, properties, d.properties);
      }
    }
  }

  lemma HeaderByte(p: Packet)
    ensures var h := p.Type() * 16 + p.HeaderFlags(); h / 16 == p.Type() && h % 16 == p.HeaderFlags()
  {
  }

  lemma AckKind(kind: nibble, flags: nibble, a: Ack)
    requires 4 <= kind <= 7 && GoodReason(a.properties) && Fits(PrintAck(a))
    ensures var b := CanonicalAck(a);
            ParseKind(kind, flags, PrintAck(a).value) ==
              Success(if kind == 4 then PubackPacket(b) else if kind == 5 then PubrecPacket(b)
                      else if kind == 6 then PubrelPacket(b) else PubcompPacket(b))
  {
    hide ParseAck, PrintAck, GoodReason;
    AckBody(a);
  }

  lemma CodesKind(kind: nibble, flags: nibble, c: Codes)
    requires (kind == 9 || kind == 11) && GoodReason(c.properties) && Fits(PrintCodes(c))
    ensures ParseKind(kind, flags, PrintCodes(c).value)
            == Success(if kind == 9 then SubackPacket(c) else UnsubackPacket(c))
  {
    hide ParseCodes, PrintCodes, GoodReason;
    CodesBody(c);
  }

  lemma DisconnectKind(d: Disconnect)
    requires GoodDisconnect(d.properties) && Fits(PrintDisconnect(d))
    ensures ParseKind(14, 0, PrintDisconnect(d).value) == Success(DisconnectPacket(d))
  {
    hide ParseDisconnect, PrintDisconnect, GoodDisconnect;
    DisconnectBody(d);
  }

  /** For every packet type the body parser applied to the printed body gives the canonical packet. */
  lemma BodyRoundTrip(p: Packet)
    requires Good(p) && Agrees(p) && Fits(PrintBody(p))
    ensures ParseBody(p.Type() * 16 + p.HeaderFlags(), PrintBody(p).value) == Success(Canonical(p))
  {
    hide ParseConnect, ParseConnack, ParsePublish, ParseSubscribe, ParseUnsubscribe, PrintConnect, PrintConnack,
         PrintPublishBody, PrintAck, PrintSubscribeBody, PrintCodes, PrintUnsubscribeBody, PrintDisconnect;
    HeaderByte(p);
    match p
    case ConnectPacket(c) => ConnectBody(c);
    case ConnackPacket(c) => ConnackBody(c);
    case PublishPacket(m) => PublishBody(m);
    case PubackPacket(a) => AckKind(4, 0, a);
    case PubrecPacket(a) => AckKind(5, 0, a);
    case PubrelPacket(a) => AckKind(6, 2, a);
    case PubcompPacket(a) => AckKind(7, 0, a);
    case SubscribePacket(s) => SubscribeBody(s);
    case SubackPacket(c) => CodesKind(9, 0, c);
    case UnsubscribePacket(u) => UnsubscribeBody(u);
    case UnsubackPacket(c) => CodesKind(11, 0, c);
    case DisconnectPacket(d) => DisconnectKind(d);
    case PingreqPacket =>
    case PingrespPacket =>
  }

  // ---------------------------------------------------------------- what never comes back

  /** The parser decides by the flags whether there is a user name and a password. */
  lemma ParsedFlagsAgree(s: bytes)
    ensures ParseConnect(s).Success? ==> FlagsAgree(ParseConnect(s).value)
  {
    hide ParseText, ParseBinary, ParseWill, ParseRecord, HasBit;
  }

  lemma {:induction false} FirstByteZero(v: nat)
    ensures VarInt.Encode(v)[0] == 0 <==> v == 0
  {
  }

  /** A printed property list that begins with a zero byte is the empty list. */
  lemma ZeroLength(ps: seq<Properties.Property>)
    requires Fits(Properties.Print(ps))
    ensures var b := Properties.Print(ps).value; b != [] && (b[0] == 0 ==> b == [0])
  {
    var body := Properties.PrintAll(ps).value;
    FirstByteZero(Low32(|body|));
    if Low32(|body|) == 0 {
      assert [0] + body == [0] + [] == [0];
    }
  }

  lemma ParseShortens<R>(h: Handler<R>, start: R, s: bytes)
    ensures var r := ParseRecord(h, start, s); r.Success? ==> |r.value.1| < |s|
  {
  }

  /** Without an identifier, the bytes in its place are taken from what follows: either they are not
      zero, or they are the empty property list and a byte of the payload. */
  lemma MissingIdentifier(p: Publish)
    requires FitsPrefix(p.topic) && Fits(PrintPublishBody(p)) && p.Qos() != 0 && p.packetIdentifier == 0
    ensures ParsePublish(p.flags, PrintPublishBody(p).value) != Success(p)
  {
    hide ParseRecord, ParseText, PrintText, PrintPublish, FromBigEndian;
    var properties := PrintPublish(p.properties).value;
    var tail := properties + p.payload;
    Assoc(PrintText(p.topic) + [], properties, p.payload);
    assert PrintText(p.topic) + [] == PrintText(p.topic);
    TextRoundTrip(p.topic, tail);
    var id := ParseShort(tail);
    if id.Success? && id.value.0 == 0 {
      ZeroShort(tail);
      EmptyPublish(p.properties);
      ParseShortens(HandlePublish, NO_PUBLISH, id.value.1);
    }
  }

  lemma ZeroShort(s: bytes)
    requires ParseShort(s).Success? && ParseShort(s).value.0 == 0
    ensures |s| >= 2 && s[0] == 0 && ParseShort(s).value.1 == s[2..]
  {
    var front := s[..2];
    assert front[..1] == [s[0]] && [s[0]][..0] == [];
    assert FromBigEndian(front) == FromBigEndian(front[..1]) * 256 + s[1];
    assert FromBigEndian([s[0]]) == FromBigEndian([]) * 256 + s[0];
  }

  lemma EmptyPublish(r: PublishProperties)
    requires Fits(PrintPublish(r))
    ensures var b := PrintPublish(r).value; b != [] && (b[0] == 0 ==> b == [0])
  {
    ZeroLength(Properties.AddAll([], PublishAdded(r)));
  }

  /** A PUBLISH whose identifier disagrees with its QoS never comes back: with QoS 0 the reader does not
      look for the identifier, and above it the reader takes other bytes for it. */
  lemma MismatchedIdentifier(p: Publish)
    requires FitsPrefix(p.topic) && Fits(PrintPublishBody(p)) && !IdentifierAgrees(p)
    ensures ParsePublish(p.flags, PrintPublishBody(p).value) != Success(p)
  {
    if p.Qos() != 0 {
      MissingIdentifier(p);
    }
  }

  /** A PUBLISH whose lengths fit comes back unchanged if and only if its identifier is non-zero just
      when its QoS is, it has no user properties, and its expiry interval fits 16 bits. */
  lemma PublishBodyExact(p: Publish)
    requires Good(PublishPacket(p)) && Fits(PrintPublishBody(p))
    ensures ParsePublish(p.flags, PrintPublishBody(p).value) == Success(p) <==>
            IdentifierAgrees(p) && p.properties.base.users == [] && p.properties.expiry < 0x1_0000
  {
    hide ParsePublish, PrintPublishBody;
    if IdentifierAgrees(p) {
      PublishBody(p);
      FaithfulIsUnchanged(PublishPacket(p));
    } else {
      MismatchedIdentifier(p);
    }
  }

  // ---------------------------------------------------------------- exactly what comes back unchanged

  /** The body parser gives the packet itself exactly when it is faithful. */
  lemma BodyRoundTripExact(p: Packet)
    requires Good(p) && Fits(PrintBody(p))
    ensures ParseBody(p.Type() * 16 + p.HeaderFlags(), PrintBody(p).value) == Success(p) <==> Faithful(p)
  {
    FaithfulIsUnchanged(p);
    if Agrees(p) {
      hide ParseBody, PrintBody, Canonical, Faithful;
      BodyRoundTrip(p);
    } else {
      hide ParseConnect, ParsePublish, PrintConnect, PrintPublishBody;
      HeaderByte(p);
      ParsedFlagsAgree(PrintBody(p).value);
      if p.PublishPacket? {
        MismatchedIdentifier(p.publish);
      }
    }
  }
}
