/** The bytes of the packets (MQTT 5.0 sections 2 and 3), for all their contents: which byte a packet
    starts with, which field comes where, and what reading those bytes gives. */
module WireFormat {
  import opened Bytes
  import opened Primitives
  import opened Records
  import opened RecordRoundTrips
  import opened PropertyFormat
  import opened Packets
  import opened PacketRoundTrips
  import Engine
  import VarInt

  // ---------------------------------------------------------------- the format

  /** Type and flags. */
  function FirstByte(p: Packet): byte {
    match p
    case ConnectPacket(_) => 0x10
    case ConnackPacket(_) => 0x20
    case PublishPacket(m) => 0x30 + m.flags
    case PubackPacket(_) => 0x40
    case PubrecPacket(_) => 0x50
    case PubrelPacket(_) => 0x62
    case PubcompPacket(_) => 0x70
    case SubscribePacket(_) => 0x82
    case SubackPacket(_) => 0x90
    case UnsubscribePacket(_) => 0xA2
    case UnsubackPacket(_) => 0xB0
    case PingreqPacket => 0xC0
    case PingrespPacket => 0xD0
    case DisconnectPacket(_) => 0xE0
  }

  function ShortBytes(v: uint16): bytes { [v / 256, v % 256] }

  function OptionalBytes(t: Option<text>): bytes {
    if t.Some? then TextBytes(t.value) else []
  }

  /** Protocol name and version, flags, keep-alive, properties, client identifier; the will's
      properties, topic and payload when bit 2 is set; user name and password when there are any. */
  function ConnectBody(c: Connect): bytes {
    ConnectHead(c.version, c.flags, c.keepAlive) + Listed(ConnectList(c.properties)) + TextBytes(c.clientId)
    + (if c.flags / 4 % 2 == 1 then WillBytes(c.willProperties, c.willTopic, c.willPayload) else [])
    + OptionalBytes(c.username) + OptionalBytes(c.password)
  }

  function ConnectHead(version: byte, flags: byte, keepAlive: uint16): bytes {
    [0, 4, 77, 81, 84, 84, version, flags, keepAlive / 256, keepAlive % 256]
  }

  function WillBytes(properties: WillProperties, topic: text, payload: bytes): bytes {
    Listed(WillList(properties)) + TextBytes(topic) + TextBytes(payload)
  }

  function ConnackBody(c: Connack): bytes {
    [c.flags, c.reasonCode] + Listed(ConnackList(c.properties))
  }

  /** Topic, identifier if there is one, properties, payload. */
  function PublishBytes(m: Publish): bytes {
    TextBytes(m.topic) + (if m.packetIdentifier != 0 then ShortBytes(m.packetIdentifier) else [])
    + Listed(PublishList(m.properties)) + m.payload
  }

  /** Identifier, and, unless all is well and there is nothing to say, the code and the properties. */
  function AckBytes(a: Ack): bytes {
    if a.reasonCode == 0 && a.properties.base.users == [] && a.properties.reasonString == [] then
      ShortBytes(a.packetIdentifier)
    else ShortBytes(a.packetIdentifier) + [a.reasonCode] + Listed(ReasonList(a.properties))
  }

  /** The topics of a SUBSCRIBE, each followed by its options. */
  function TopicBytes(ts: seq<Subscription>): bytes {
    if ts == [] then []
    else TopicBytes(ts[..|ts| - 1]) + TextBytes(ts[|ts| - 1].topic) + [ts[|ts| - 1].options]
  }

  function SubscribeBytes(s: Subscribe): bytes {
    ShortBytes(s.packetIdentifier) + Listed(BaseBytes(s.properties.base)) + TopicBytes(s.topics)
  }

  function TextsBytes(ts: seq<text>): bytes {
    if ts == [] then [] else TextsBytes(ts[..|ts| - 1]) + TextBytes(ts[|ts| - 1])
  }

  function UnsubscribeBytes(u: Unsubscribe): bytes {
    ShortBytes(u.packetIdentifier) + Listed(BaseBytes(u.properties.base)) + TextsBytes(u.topics)
  }

  /** Identifier, properties, and one reason code for each topic. */
  function CodesBytes(c: Codes): bytes {
    ShortBytes(c.packetIdentifier) + Listed(ReasonList(c.properties)) + c.reasonCodes
  }

  /** Nothing for a normal disconnect without properties. */
  function DisconnectBytes(d: Disconnect): bytes {
    if d == Disconnect(0, DisconnectProperties(Base([], []), 0, [], [])) then []
    else [d.reason] + Listed(DisconnectList(d.properties))
  }

  function BodyBytes(p: Packet): bytes {
    match p
    case ConnectPacket(c) => ConnectBody(c)
    case ConnackPacket(c) => ConnackBody(c)
    case PublishPacket(m) => PublishBytes(m)
    case PubackPacket(a) => AckBytes(a)
    case PubrecPacket(a) => AckBytes(a)
    case PubrelPacket(a) => AckBytes(a)
    case PubcompPacket(a) => AckBytes(a)
    case SubscribePacket(s) => SubscribeBytes(s)
    case SubackPacket(c) => CodesBytes(c)
    case UnsubscribePacket(u) => UnsubscribeBytes(u)
    case UnsubackPacket(c) => CodesBytes(c)
    case DisconnectPacket(d) => DisconnectBytes(d)
    case PingreqPacket => []
    case PingrespPacket => []
  }

  /** Property lists that can be written: identifiers in range, and a length of at most four bytes. */
  predicate Lists(p: Packet) {
    match p
    case ConnectPacket(c) =>
      && Carried(c.properties.session.base) && |ConnectList(c.properties)| <= 268_435_455
      && (c.flags / 4 % 2 == 1 ==> Carried(c.willProperties.base) && |WillList(c.willProperties)| <= 268_435_455)
    case ConnackPacket(c) => Carried(c.properties.session.base) && |ConnackList(c.properties)| <= 268_435_455
    case PublishPacket(m) =>
      && Carried(m.properties.base) && |PublishList(m.properties)| <= 268_435_455
      && m.properties.subscriptionIdentifier == 0
    case PubackPacket(a) => ReasonLists(a.properties)
    case PubrecPacket(a) => ReasonLists(a.properties)
    case PubrelPacket(a) => ReasonLists(a.properties)
    case PubcompPacket(a) => ReasonLists(a.properties)
    case SubscribePacket(s) =>
      && Carried(s.properties.base) && |BaseBytes(s.properties.base)| <= 268_435_455
      && s.properties.subscriptionIdentifier == 0
    case SubackPacket(c) => ReasonLists(c.properties)
    case UnsubscribePacket(u) => Carried(u.properties.base) && |BaseBytes(u.properties.base)| <= 268_435_455
    case UnsubackPacket(c) => ReasonLists(c.properties)
    case DisconnectPacket(d) => Carried(d.properties.base) && |DisconnectList(d.properties)| <= 268_435_455
    case PingreqPacket => true
    case PingrespPacket => true
  }

  predicate ReasonLists(r: ReasonProperties) {
    Carried(r.base) && |ReasonList(r)| <= 268_435_455
  }

  predicate Writable(p: Packet) {
    Good(p) && Lists(p) && |BodyBytes(p)| <= 268_435_455
  }

  // ---------------------------------------------------------------- body by body

  lemma ProtocolNameFormat()
    ensures PrintText(PROTOCOL_NAME) == [0, 4, 77, 81, 84, 84]
  {
    TwoBytes(4);
    assert [0, 4] + PROTOCOL_NAME == [0, 4, 77, 81, 84, 84];
  }

  lemma WillFormat(c: Connect)
    requires Good(ConnectPacket(c)) && Lists(ConnectPacket(c))
    ensures PrintWill(c)
            == Success(if c.flags / 4 % 2 == 1 then WillBytes(c.willProperties, c.willTopic, c.willPayload) else [])
  {
    hide PrintRecord, ParseRecord, PrintText, TextBytes, ConnectList, WillList, Listed;
    if c.flags / 4 % 2 == 1 {
      assert HasBit(c.flags, WILL);
      WillListFormat(c.willProperties, []);
      TextFormat(c.willTopic);
      TextFormat(c.willPayload);
    }
  }

  lemma OptionalFormat(t: Option<text>)
    ensures PrintOptional(t) == OptionalBytes(t)
  {
    if t.Some? {
      TextFormat(t.value);
    }
  }

  lemma ConnectBodyFormat(c: Connect)
    requires Good(ConnectPacket(c)) && Lists(ConnectPacket(c))
    ensures PrintConnect(c) == Success(ConnectBody(c))
  {
    hide PrintRecord, ParseRecord, PrintText, BigEndian, PrintWill, TextBytes, ConnectList, WillList, Listed,
         PrintOptional, OptionalBytes;
    ConnectListFormat(c.properties, []);
    WillFormat(c);
    OneByte(c.version);
    OneByte(c.flags);
    TwoBytes(c.keepAlive);
    TextFormat(c.clientId);
    OptionalFormat(c.username);
    OptionalFormat(c.password);
    ProtocolNameFormat();
    var name := PrintText(PROTOCOL_NAME);
    assert name + [c.version] + [c.flags] + [c.keepAlive / 256, c.keepAlive % 256]
        == ConnectHead(c.version, c.flags, c.keepAlive);
  }

  lemma ConnackBodyFormat(c: Connack)
    requires Good(ConnackPacket(c)) && Lists(ConnackPacket(c))
    ensures PrintConnack(c) == Success(ConnackBody(c))
  {
    hide PrintRecord, ParseRecord, BigEndian, ConnackList, Listed;
    ConnackListFormat(c.properties, []);
    OneByte(c.flags);
    OneByte(c.reasonCode);
    assert [c.flags] + [c.reasonCode] == [c.flags, c.reasonCode];
  }

  lemma PublishBodyFormat(m: Publish)
    requires Good(PublishPacket(m)) && Lists(PublishPacket(m))
    ensures PrintPublishBody(m) == Success(PublishBytes(m))
  {
    hide PrintPublish, ParseRecord, PrintText, BigEndian, TextBytes, PublishList, Listed;
    PublishListFormat(m.properties, []);
    TextFormat(m.topic);
    TwoBytes(m.packetIdentifier);
  }

  lemma AckBodyFormat(a: Ack)
    requires GoodReason(a.properties) && ReasonLists(a.properties)
    ensures PrintAck(a) == Success(AckBytes(a))
  {
    hide PrintRecord, ParseRecord, BigEndian, ReasonList, Listed;
    ReasonListFormat(a.properties, []);
    TwoBytes(a.packetIdentifier);
    OneByte(a.reasonCode);
  }

  lemma {:induction false} TopicsFormat(ts: seq<Subscription>)
    ensures PrintTopics(ts) == TopicBytes(ts)
  {
    hide TextBytes, PrintText, BigEndian;
    if ts != [] {
      TopicsFormat(ts[..|ts| - 1]);
      TextFormat(ts[|ts| - 1].topic);
      OneByte(ts[|ts| - 1].options);
    }
  }

  lemma SubscribeBodyFormat(s: Subscribe)
    requires Good(SubscribePacket(s)) && Lists(SubscribePacket(s))
    ensures PrintSubscribeBody(s) == Success(SubscribeBytes(s))
  {
    hide PrintRecord, PrintTopics, TopicBytes, BigEndian, BaseBytes, Listed;
    BareListFormat(s.properties.base, SUBSCRIBE_KNOWN);
    TwoBytes(s.packetIdentifier);
    TopicsFormat(s.topics);
  }

  lemma {:induction false} TextsFormat(ts: seq<text>)
    ensures PrintTexts(ts) == TextsBytes(ts)
  {
    hide TextBytes, PrintText;
    if ts != [] {
      TextsFormat(ts[..|ts| - 1]);
      TextFormat(ts[|ts| - 1]);
    }
  }

  lemma UnsubscribeBodyFormat(u: Unsubscribe)
    requires Good(UnsubscribePacket(u)) && Lists(UnsubscribePacket(u))
    ensures PrintUnsubscribeBody(u) == Success(UnsubscribeBytes(u))
  {
    hide PrintRecord, PrintTexts, TextsBytes, BigEndian, BaseBytes, Listed;
    BareListFormat(u.properties.base, {});
    TwoBytes(u.packetIdentifier);
    TextsFormat(u.topics);
  }

  lemma CodesBodyFormat(c: Codes)
    requires GoodReason(c.properties) && ReasonLists(c.properties)
    ensures PrintCodes(c) == Success(CodesBytes(c))
  {
    hide PrintRecord, ParseRecord, BigEndian, ReasonList, Listed;
    ReasonListFormat(c.properties, []);
    TwoBytes(c.packetIdentifier);
  }

  lemma DisconnectBodyFormat(d: Disconnect)
    requires Good(DisconnectPacket(d)) && Lists(DisconnectPacket(d))
    ensures PrintDisconnect(d) == Success(DisconnectBytes(d))
  {
    hide PrintRecord, ParseRecord, BigEndian, DisconnectList, Listed;
    DisconnectListFormat(d.properties, []);
    OneByte(d.reason);
  }

  lemma BodyFormat(p: Packet)
    requires Good(p) && Lists(p)
    ensures PrintBody(p) == Success(BodyBytes(p))
  {
    hide Good, Lists, PrintConnect, PrintConnack, PrintPublishBody, PrintAck, PrintSubscribeBody, PrintCodes,
         PrintUnsubscribeBody, PrintDisconnect, ConnectBody, ConnackBody, PublishBytes, AckBytes, SubscribeBytes,
         UnsubscribeBytes, CodesBytes, DisconnectBytes;
    match p
    case ConnectPacket(c) => ConnectBodyFormat(c);
    case ConnackPacket(c) => ConnackBodyFormat(c);
    case PublishPacket(m) => PublishBodyFormat(m);
    case PubackPacket(a) => AckFormat(p, a);
    case PubrecPacket(a) => AckFormat(p, a);
    case PubrelPacket(a) => AckFormat(p, a);
    case PubcompPacket(a) => AckFormat(p, a);
    case SubscribePacket(s) => SubscribeBodyFormat(s);
    case SubackPacket(c) => CodesFormat(p, c);
    case UnsubscribePacket(u) => UnsubscribeBodyFormat(u);
    case UnsubackPacket(c) => CodesFormat(p, c);
    case DisconnectPacket(d) => DisconnectBodyFormat(d);
    case PingreqPacket =>
    case PingrespPacket =>
  }

  lemma AckFormat(p: Packet, a: Ack)
    requires Good(p) && Lists(p)
    requires p == PubackPacket(a) || p == PubrecPacket(a) || p == PubrelPacket(a) || p == PubcompPacket(a)
    ensures PrintAck(a) == Success(AckBytes(a))
  {
    AckBodyFormat(a);
  }

  lemma CodesFormat(p: Packet, c: Codes)
    requires Good(p) && Lists(p) && (p == SubackPacket(c) || p == UnsubackPacket(c))
    ensures PrintCodes(c) == Success(CodesBytes(c))
  {
    CodesBodyFormat(c);
  }

  // ---------------------------------------------------------------- every packet

  lemma FirstByteFormat(p: Packet)
    ensures p.Type() * 16 + p.HeaderFlags() == FirstByte(p)
  {
  }

  /** What is written for a packet of any type: its first byte, the length of its body, its body. And
      what is read from that first byte and that body: the packet, if and only if it is faithful, and
      its canonical form whenever flags and identifier agree with its fields. */
  lemma PacketFormat(p: Packet)
    requires Writable(p)
    ensures Print(p) == Success([FirstByte(p)] + VarInt.Encode(|BodyBytes(p)|) + BodyBytes(p))
    ensures ParseBody(FirstByte(p), BodyBytes(p)) == Success(p) <==> Faithful(p)
    ensures Agrees(p) ==> ParseBody(FirstByte(p), BodyBytes(p)) == Success(Canonical(p))
  {
    hide PrintBody, BodyBytes, ParseBody, Good, Lists, Faithful, Canonical, FirstByte, Agrees;
    BodyFormat(p);
    FirstByteFormat(p);
    BodyRoundTripExact(p);
    if Agrees(p) {
      BodyRoundTrip(p);
    }
  }

  // ---------------------------------------------------------------- some packets written out

  lemma NoUnknown()
    ensures Carried(Base([], [])) && BaseBytes(Base([], [])) == [] && Listed([]) == [0]
  {
    assert Listed([]) == [0] + [];
  }

  lemma Empty(b: bytes)
    ensures [] + b == b + [] == b && Flat([]) == []
  {
  }

  lemma {:induction false} Nothing(bs: seq<bytes>)
    requires forall i :: 0 <= i < |bs| ==> bs[i] == []
    ensures Flat(bs) == []
  {
    if bs != [] {
      Nothing(bs[1..]);
    }
  }

  lemma DefaultLists()
    ensures ReasonList(NO_REASON) == [] && DisconnectList(NO_DISCONNECT) == [] && PublishList(NO_PUBLISH) == []
    ensures ConnackList(NO_CONNACK) == [] && BaseBytes(NO_BASE) == []
  {
    NoUnknown();
    Nothing(DisconnectFields(NO_DISCONNECT));
    Nothing(PublishFieldsA(NO_PUBLISH));
    Nothing(PublishFieldsB(NO_PUBLISH));
    Nothing(ConnackFields(NO_CONNACK));
  }

  lemma Framed(p: Packet, first: byte, body: bytes)
    requires Good(p) && Lists(p) && BodyBytes(p) == body && FirstByte(p) == first && |body| <= VarInt.MAX_VALUE
    ensures Print(p) == Success([first] + VarInt.Encode(|body|) + body)
    ensures |body| < 128 ==> Print(p) == Success([first, |body|] + body)
    ensures ParseBody(first, body) == Success(p) <==> Faithful(p)
  {
    hide Print, BodyBytes, FirstByte, Good, Lists, ParseBody, Faithful, Canonical, Agrees;
    PacketFormat(p);
    if |body| < 128 {
      OneByteLength(|body|);
      assert [first] + [|body|] == [first, |body|];
    }
  }

  lemma PlainReason(r: ReasonProperties)
    requires r == NO_REASON
    ensures GoodReason(r) && ReasonLists(r) && Listed(ReasonList(r)) == [0]
  {
    DefaultLists();
    NoUnknown();
  }

  lemma PlainAck(p: Packet, id: uint16, code: byte)
    requires var a := Engine.Reply(id, code);
             p == PubackPacket(a) || p == PubrecPacket(a) || p == PubrelPacket(a) || p == PubcompPacket(a)
    ensures Good(p) && Lists(p)
    ensures BodyBytes(p) == if code == 0 then [id / 256, id % 256] else [id / 256, id % 256, code, 0]
  {
    hide GoodReason, ReasonLists, Listed, ReasonList;
    PlainReason(NO_REASON);
    assert [id / 256, id % 256] + [code] + [0] == [id / 256, id % 256, code, 0];
  }

  /** The four acknowledgements of a publish, for any identifier and any reason code. */
  lemma AcknowledgementFormat(id: uint16, code: byte)
    ensures var a := Engine.Reply(id, code);
            var body := if code == 0 then [id / 256, id % 256] else [id / 256, id % 256, code, 0];
            && Print(PubackPacket(a)) == Success([0x40, |body|] + body)
            && Print(PubrecPacket(a)) == Success([0x50, |body|] + body)
            && Print(PubrelPacket(a)) == Success([0x62, |body|] + body)
            && Print(PubcompPacket(a)) == Success([0x70, |body|] + body)
  {
    hide Print, BodyBytes, Good, Lists, ParseBody, Faithful;
    var a := Engine.Reply(id, code);
    var body := if code == 0 then [id / 256, id % 256] else [id / 256, id % 256, code, 0];
    PlainAck(PubackPacket(a), id, code);
    PlainAck(PubrecPacket(a), id, code);
    PlainAck(PubrelPacket(a), id, code);
    PlainAck(PubcompPacket(a), id, code);
    Framed(PubackPacket(a), 0x40, body);
    Framed(PubrecPacket(a), 0x50, body);
    Framed(PubrelPacket(a), 0x62, body);
    Framed(PubcompPacket(a), 0x70, body);
  }

  lemma PlainDisconnect(reason: byte)
    ensures var p := DisconnectPacket(Disconnect(reason, NO_DISCONNECT));
            Good(p) && Lists(p) && BodyBytes(p) == if reason == 0 then [] else [reason, 0]
  {
    hide BaseBytes, Flat;
    DefaultLists();
    NoUnknown();
    assert [reason] + [0] == [reason, 0];
  }

  lemma PingFormat()
    ensures Print(PingreqPacket) == Success([0xC0, 0]) && Print(PingrespPacket) == Success([0xD0, 0])
  {
    hide Print, ParseBody;
    Framed(PingreqPacket, 0xC0, []);
    Framed(PingrespPacket, 0xD0, []);
    assert [0xC0, 0] + [] == [0xC0, 0] && [0xD0, 0] + [] == [0xD0, 0];
  }

  /** Pings, and DISCONNECT without properties, for any reason. */
  lemma PingAndDisconnectFormat(reason: byte)
    ensures Print(PingreqPacket) == Success([0xC0, 0]) && Print(PingrespPacket) == Success([0xD0, 0])
    ensures Print(DisconnectPacket(Disconnect(reason, NO_DISCONNECT)))
            == Success(if reason == 0 then [0xE0, 0] else [0xE0, 2, reason, 0])
  {
    hide Print, ParseBody, BodyBytes, Good, Lists, Faithful;
    PingFormat();
    PlainDisconnect(reason);
    var body := if reason == 0 then [] else [reason, 0];
    Framed(DisconnectPacket(Disconnect(reason, NO_DISCONNECT)), 0xE0, body);
    assert [0xE0, |body|] + body == if reason == 0 then [0xE0, 0] else [0xE0, 2, reason, 0];
  }

  lemma PlainPublish(m: Publish)
    requires FitsPrefix(m.topic) && m.properties == NO_PUBLISH
    ensures var p := PublishPacket(m);
            && Good(p) && Lists(p)
            && BodyBytes(p) == TextBytes(m.topic)
               + (if m.packetIdentifier != 0 then ShortBytes(m.packetIdentifier) else []) + [0] + m.payload
  {
    hide BaseBytes, Flat, TextBytes, ShortBytes, PublishList;
    DefaultLists();
    NoUnknown();
  }

  lemma FittingText(t: text)
    requires FitsPrefix(t)
    ensures TextBytes(t) == [|t| / 256, |t| % 256] + t
  {
  }

  /** PUBLISH without properties: flags beside the type, topic, identifier if there is one, payload. */
  lemma PublishFormat(flags: nibble, topic: text, id: uint16, payload: bytes)
    requires FitsPrefix(topic)
    ensures var body := [|topic| / 256, |topic| % 256] + topic
                        + (if id != 0 then [id / 256, id % 256] else []) + [0] + payload;
            |body| <= VarInt.MAX_VALUE ==>
              Print(PublishPacket(Publish(flags, topic, id, NO_PUBLISH, payload)))
              == Success([0x30 + flags] + VarInt.Encode(|body|) + body)
  {
    hide Print, BodyBytes, Good, Lists, ParseBody, Faithful, TextBytes;
    var p := PublishPacket(Publish(flags, topic, id, NO_PUBLISH, payload));
    PlainPublish(p.publish);
    FittingText(topic);
    if |BodyBytes(p)| <= VarInt.MAX_VALUE {
      Framed(p, 0x30 + flags, BodyBytes(p));
    }
  }

  lemma PlainBase(known: set<uint32>)
    ensures GoodBase(NO_BASE, known) && Carried(NO_BASE) && BaseBytes(NO_BASE) == [] && Listed([]) == [0]
  {
    NoUnknown();
  }

  lemma TopicsFit(s: Subscribe)
    requires s.properties == NO_SUBSCRIBE && forall i :: 0 <= i < |s.topics| ==> FitsPrefix(s.topics[i].topic)
    ensures Good(SubscribePacket(s))
  {
    hide GoodBase, FitsPrefix;
    PlainBase(SUBSCRIBE_KNOWN);
  }

  lemma TopicsListed(s: Subscribe)
    requires s.properties == NO_SUBSCRIBE
    ensures Lists(SubscribePacket(s))
  {
    hide Carried, BaseBytes;
    PlainBase(SUBSCRIBE_KNOWN);
  }

  lemma OnlyTopics(s: Subscribe)
    requires s.properties == NO_SUBSCRIBE
    ensures SubscribeBytes(s) == [s.packetIdentifier / 256, s.packetIdentifier % 256, 0] + TopicBytes(s.topics)
  {
    hide BaseBytes, TopicBytes, Listed, ShortBytes;
    PlainBase({});
    IdentifierFirst(s.packetIdentifier);
  }

  /** SUBSCRIBE without properties: reserved flags, identifier, topics with their options. */
  lemma SubscribeFormat(s: Subscribe)
    requires s.properties == NO_SUBSCRIBE && forall i :: 0 <= i < |s.topics| ==> FitsPrefix(s.topics[i].topic)
    ensures var id, p := s.packetIdentifier, SubscribePacket(s);
            var body := [id / 256, id % 256, 0] + TopicBytes(s.topics);
            |body| <= VarInt.MAX_VALUE ==>
              && Print(p) == Success([0x82] + VarInt.Encode(|body|) + body)
              && ParseBody(0x82, body) == Success(p)
  {
    hide Print, Good, Lists, ParseBody, TopicBytes, SubscribeBytes, FitsPrefix;
    TopicsFit(s);
    TopicsListed(s);
    OnlyTopics(s);
    if |SubscribeBytes(s)| <= VarInt.MAX_VALUE {
      Framed(SubscribePacket(s), 0x82, SubscribeBytes(s));
    }
  }

  function ConnackOf(flags: byte, code: byte, receiveMaximum: uint16): Connack {
    Connack(flags, code, NO_CONNACK.(session := NO_SESSION.(receiveMaximum := receiveMaximum)))
  }

  lemma PlainConnack(flags: byte, code: byte, receiveMaximum: uint16)
    ensures var p := ConnackPacket(ConnackOf(flags, code, receiveMaximum));
            && Good(p) && Lists(p) && Faithful(p)
            && BodyBytes(p) == if receiveMaximum == 65535 then [flags, code, 0]
                               else [flags, code, 3, 33, receiveMaximum / 256, receiveMaximum % 256]
  {
    hide BaseBytes, Flat, ConnackFields, ConnackList;
    var m := When(receiveMaximum != 65535, ShortField(33, receiveMaximum));
    NoUnknown();
    OnlyReceiveMaximum(ConnackOf(flags, code, receiveMaximum).properties);
    OneByteLength(|m|);
    assert Listed(m) == [|m|] + m;
    assert [flags, code] + ([|m|] + m) == [flags, code, |m|] + m;
    assert [flags, code, 3] + [33, receiveMaximum / 256, receiveMaximum % 256]
        == [flags, code, 3, 33, receiveMaximum / 256, receiveMaximum % 256];
    assert [flags, code, 0] + [] == [flags, code, 0];
  }

  /** The handshake's answer: flags, reason code, properties. It starts with 0x20, and is read as it was
      meant, its receive maximum included. */
  lemma ConnackFormat(flags: byte, code: byte, receiveMaximum: uint16)
    ensures var p := ConnackPacket(ConnackOf(flags, code, receiveMaximum));
            var body := if receiveMaximum == 65535 then [flags, code, 0]
                        else [flags, code, 3, 33, receiveMaximum / 256, receiveMaximum % 256];
            && Print(p) == Success([0x20, |body|] + body)
            && ParseBody(0x20, body) == Success(p)
  {
    hide Print, BodyBytes, Good, Lists, ParseBody, Faithful;
    PlainConnack(flags, code, receiveMaximum);
    var p := ConnackPacket(ConnackOf(flags, code, receiveMaximum));
    Framed(p, 0x20, BodyBytes(p));
  }

  lemma OnlyReceiveMaximum(r: ConnackProperties)
    requires r == NO_CONNACK.(session := NO_SESSION.(receiveMaximum := r.session.receiveMaximum))
    ensures ConnackList(r) == When(r.session.receiveMaximum != 65535, ShortField(33, r.session.receiveMaximum))
  {
    var fs := ConnackFields(r);
    FlatLast(fs);
    NoUnknown();
  }

  lemma {:induction false} FlatLast(bs: seq<bytes>)
    requires bs != [] && forall i :: 0 <= i < |bs| - 1 ==> bs[i] == []
    ensures Flat(bs) == bs[|bs| - 1]
  {
    if |bs| > 1 {
      FlatLast(bs[1..]);
    } else {
      assert bs[1..] == [] && bs[0] + [] == bs[0];
    }
  }

  lemma TextsFit(u: Unsubscribe)
    requires u.properties == NO_UNSUBSCRIBE && forall i :: 0 <= i < |u.topics| ==> FitsPrefix(u.topics[i])
    ensures Good(UnsubscribePacket(u))
  {
    hide GoodUnsubscribe, FitsPrefix;
    BareUnsubscribe();
  }

  lemma TextsListed(u: Unsubscribe)
    requires u.properties == NO_UNSUBSCRIBE
    ensures Lists(UnsubscribePacket(u)) && Faithful(UnsubscribePacket(u))
  {
    hide Carried, BaseBytes;
    BareUnsubscribe();
  }

  lemma BareUnsubscribe()
    ensures GoodUnsubscribe(NO_UNSUBSCRIBE) && Carried(NO_BASE) && BaseBytes(NO_BASE) == []
  {
    NoUnknown();
  }

  lemma OnlyTexts(u: Unsubscribe)
    requires u.properties == NO_UNSUBSCRIBE
    ensures UnsubscribeBytes(u) == [u.packetIdentifier / 256, u.packetIdentifier % 256, 0] + TextsBytes(u.topics)
  {
    hide BaseBytes, TextsBytes, Listed, ShortBytes;
    PlainBase({});
    IdentifierFirst(u.packetIdentifier);
  }

  lemma IdentifierFirst(id: uint16)
    ensures ShortBytes(id) + [0] == [id / 256, id % 256, 0]
  {
  }

  /** UNSUBSCRIBE without properties starts with 0xA2; it is read back. */
  lemma UnsubscribeFormat(u: Unsubscribe)
    requires u.properties == NO_UNSUBSCRIBE && forall i :: 0 <= i < |u.topics| ==> FitsPrefix(u.topics[i])
    ensures var id, p := u.packetIdentifier, UnsubscribePacket(u);
            var body := [id / 256, id % 256, 0] + TextsBytes(u.topics);
            |body| <= VarInt.MAX_VALUE ==>
              && Print(p) == Success([0xA2] + VarInt.Encode(|body|) + body)
              && ParseBody(0xA2, body) == Success(p)
  {
    hide Print, Good, Lists, ParseBody, Faithful, TextsBytes, UnsubscribeBytes, FitsPrefix;
    TextsFit(u);
    TextsListed(u);
    OnlyTexts(u);
    if |UnsubscribeBytes(u)| <= VarInt.MAX_VALUE {
      Framed(UnsubscribePacket(u), 0xA2, UnsubscribeBytes(u));
    }
  }

  lemma PlainCodes(p: Packet, id: uint16, codes: bytes)
    requires p == SubackPacket(Codes(id, NO_REASON, codes)) || p == UnsubackPacket(Codes(id, NO_REASON, codes))
    ensures Good(p) && Lists(p) && Faithful(p) && BodyBytes(p) == [id / 256, id % 256, 0] + codes
  {
    hide GoodReason, ReasonLists, Listed, ReasonList;
    PlainReason(NO_REASON);
    assert [id / 256, id % 256] + [0] == [id / 256, id % 256, 0];
  }

  /** SUBACK starts with 0x90 and UNSUBACK with 0xB0; the codes come last. */
  lemma SubackFormat(id: uint16, codes: bytes)
    ensures var c, body := Codes(id, NO_REASON, codes), [id / 256, id % 256, 0] + codes;
            |body| <= VarInt.MAX_VALUE ==>
              && Print(SubackPacket(c)) == Success([0x90] + VarInt.Encode(|body|) + body)
              && Print(UnsubackPacket(c)) == Success([0xB0] + VarInt.Encode(|body|) + body)
              && ParseBody(0x90, body) == Success(SubackPacket(c))
              && ParseBody(0xB0, body) == Success(UnsubackPacket(c))
  {
    hide Print, BodyBytes, Good, Lists, ParseBody, Faithful;
    var c, body := Codes(id, NO_REASON, codes), [id / 256, id % 256, 0] + codes;
    PlainCodes(SubackPacket(c), id, codes);
    PlainCodes(UnsubackPacket(c), id, codes);
    if |body| <= VarInt.MAX_VALUE {
      Framed(SubackPacket(c), 0x90, body);
      Framed(UnsubackPacket(c), 0xB0, body);
    }
  }

  /** A CONNECT with a session expiry and a client identifier, and otherwise as constructed. */
  function ConnectOf(keepAlive: uint16, expiry: uint32, clientId: text): Connect {
    Connect(5, 0, keepAlive, NO_CONNECT.(session := NO_SESSION.(sessionExpiry := expiry)), clientId, NO_WILL, [], [],
            None, None)
  }

  lemma OnlyExpiry(r: ConnectProperties)
    requires r == NO_CONNECT.(session := NO_SESSION.(sessionExpiry := r.session.sessionExpiry))
    ensures ConnectList(r) == When(r.session.sessionExpiry != 0, WordField(17, r.session.sessionExpiry))
  {
    var fs, expiry := ConnectFields(r), r.session.sessionExpiry;
    assert fs == fs[..5] + fs[5..];
    FlatConcat(fs[..5], fs[5..]);
    FlatLast(fs[..5]);
    Nothing(fs[5..]);
    Empty(fs[4]);
    NoUnknown();
  }

  lemma {:induction false} FlatConcat(a: seq<bytes>, b: seq<bytes>)
    ensures Flat(a + b) == Flat(a) + Flat(b)
  {
    if a == [] {
      assert a + b == b;
    } else {
      assert (a + b)[1..] == a[1..] + b;
      FlatConcat(a[1..], b);
    }
  }

  /** The properties: none when the expiry is zero. */
  function ExpiryBytes(expiry: uint32): bytes {
    if expiry == 0 then [0]
    else [5, 17, expiry / 0x100_0000, expiry / 0x1_0000 % 256, expiry / 256 % 256, expiry % 256]
  }

  lemma ExpiryListed(expiry: uint32)
    ensures var w := When(expiry != 0, WordField(17, expiry)); |w| <= 5 && Listed(w) == ExpiryBytes(expiry)
  {
    var w := When(expiry != 0, WordField(17, expiry));
    OneByteLength(|w|);
    assert Listed(w) == [|w|] + w;
    assert [0] + [] == [0];
  }

  lemma PlainConnect(keepAlive: uint16, expiry: uint32, clientId: text)
    requires FitsPrefix(clientId)
    ensures var p := ConnectPacket(ConnectOf(keepAlive, expiry, clientId));
            && Good(p) && Lists(p)
            && BodyBytes(p) == ConnectHead(5, 0, keepAlive) + ExpiryBytes(expiry) + TextBytes(clientId)
  {
    hide BaseBytes, Flat, ConnectList, ConnectHead, ExpiryBytes, TextBytes, WordField, When, Listed;
    var c := ConnectOf(keepAlive, expiry, clientId);
    NoUnknown();
    OnlyExpiry(c.properties);
    ExpiryListed(expiry);
    var body := ConnectHead(5, 0, keepAlive) + ExpiryBytes(expiry) + TextBytes(clientId);
    assert body + [] + [] + [] == body;
  }

  /** With 10 seconds each and no identifier these are the bytes of the repository's own test. */
  lemma ConnectFormat(keepAlive: uint16, expiry: uint32, clientId: text)
    requires FitsPrefix(clientId)
    ensures var body := [0, 4, 77, 81, 84, 84, 5, 0, keepAlive / 256, keepAlive % 256]
                        + ExpiryBytes(expiry) + ([|clientId| / 256, |clientId| % 256] + clientId);
            Print(ConnectPacket(ConnectOf(keepAlive, expiry, clientId)))
            == Success([0x10] + VarInt.Encode(|body|) + body)
  {
    hide Print, BodyBytes, Good, Lists, ParseBody, Faithful, TextBytes;
    PlainConnect(keepAlive, expiry, clientId);
    FittingText(clientId);
    var p := ConnectPacket(ConnectOf(keepAlive, expiry, clientId));
    Framed(p, 0x10, BodyBytes(p));
  }
}
