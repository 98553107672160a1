/** The control packets, their bodies, and the fixed header (MQTT 5.0 sections 2.1 and 3). */
module Packets {
  import opened Bytes
  import opened Primitives
  import opened Records
  import VarInt

  type nibble = x: int | 0 <= x < 16

  datatype Connect = Connect(
    version: byte, flags: byte, keepAlive: uint16, properties: ConnectProperties, clientId: text,
    willProperties: WillProperties, willTopic: text, willPayload: bytes,
    username: Option<text>, password: Option<bytes>)

  datatype Connack = Connack(flags: byte, reasonCode: byte, properties: ConnackProperties)

  datatype Publish = Publish(
    flags: nibble, topic: text, packetIdentifier: uint16, properties: PublishProperties, payload: bytes)
  {
    /** 0, 1 or 2; the reserved value 3 is representable. */
    function Qos(): nat { flags / 2 % 4 }
  }

  /** PUBACK, PUBREC, PUBREL and PUBCOMP share one layout. */
  datatype Ack = Ack(packetIdentifier: uint16, reasonCode: byte, properties: ReasonProperties)

  datatype Subscription = Subscription(topic: text, options: byte)

  datatype Subscribe = Subscribe(packetIdentifier: uint16, properties: SubscribeProperties, topics: seq<Subscription>)

  datatype Unsubscribe = Unsubscribe(packetIdentifier: uint16, properties: UnsubscribeProperties, topics: seq<text>)

  /** SUBACK and UNSUBACK. */
  datatype Codes = Codes(packetIdentifier: uint16, properties: ReasonProperties, reasonCodes: bytes)

  datatype Disconnect = Disconnect(reason: byte, properties: DisconnectProperties)

  datatype Packet =
    | ConnectPacket(connect: Connect)
    | ConnackPacket(connack: Connack)
    | PublishPacket(publish: Publish)
    | PubackPacket(ack: Ack)
    | PubrecPacket(ack: Ack)
    | PubrelPacket(ack: Ack)
    | PubcompPacket(ack: Ack)
    | SubscribePacket(subscribe: Subscribe)
    | SubackPacket(codes: Codes)
    | UnsubscribePacket(unsubscribe: Unsubscribe)
    | UnsubackPacket(codes: Codes)
    | DisconnectPacket(disconnect: Disconnect)
    | PingreqPacket
    | PingrespPacket
  {
    function Type(): nibble {
      match this
      case ConnectPacket(_) => 1
      case ConnackPacket(_) => 2
      case PublishPacket(_) => 3
      case PubackPacket(_) => 4
      case PubrecPacket(_) => 5
      case PubrelPacket(_) => 6
      case PubcompPacket(_) => 7
      case SubscribePacket(_) => 8
      case SubackPacket(_) => 9
      case UnsubscribePacket(_) => 10
      case UnsubackPacket(_) => 11
      case PingreqPacket => 12
      case PingrespPacket => 13
      case DisconnectPacket(_) => 14
    }

    function HeaderFlags(): nibble {
      match this
      case PublishPacket(p) => p.flags
      case PubrelPacket(_) => 2
      case SubscribePacket(_) => 2
      case UnsubscribePacket(_) => 2
      case _ => 0
    }
  }

  /** A test of one bit of a flag byte. */
  predicate HasBit(flags: byte, mask: nat)
    requires mask > 0
  {
    flags / mask % 2 == 1
  }

  const CLEAN_START := 2
  const WILL := 4
  const WILL_RETAIN := 0x20
  const PASSWORD := 0x40
  const USERNAME := 0x80

  const PROTOCOL_NAME: text := [77, 81, 84, 84]

  // ---------------------------------------------------------------- bodies, parsed

  function ParseConnect(s: bytes): Result<Connect> {
    var (name, s1) :- ParseText(s);
    if name != PROTOCOL_NAME then Failure(ProtocolError)
    else
      var (version, s2) :- ParseByte(s1);
      var (flags, s3) :- ParseByte(s2);
      var (keepAlive, s4) :- ParseShort(s3);
      var (properties, s5) :- ParseRecord(HandleConnect, NO_CONNECT, s4);
      var (clientId, s6) :- ParseText(s5);
      var (will, s7) :- ParseWill(flags, s6);
      var (username, s8) :- ParseUsername(flags, s7);
      var (password, s9) :- ParsePassword(flags, s8);
      Success(Connect(version, flags, keepAlive, properties, clientId, will.0, will.1, will.2, username, password))
  }

  function ParseWill(flags: byte, s: bytes): Result<((WillProperties, text, bytes), bytes)> {
    if HasBit(flags, WILL) then
      var (properties, s1) :- ParseRecord(HandleWill, NO_WILL, s);
      var (topic, s2) :- ParseText(s1);
      var (payload, s3) :- ParseBinary(s2);
      Success(((properties, topic, payload), s3))
    else Success(((NO_WILL, [], []), s))
  }

  function ParseUsername(flags: byte, s: bytes): Result<(Option<text>, bytes)> {
    if HasBit(flags, USERNAME) then
      var (name, rest) :- ParseText(s);
      Success((Some(name), rest))
    else Success((None, s))
  }

  function ParsePassword(flags: byte, s: bytes): Result<(Option<bytes>, bytes)> {
    if HasBit(flags, PASSWORD) then
      var (word, rest) :- ParseBinary(s);
      Success((Some(word), rest))
    else Success((None, s))
  }

  function ParseConnack(s: bytes): Result<Connack> {
    var (flags, s1) :- ParseByte(s);
    var (code, s2) :- ParseByte(s1);
    var (properties, s3) :- ParseRecord(HandleConnack, NO_CONNACK, s2);
    Success(Connack(flags, code, properties))
  }

  /** The identifier is read when the header's QoS is not 0; the payload is whatever is left. */
  function ParsePublish(flags: nibble, s: bytes): Result<Publish> {
    var (topic, s1) :- ParseText(s);
    var (id, s2) :- if flags / 2 % 4 != 0 then ParseShort(s1) else Success((0, s1));
    var (properties, payload) :- ParseRecord(HandlePublish, NO_PUBLISH, s2);
    Success(Publish(flags, topic, id, properties, payload))
  }

  /** The reason code and the properties are each optional, decided by the remaining length. */
  function ParseAck(remaining: nat, s: bytes): Result<Ack> {
    var (id, s1) :- ParseShort(s);
    var (code, s2) :- if remaining > 2 then ParseByte(s1) else Success((0, s1));
    var (properties, s3) :-
      if remaining >= 4 then ParseRecord(HandleReason, NO_REASON, s2) else Success((NO_REASON, s2));
    Success(Ack(id, code, properties))
  }

  function ParseTopics(s: bytes): Result<seq<Subscription>>
    decreases |s|
  {
    if s == [] then Success([])
    else
      var (topic, s1) :- ParseText(s);
      var (options, s2) :- ParseByte(s1);
      var topics :- ParseTopics(s2);
      Success([Subscription(topic, options)] + topics)
  }

  function ParseSubscribe(s: bytes): Result<Subscribe> {
    var (id, s1) :- ParseShort(s);
    var (properties, s2) :- ParseRecord(HandleSubscribe, NO_SUBSCRIBE, s1);
    var topics :- ParseTopics(s2);
    Success(Subscribe(id, properties, topics))
  }

  function ParseTexts(s: bytes): Result<seq<text>>
    decreases |s|
  {
    if s == [] then Success([])
    else
      var (topic, s1) :- ParseText(s);
      var topics :- ParseTexts(s1);
      Success([topic] + topics)
  }

  function ParseUnsubscribe(s: bytes): Result<Unsubscribe> {
    var (id, s1) :- ParseShort(s);
    var (properties, s2) :- ParseRecord(HandleUnsubscribe, NO_UNSUBSCRIBE, s1);
    var topics :- ParseTexts(s2);
    Success(Unsubscribe(id, properties, topics))
  }

  function ParseCodes(s: bytes): Result<Codes> {
    var (id, s1) :- ParseShort(s);
    var (properties, codes) :- ParseRecord(HandleReason, NO_REASON, s1);
    Success(Codes(id, properties, codes))
  }

  /** An empty body means a normal disconnect; a lone reason code, or one followed by a single byte,
      leaves the properties at their defaults. */
  function ParseDisconnect(s: bytes): Result<Disconnect> {
    if s == [] then Success(Disconnect(0, NO_DISCONNECT))
    else
      var (reason, s1) :- ParseByte(s);
      var (properties, s2) :- if |s1| > 1 then ParseRecord(HandleDisconnect, NO_DISCONNECT, s1)
                              else Success((NO_DISCONNECT, s1));
      Success(Disconnect(reason, properties))
  }

  /** Dispatch on the header; ping bodies are skipped and unknown types refused. */
  function ParseBody(header: byte, s: bytes): Result<Packet> {
    ParseKind(header / 16, header % 16, s)
  }

  function ParseKind(kind: nibble, flags: nibble, s: bytes): Result<Packet> {
    if kind == 1 then var x :- ParseConnect(s); Success(ConnectPacket(x))
    else if kind == 2 then var x :- ParseConnack(s); Success(ConnackPacket(x))
    else if kind == 3 then var x :- ParsePublish(flags, s); Success(PublishPacket(x))
    else if kind == 4 then var x :- ParseAck(|s|, s); Success(PubackPacket(x))
    else if kind == 5 then var x :- ParseAck(|s|, s); Success(PubrecPacket(x))
    else if kind == 6 then var x :- ParseAck(|s|, s); Success(PubrelPacket(x))
    else if kind == 7 then var x :- ParseAck(|s|, s); Success(PubcompPacket(x))
    else if kind == 8 then var x :- ParseSubscribe(s); Success(SubscribePacket(x))
    else if kind == 9 then var x :- ParseCodes(s); Success(SubackPacket(x))
    else if kind == 10 then var x :- ParseUnsubscribe(s); Success(UnsubscribePacket(x))
    else if kind == 11 then var x :- ParseCodes(s); Success(UnsubackPacket(x))
    else if kind == 14 then var x :- ParseDisconnect(s); Success(DisconnectPacket(x))
    else if kind == 12 then Success(PingreqPacket)
    else if kind == 13 then Success(PingrespPacket)
    else Failure(RuntimeError)
  }

  // ---------------------------------------------------------------- bodies, printed

  function PrintConnect(c: Connect): Result<bytes> {
    var properties :- PrintRecord(ConnectEntries(c.properties), c.properties.session.base);
    var will :- PrintWill(c);
    Success(PrintText(PROTOCOL_NAME) + BigEndian(c.version, 1) + BigEndian(c.flags, 1) + BigEndian(c.keepAlive, 2)
            + properties + PrintText(c.clientId) + will + PrintOptional(c.username) + PrintOptional(c.password))
  }

  /** The will is written when its flag is set. */
  function PrintWill(c: Connect): Result<bytes> {
    if HasBit(c.flags, WILL) then
      var properties :- PrintRecord(WillEntries(c.willProperties), c.willProperties.base);
      Success(properties + PrintText(c.willTopic) + PrintText(c.willPayload))
    else Success([])
  }

  /** User name and password are written when they are present, whatever the flags say. */
  function PrintOptional(t: Option<text>): bytes {
    if t.Some? then PrintText(t.value) else []
  }

  function PrintConnack(c: Connack): Result<bytes> {
    var properties :- PrintRecord(ConnackEntries(c.properties), c.properties.session.base);
    Success(BigEndian(c.flags, 1) + BigEndian(c.reasonCode, 1) + properties)
  }

  /** The identifier is written when it is not zero. */
  function PrintPublishBody(p: Publish): Result<bytes> {
    var properties :- PrintPublish(p.properties);
    Success(PrintText(p.topic) + PrintIdentifier(p.packetIdentifier) + properties + p.payload)
  }

  function PrintIdentifier(id: uint16): bytes {
    if id != 0 then BigEndian(id, 2) else []
  }

  /** Reason code and properties are left out together, without looking at the unknown properties. */
  predicate ShortAck(a: Ack) {
    a.reasonCode == 0 && a.properties.base.users == [] && a.properties.reasonString == []
  }

  function PrintAck(a: Ack): Result<bytes> {
    if ShortAck(a) then Success(BigEndian(a.packetIdentifier, 2))
    else
      var properties :- PrintRecord(ReasonEntries(a.properties), a.properties.base);
      Success(BigEndian(a.packetIdentifier, 2) + BigEndian(a.reasonCode, 1) + properties)
  }

  function PrintTopics(ts: seq<Subscription>): bytes {
    if ts == [] then []
    else PrintTopics(ts[..|ts| - 1]) + PrintText(ts[|ts| - 1].topic) + BigEndian(ts[|ts| - 1].options, 1)
  }

  function PrintSubscribeBody(s: Subscribe): Result<bytes> {
    var properties :- PrintSubscribe(s.properties);
    Success(BigEndian(s.packetIdentifier, 2) + properties + PrintTopics(s.topics))
  }

  function PrintTexts(ts: seq<text>): bytes {
    if ts == [] then [] else PrintTexts(ts[..|ts| - 1]) + PrintText(ts[|ts| - 1])
  }

  function PrintUnsubscribeBody(u: Unsubscribe): Result<bytes> {
    var properties :- PrintRecord([], u.properties.base);
    Success(BigEndian(u.packetIdentifier, 2) + properties + PrintTexts(u.topics))
  }

  function PrintCodes(c: Codes): Result<bytes> {
    var properties :- PrintRecord(ReasonEntries(c.properties), c.properties.base);
    Success(BigEndian(c.packetIdentifier, 2) + properties + c.reasonCodes)
  }

  function PrintDisconnect(d: Disconnect): Result<bytes> {
    if d.reason == 0 && d.properties == NO_DISCONNECT then Success([])
    else
      var properties :- PrintRecord(DisconnectEntries(d.properties), d.properties.base);
      Success(BigEndian(d.reason, 1) + properties)
  }

  function PrintBody(p: Packet): Result<bytes> {
    match p
    case ConnectPacket(x) => PrintConnect(x)
    case ConnackPacket(x) => PrintConnack(x)
    case PublishPacket(x) => PrintPublishBody(x)
    case PubackPacket(x) => PrintAck(x)
    case PubrecPacket(x) => PrintAck(x)
    case PubrelPacket(x) => PrintAck(x)
    case PubcompPacket(x) => PrintAck(x)
    case SubscribePacket(x) => PrintSubscribeBody(x)
    case SubackPacket(x) => PrintCodes(x)
    case UnsubscribePacket(x) => PrintUnsubscribeBody(x)
    case UnsubackPacket(x) => PrintCodes(x)
    case DisconnectPacket(x) => PrintDisconnect(x)
    case PingreqPacket => Success([])
    case PingrespPacket => Success([])
  }

  /** The fixed header carries the body length from a 32-bit counter. */
  function Print(p: Packet): Result<bytes> {
    var body :- PrintBody(p);
    var n :- VarInt.Print(Low32(|body|));
    Success([p.Type() * 16 + p.HeaderFlags()] + n + body)
  }

  // ---------------------------------------------------------------- the code, reading

  method DeserializeConnect(c: Cursor) returns (r: Result<Connect>)
    modifies c
    ensures r == ParseConnect(old(c.data))
  {
    var name :- DeserializeText(c);
    if name != PROTOCOL_NAME {
      return Failure(ProtocolError);
    }
    var version :- DeserializeByte(c);
    var flags :- DeserializeByte(c);
    var keepAlive :- DeserializeShort(c);
    var properties :- DeserializeRecord(HandleConnect, NO_CONNECT, c);
    var clientId :- DeserializeText(c);
    var will :- DeserializeWill(flags, c);
    var username, password := None, None;
    if HasBit(flags, USERNAME) {
      var name :- DeserializeText(c);
      username := Some(name);
    }
    if HasBit(flags, PASSWORD) {
      var word :- DeserializeBinary(c);
      password := Some(word);
    }
    return Success(Connect(version, flags, keepAlive, properties, clientId,
                           will.0, will.1, will.2, username, password));
  }

  method DeserializeWill(flags: byte, c: Cursor) returns (r: Result<(WillProperties, text, bytes)>)
    modifies c
    ensures Parsed(r, c.data, ParseWill(flags, old(c.data)))
  {
    if !HasBit(flags, WILL) {
      return Success((NO_WILL, [], []));
    }
    var properties :- DeserializeRecord(HandleWill, NO_WILL, c);
    var topic :- DeserializeText(c);
    var payload :- DeserializeBinary(c);
    return Success((properties, topic, payload));
  }

  method DeserializeConnack(c: Cursor) returns (r: Result<Connack>)
    modifies c
    ensures r == ParseConnack(old(c.data))
  {
    var flags :- DeserializeByte(c);
    var code :- DeserializeByte(c);
    var properties :- DeserializeRecord(HandleConnack, NO_CONNACK, c);
    return Success(Connack(flags, code, properties));
  }

  method DeserializePublish(flags: nibble, c: Cursor) returns (r: Result<Publish>)
    modifies c
    ensures r == ParsePublish(flags, old(c.data))
  {
    var topic :- DeserializeText(c);
    var id := 0;
    if flags / 2 % 4 != 0 {
      id :- DeserializeShort(c);
    }
    var properties :- DeserializeRecord(HandlePublish, NO_PUBLISH, c);
    return Success(Publish(flags, topic, id, properties, c.data));
  }

  method DeserializeAck(remaining: nat, c: Cursor) returns (r: Result<Ack>)
    modifies c
    ensures r == ParseAck(remaining, old(c.data))
  {
    var id :- DeserializeShort(c);
    var code: byte := 0;
    if remaining > 2 {
      code :- DeserializeByte(c);
    }
    var properties := NO_REASON;
    if remaining >= 4 {
      properties :- DeserializeRecord(HandleReason, NO_REASON, c);
    }
    return Success(Ack(id, code, properties));
  }

  /** Puts what the loop has collected in front of what is still to be parsed. */
  function Prepend<T>(xs: seq<T>, r: Result<seq<T>>): (p: Result<seq<T>>)
    ensures xs == [] ==> p == r
  {
    if r.Success? then
      assert [] + r.value == r.value;
      Success(xs + r.value)
    else r
  }

  lemma PrependOne<T>(xs: seq<T>, x: T, r: Result<seq<T>>)
    ensures Prepend(xs, Prepend([x], r)) == Prepend(xs + [x], r)
  {
    if r.Success? {
      Assoc(xs, [x], r.value);
    }
  }

  method DeserializeSubscribe(c: Cursor) returns (r: Result<Subscribe>)
    modifies c
    ensures r == ParseSubscribe(old(c.data))
  {
    var id :- DeserializeShort(c);
    var properties :- DeserializeRecord(HandleSubscribe, NO_SUBSCRIBE, c);
    ghost var body := c.data;
    var topics: seq<Subscription> := [];
    while c.data != []
      invariant Prepend(topics, ParseTopics(c.data)) == ParseTopics(body)
      decreases |c.data|
    {
      ghost var before := c.data;
      var topic :- DeserializeText(c);
      var options :- DeserializeByte(c);
      assert ParseTopics(before) == Prepend([Subscription(topic, options)], ParseTopics(c.data));
      PrependOne(topics, Subscription(topic, options), ParseTopics(c.data));
      topics := topics + [Subscription(topic, options)];
    }
    assert topics + [] == topics;
    return Success(Subscribe(id, properties, topics));
  }

  method DeserializeUnsubscribe(c: Cursor) returns (r: Result<Unsubscribe>)
    modifies c
    ensures r == ParseUnsubscribe(old(c.data))
  {
    var id :- DeserializeShort(c);
    var properties :- DeserializeRecord(HandleUnsubscribe, NO_UNSUBSCRIBE, c);
    ghost var body := c.data;
    var topics: seq<text> := [];
    while c.data != []
      invariant Prepend(topics, ParseTexts(c.data)) == ParseTexts(body)
      decreases |c.data|
    {
      ghost var before := c.data;
      var topic :- DeserializeText(c);
      assert ParseTexts(before) == Prepend([topic], ParseTexts(c.data));
      PrependOne(topics, topic, ParseTexts(c.data));
      topics := topics + [topic];
    }
    assert topics + [] == topics;
    return Success(Unsubscribe(id, properties, topics));
  }

  method DeserializeCodes(c: Cursor) returns (r: Result<Codes>)
    modifies c
    ensures r == ParseCodes(old(c.data))
  {
    var id :- DeserializeShort(c);
    var properties :- DeserializeRecord(HandleReason, NO_REASON, c);
    return Success(Codes(id, properties, c.data));
  }

  method DeserializeDisconnect(c: Cursor) returns (r: Result<Disconnect>)
    modifies c
    ensures r == ParseDisconnect(old(c.data))
  {
    if c.data == [] {
      return Success(Disconnect(0, NO_DISCONNECT));
    }
    var reason :- DeserializeByte(c);
    var properties := NO_DISCONNECT;
    if |c.data| > 1 {
      properties :- DeserializeRecord(HandleDisconnect, NO_DISCONNECT, c);
    }
    return Success(Disconnect(reason, properties));
  }

  method DeserializeBody(header: byte, span: bytes) returns (r: Result<Packet>)
    ensures r == ParseBody(header, span)
  {
    var c := new Cursor(span);
    var kind := header / 16;
    if kind == 1 {
      var x :- DeserializeConnect(c);
      return Success(ConnectPacket(x));
    } else if kind == 2 {
      var x :- DeserializeConnack(c);
      return Success(ConnackPacket(x));
    } else if kind == 3 {
      var x :- DeserializePublish(header % 16, c);
      return Success(PublishPacket(x));
    } else if 4 <= kind <= 7 {
      var x :- DeserializeAck(|span|, c);
      return Success(if kind == 4 then PubackPacket(x) else if kind == 5 then PubrecPacket(x)
                     else if kind == 6 then PubrelPacket(x) else PubcompPacket(x));
    } else if kind == 8 {
      var x :- DeserializeSubscribe(c);
      return Success(SubscribePacket(x));
    } else if kind == 9 {
      var x :- DeserializeCodes(c);
      return Success(SubackPacket(x));
    } else if kind == 10 {
      var x :- DeserializeUnsubscribe(c);
      return Success(UnsubscribePacket(x));
    } else if kind == 11 {
      var x :- DeserializeCodes(c);
      return Success(UnsubackPacket(x));
    } else if kind == 14 {
      var x :- DeserializeDisconnect(c);
      return Success(DisconnectPacket(x));
    } else if kind == 12 {
      return Success(PingreqPacket);
    } else if kind == 13 {
      return Success(PingrespPacket);
    }
    return Failure(RuntimeError);
  }

  // ---------------------------------------------------------------- the code, writing

  method SerializeOptional(t: Option<text>, w: Sink)
    requires w.Valid()
    modifies w
    ensures w.Valid() && w.written == old(w.written) + PrintOptional(t)
  {
    if t.Some? {
      SerializeText(t.value, w);
    }
  }

  method SerializeConnect(c: Connect, w: Sink) returns (r: Outcome)
    requires w.Valid()
    modifies w
    ensures w.Valid() && Printed(r, old(w.written), w.written, PrintConnect(c))
  {
    ghost var start, done := w.written, PrintText(PROTOCOL_NAME);
    SerializeText(PROTOCOL_NAME, w);
    SerializeFixed(c.version, 1, w);
    done := Extend(start, done, BigEndian(c.version, 1));
    SerializeFixed(c.flags, 1, w);
    done := Extend(start, done, BigEndian(c.flags, 1));
    SerializeFixed(c.keepAlive, 2, w);
    done := Extend(start, done, BigEndian(c.keepAlive, 2));
    :- SerializeRecord(ConnectEntries(c.properties), c.properties.session.base, w);
    done := Extend(start, done, PrintRecord(ConnectEntries(c.properties), c.properties.session.base).value);
    SerializeText(c.clientId, w);
    done := Extend(start, done, PrintText(c.clientId));
    :- SerializeWill(c, w);
    done := Extend(start, done, PrintWill(c).value);
    SerializeOptional(c.username, w);
    done := Extend(start, done, PrintOptional(c.username));
    SerializeOptional(c.password, w);
    done := Extend(start, done, PrintOptional(c.password));
    return Pass;
  }

  method SerializeWill(c: Connect, w: Sink) returns (r: Outcome)
    requires w.Valid()
    modifies w
    ensures w.Valid() && Printed(r, old(w.written), w.written, PrintWill(c))
  {
    if HasBit(c.flags, WILL) {
      :- SerializeRecord(WillEntries(c.willProperties), c.willProperties.base, w);
      ghost var done := PrintRecord(WillEntries(c.willProperties), c.willProperties.base).value;
      SerializeText(c.willTopic, w);
      done := Extend(old(w.written), done, PrintText(c.willTopic));
      SerializeText(c.willPayload, w);
      done := Extend(old(w.written), done, PrintText(c.willPayload));
    }
    return Pass;
  }

  method SerializeConnack(c: Connack, w: Sink) returns (r: Outcome)
    requires w.Valid()
    modifies w
    ensures w.Valid() && Printed(r, old(w.written), w.written, PrintConnack(c))
  {
    ghost var done := BigEndian(c.flags, 1);
    SerializeFixed(c.flags, 1, w);
    SerializeFixed(c.reasonCode, 1, w);
    done := Extend(old(w.written), done, BigEndian(c.reasonCode, 1));
    :- SerializeRecord(ConnackEntries(c.properties), c.properties.session.base, w);
    done := Extend(old(w.written), done, PrintRecord(ConnackEntries(c.properties), c.properties.session.base).value);
    return Pass;
  }

  method SerializePublishBody(p: Publish, w: Sink) returns (r: Outcome)
    requires w.Valid()
    modifies w
    ensures w.Valid() && Printed(r, old(w.written), w.written, PrintPublishBody(p))
  {
    ghost var done := PrintText(p.topic);
    SerializeText(p.topic, w);
    ghost var named := w.written;
    if p.packetIdentifier != 0 {
      SerializeFixed(p.packetIdentifier, 2, w);
    }
    assert w.written == named + PrintIdentifier(p.packetIdentifier);
    done := Extend(old(w.written), done, PrintIdentifier(p.packetIdentifier));
    :- SerializePublish(p.properties, w);
    done := Extend(old(w.written), done, PrintPublish(p.properties).value);
    w.PutAll(p.payload);
    done := Extend(old(w.written), done, p.payload);
    return Pass;
  }

  method SerializeAck(a: Ack, w: Sink) returns (r: Outcome)
    requires w.Valid()
    modifies w
    ensures w.Valid() && Printed(r, old(w.written), w.written, PrintAck(a))
  {
    ghost var done := BigEndian(a.packetIdentifier, 2);
    SerializeFixed(a.packetIdentifier, 2, w);
    var hasProperties := a.properties.base.users != [] || a.properties.reasonString != [];
    if a.reasonCode != 0 || hasProperties {
      SerializeFixed(a.reasonCode, 1, w);
      done := Extend(old(w.written), done, BigEndian(a.reasonCode, 1));
      :- SerializeRecord(ReasonEntries(a.properties), a.properties.base, w);
      done := Extend(old(w.written), done, PrintRecord(ReasonEntries(a.properties), a.properties.base).value);
    }
    return Pass;
  }

  method SerializeTopics(ts: seq<Subscription>, w: Sink)
    requires w.Valid()
    modifies w
    ensures w.Valid() && w.written == old(w.written) + PrintTopics(ts)
  {
    for i := 0 to |ts|
      invariant w.Valid() && w.written == old(w.written) + PrintTopics(ts[..i])
    {
      assert ts[..i + 1][..i] == ts[..i];
      ghost var done := PrintTopics(ts[..i]);
      SerializeText(ts[i].topic, w);
      done := Extend(old(w.written), done, PrintText(ts[i].topic));
      SerializeFixed(ts[i].options, 1, w);
      done := Extend(old(w.written), done, BigEndian(ts[i].options, 1));
    }
    assert ts[..|ts|] == ts;
  }

  method SerializeSubscribeBody(s: Subscribe, w: Sink) returns (r: Outcome)
    requires w.Valid()
    modifies w
    ensures w.Valid() && Printed(r, old(w.written), w.written, PrintSubscribeBody(s))
  {
    ghost var done := BigEndian(s.packetIdentifier, 2);
    SerializeFixed(s.packetIdentifier, 2, w);
    :- SerializeSubscribe(s.properties, w);
    done := Extend(old(w.written), done, PrintSubscribe(s.properties).value);
    SerializeTopics(s.topics, w);
    done := Extend(old(w.written), done, PrintTopics(s.topics));
    return Pass;
  }

  method SerializeTexts(ts: seq<text>, w: Sink)
    requires w.Valid()
    modifies w
    ensures w.Valid() && w.written == old(w.written) + PrintTexts(ts)
  {
    for i := 0 to |ts|
      invariant w.Valid() && w.written == old(w.written) + PrintTexts(ts[..i])
    {
      assert ts[..i + 1][..i] == ts[..i];
      SerializeText(ts[i], w);
      ghost var done := Extend(old(w.written), PrintTexts(ts[..i]), PrintText(ts[i]));
    }
    assert ts[..|ts|] == ts;
  }

  method SerializeUnsubscribeBody(u: Unsubscribe, w: Sink) returns (r: Outcome)
    requires w.Valid()
    modifies w
    ensures w.Valid() && Printed(r, old(w.written), w.written, PrintUnsubscribeBody(u))
  {
    ghost var done := BigEndian(u.packetIdentifier, 2);
    SerializeFixed(u.packetIdentifier, 2, w);
    :- SerializeRecord([], u.properties.base, w);
    done := Extend(old(w.written), done, PrintRecord([], u.properties.base).value);
    SerializeTexts(u.topics, w);
    done := Extend(old(w.written), done, PrintTexts(u.topics));
    return Pass;
  }

  method SerializeCodes(c: Codes, w: Sink) returns (r: Outcome)
    requires w.Valid()
    modifies w
    ensures w.Valid() && Printed(r, old(w.written), w.written, PrintCodes(c))
  {
    ghost var done := BigEndian(c.packetIdentifier, 2);
    SerializeFixed(c.packetIdentifier, 2, w);
    :- SerializeRecord(ReasonEntries(c.properties), c.properties.base, w);
    done := Extend(old(w.written), done, PrintRecord(ReasonEntries(c.properties), c.properties.base).value);
    w.PutAll(c.reasonCodes);
    done := Extend(old(w.written), done, c.reasonCodes);
    return Pass;
  }

  method SerializeDisconnect(d: Disconnect, w: Sink) returns (r: Outcome)
    requires w.Valid()
    modifies w
    ensures w.Valid() && Printed(r, old(w.written), w.written, PrintDisconnect(d))
  {
    if d.reason == 0 && d.properties == NO_DISCONNECT {
      return Pass;
    }
    SerializeFixed(d.reason, 1, w);
    :- SerializeRecord(DisconnectEntries(d.properties), d.properties.base, w);
    Assoc(old(w.written), BigEndian(d.reason, 1),
        PrintRecord(DisconnectEntries(d.properties), d.properties.base).value);
    return Pass;
  }

  method SerializeBody(p: Packet, w: Sink) returns (r: Outcome)
    requires w.Valid()
    modifies w
    ensures w.Valid() && Printed(r, old(w.written), w.written, PrintBody(p))
  {
    match p
    case ConnectPacket(x) => r := SerializeConnect(x, w);
    case ConnackPacket(x) => r := SerializeConnack(x, w);
    case PublishPacket(x) => r := SerializePublishBody(x, w);
    case PubackPacket(x) => r := SerializeAck(x, w);
    case PubrecPacket(x) => r := SerializeAck(x, w);
    case PubrelPacket(x) => r := SerializeAck(x, w);
    case PubcompPacket(x) => r := SerializeAck(x, w);
    case SubscribePacket(x) => r := SerializeSubscribeBody(x, w);
    case SubackPacket(x) => r := SerializeCodes(x, w);
    case UnsubscribePacket(x) => r := SerializeUnsubscribeBody(x, w);
    case UnsubackPacket(x) => r := SerializeCodes(x, w);
    case DisconnectPacket(x) => r := SerializeDisconnect(x, w);
    case PingreqPacket => r := Pass;
    case PingrespPacket => r := Pass;
  }

  /** Counts the body through a counting sink, writes the header, then the body again. */
  method Serialize(p: Packet, w: Sink) returns (r: Outcome)
    requires w.Valid()
    modifies w
    ensures w.Valid() && Printed(r, old(w.written), w.written, Print(p))
  {
    hide PrintConnect, PrintConnack, PrintPublishBody, PrintAck, PrintSubscribeBody, PrintCodes, PrintUnsubscribeBody,
         PrintDisconnect;
    if p.PingreqPacket? || p.PingrespPacket? {
      w.Put(p.Type() * 16);
      w.Put(0);
      return Pass;
    }
    var counter := new Sink(true);
    :- SerializeBody(p, counter);
    assert counter.written == PrintBody(p).value;
    w.Put(p.Type() * 16 + p.HeaderFlags());
    ghost var done := [p.Type() * 16 + p.HeaderFlags()];
    :- VarInt.Serialize(counter.count, w);
    done := Extend(old(w.written), done, VarInt.Print(counter.count).value);
    r := SerializeBody(p, w);
    done := Extend(old(w.written), done, PrintBody(p).value);
  }
}
