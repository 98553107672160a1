/** The typed property records, as they pass through the generic property list: only non-default
    fields are written, and each parsed property is dispatched on its identifier. */
module Records {
  import opened Bytes
  import opened Primitives
  import opened Properties

  const PAYLOAD_FORMAT_INDICATOR := 1
  const MESSAGE_EXPIRY_INTERVAL := 2
  const CONTENT_TYPE := 3
  const RESPONSE_TOPIC := 8
  const CORRELATION_DATA := 9
  const SUBSCRIPTION_IDENTIFIER := 11
  const SESSION_EXPIRY_INTERVAL := 17
  const ASSIGNED_CLIENT_ID := 18
  const SERVER_KEEP_ALIVE := 19
  const AUTHENTICATION_METHOD := 21
  const AUTHENTICATION_DATA := 22
  const REQUEST_PROBLEM_INFORMATION := 23
  const WILL_DELAY_INTERVAL := 24
  const REQUEST_RESPONSE_INFORMATION := 25
  const RESPONSE_INFORMATION := 26
  const SERVER_REFERENCE := 28
  const REASON_STRING := 31
  const RECEIVE_MAXIMUM := 33
  const TOPIC_ALIAS_MAXIMUM := 34
  const TOPIC_ALIAS := 35
  const MAXIMUM_QOS := 36
  const RETAIN_AVAILABLE := 37
  const MAXIMUM_PACKET_SIZE := 39
  const WILDCARD_SUBSCRIPTIONS_AVAILABLE := 40
  const SUBSCRIPTION_IDENTIFIERS_AVAILABLE := 41
  const SHARED_SUBSCRIPTION_AVAILABLE := 42

  // ---------------------------------------------------------------- the records

  /** `properties_t_base`: what every record shares. */
  datatype Base = Base(users: seq<KeyValue>, unknown: seq<Property>)

  const NO_BASE := Base([], [])

  datatype SessionProperties = SessionProperties(
    base: Base, authenticationMethod: text, authenticationData: bytes, sessionExpiry: uint32,
    maximumPacketSize: uint32, topicAliasMaximum: uint16, receiveMaximum: uint16)

  datatype ConnectProperties = ConnectProperties(
    session: SessionProperties, requestResponse: bool, requestProblem: bool)

  datatype ConnackProperties = ConnackProperties(
    session: SessionProperties, assignedClientId: text, reasonString: text, responseInformation: text,
    serverReference: text, serverKeepAlive: uint16, maximumQos: byte, retain: bool, wildcards: bool,
    subscriptionIdentifiers: bool, sharedSubscriptions: bool)

  datatype WillProperties = WillProperties(
    base: Base, contentType: text, responseTopic: text, correlationData: bytes, delay: uint32,
    expiry: uint32, payloadFormat: byte)

  datatype PublishProperties = PublishProperties(
    base: Base, responseTopic: text, contentType: text, correlationData: bytes,
    subscriptionIdentifier: uint32, expiry: uint32, topicAlias: uint16, payloadFormat: byte)

  datatype ReasonProperties = ReasonProperties(base: Base, reasonString: text)

  datatype SubscribeProperties = SubscribeProperties(base: Base, subscriptionIdentifier: uint32)

  datatype UnsubscribeProperties = UnsubscribeProperties(base: Base)

  datatype DisconnectProperties = DisconnectProperties(
    base: Base, sessionExpiry: uint32, reasonString: text, serverReference: text)

  const NO_SESSION := SessionProperties(NO_BASE, [], [], 0, 0xFFFF_FFFF, 0, 0xFFFF)
  const NO_CONNECT := ConnectProperties(NO_SESSION, false, false)
  const NO_CONNACK := ConnackProperties(NO_SESSION, [], [], [], [], 0, 2, true, true, true, true)
  const NO_WILL := WillProperties(NO_BASE, [], [], [], 0, 0, 0)
  const NO_PUBLISH := PublishProperties(NO_BASE, [], [], [], 0, 0, 0, 0)
  const NO_REASON := ReasonProperties(NO_BASE, [])
  const NO_SUBSCRIBE := SubscribeProperties(NO_BASE, 0)
  const NO_UNSUBSCRIBE := UnsubscribeProperties(NO_BASE)
  const NO_DISCONNECT := DisconnectProperties(NO_BASE, 0, [], [])

  // ---------------------------------------------------------------- dispatch on the identifier

  function AsByte(v: Value): Result<byte> {
    var x :- AsNumber(v);
    Success(x % 256)
  }

  function AsShort(v: Value): Result<uint16> {
    var x :- AsNumber(v);
    Success(Low16(x))
  }

  function AsFlag(v: Value): Result<bool> {
    var x :- AsByte(v);
    Success(x != 0)
  }

  function HandleBase(b: Base, p: Property): Result<Base> {
    if p.identifier == USER_PROPERTY then
      var kv :- AsPair(p.value);
      Success(b.(users := b.users + [kv]))
    else Success(b.(unknown := b.unknown + [p]))
  }

  function HandleSession(r: SessionProperties, p: Property): Result<SessionProperties> {
    if p.identifier == AUTHENTICATION_METHOD then
      var x :- AsText(p.value); Success(r.(authenticationMethod := x))
    else if p.identifier == AUTHENTICATION_DATA then
      var x :- AsBlob(p.value); Success(r.(authenticationData := x))
    else if p.identifier == SESSION_EXPIRY_INTERVAL then
      var x :- AsNumber(p.value); Success(r.(sessionExpiry := x))
    else if p.identifier == MAXIMUM_PACKET_SIZE then
      var x :- AsNumber(p.value); Success(r.(maximumPacketSize := x))
    else if p.identifier == TOPIC_ALIAS_MAXIMUM then
      var x :- AsShort(p.value); Success(r.(topicAliasMaximum := x))
    else if p.identifier == RECEIVE_MAXIMUM then
      var x :- AsShort(p.value); Success(r.(receiveMaximum := x))
    else
      var b :- HandleBase(r.base, p); Success(r.(base := b))
  }

  function HandleConnect(r: ConnectProperties, p: Property): Result<ConnectProperties> {
    if p.identifier == REQUEST_RESPONSE_INFORMATION then
      var x :- AsFlag(p.value); Success(r.(requestResponse := x))
    else if p.identifier == REQUEST_PROBLEM_INFORMATION then
      var x :- AsFlag(p.value); Success(r.(requestProblem := x))
    else
      var s :- HandleSession(r.session, p); Success(r.(session := s))
  }

  function HandleConnack(r: ConnackProperties, p: Property): Result<ConnackProperties> {
    if p.identifier == MAXIMUM_QOS then
      var x :- AsByte(p.value); Success(r.(maximumQos := x))
    else if p.identifier == RETAIN_AVAILABLE then
      var x :- AsFlag(p.value); Success(r.(retain := x))
    else if p.identifier == ASSIGNED_CLIENT_ID then
      var x :- AsText(p.value); Success(r.(assignedClientId := x))
    else if p.identifier == REASON_STRING then
      var x :- AsText(p.value); Success(r.(reasonString := x))
    else if p.identifier == WILDCARD_SUBSCRIPTIONS_AVAILABLE then
      var x :- AsFlag(p.value); Success(r.(wildcards := x))
    else if p.identifier == SUBSCRIPTION_IDENTIFIERS_AVAILABLE then
      var x :- AsFlag(p.value); Success(r.(subscriptionIdentifiers := x))
    else if p.identifier == SHARED_SUBSCRIPTION_AVAILABLE then
      var x :- AsFlag(p.value); Success(r.(sharedSubscriptions := x))
    else if p.identifier == SERVER_KEEP_ALIVE then
      var x :- AsShort(p.value); Success(r.(serverKeepAlive := x))
    else if p.identifier == RESPONSE_INFORMATION then
      var x :- AsText(p.value); Success(r.(responseInformation := x))
    else if p.identifier == SERVER_REFERENCE then
      var x :- AsText(p.value); Success(r.(serverReference := x))
    else
      var s :- HandleSession(r.session, p); Success(r.(session := s))
  }

  function HandleWill(r: WillProperties, p: Property): Result<WillProperties> {
    if p.identifier == CONTENT_TYPE then
      var x :- AsText(p.value); Success(r.(contentType := x))
    else if p.identifier == RESPONSE_TOPIC then
      var x :- AsText(p.value); Success(r.(responseTopic := x))
    else if p.identifier == CORRELATION_DATA then
      var x :- AsBlob(p.value); Success(r.(correlationData := x))
    else if p.identifier == WILL_DELAY_INTERVAL then
      var x :- AsNumber(p.value); Success(r.(delay := x))
    else if p.identifier == MESSAGE_EXPIRY_INTERVAL then
      var x :- AsNumber(p.value); Success(r.(expiry := x))
    else if p.identifier == PAYLOAD_FORMAT_INDICATOR then
      var x :- AsByte(p.value); Success(r.(payloadFormat := x))
    else
      var b :- HandleBase(r.base, p); Success(r.(base := b))
  }

  /** The expiry interval is read back through a 16-bit conversion, and the subscription identifier
      as a number although its stored alternative is binary. */
  function HandlePublish(r: PublishProperties, p: Property): Result<PublishProperties> {
    if p.identifier == RESPONSE_TOPIC then
      var x :- AsText(p.value); Success(r.(responseTopic := x))
    else if p.identifier == CONTENT_TYPE then
      var x :- AsText(p.value); Success(r.(contentType := x))
    else if p.identifier == CORRELATION_DATA then
      var x :- AsBlob(p.value); Success(r.(correlationData := x))
    else if p.identifier == SUBSCRIPTION_IDENTIFIER then
      var x :- AsNumber(p.value); Success(r.(subscriptionIdentifier := x))
    else if p.identifier == MESSAGE_EXPIRY_INTERVAL then
      var x :- AsShort(p.value); Success(r.(expiry := x))
    else if p.identifier == TOPIC_ALIAS then
      var x :- AsShort(p.value); Success(r.(topicAlias := x))
    else if p.identifier == PAYLOAD_FORMAT_INDICATOR then
      var x :- AsByte(p.value); Success(r.(payloadFormat := x))
    else
      var b :- HandleBase(r.base, p); Success(r.(base := b))
  }

  function HandleReason(r: ReasonProperties, p: Property): Result<ReasonProperties> {
    if p.identifier == REASON_STRING then
      var x :- AsText(p.value); Success(r.(reasonString := x))
    else
      var b :- HandleBase(r.base, p); Success(r.(base := b))
  }

  function HandleSubscribe(r: SubscribeProperties, p: Property): Result<SubscribeProperties> {
    if p.identifier == SUBSCRIPTION_IDENTIFIER then
      var x :- AsNumber(p.value); Success(r.(subscriptionIdentifier := x))
    else
      var b :- HandleBase(r.base, p); Success(r.(base := b))
  }

  function HandleUnsubscribe(r: UnsubscribeProperties, p: Property): Result<UnsubscribeProperties> {
    var b :- HandleBase(r.base, p); Success(r.(base := b))
  }

  function HandleDisconnect(r: DisconnectProperties, p: Property): Result<DisconnectProperties> {
    if p.identifier == SESSION_EXPIRY_INTERVAL then
      var x :- AsNumber(p.value); Success(r.(sessionExpiry := x))
    else if p.identifier == REASON_STRING then
      var x :- AsText(p.value); Success(r.(reasonString := x))
    else if p.identifier == SERVER_REFERENCE then
      var x :- AsText(p.value); Success(r.(serverReference := x))
    else
      var b :- HandleBase(r.base, p); Success(r.(base := b))
  }

  type Handler<!R> = (R, Property) -> Result<R>

  function Fold<R>(h: Handler<R>, r: R, ps: seq<Property>): Result<R>
    decreases ps
  {
    if ps == [] then Success(r)
    else
      var r' :- h(r, ps[0]);
      Fold(h, r', ps[1..])
  }

  /** Reads a property list and dispatches every property into the record. */
  function ParseRecord<R>(h: Handler<R>, start: R, s: bytes): Result<(R, bytes)> {
    var (ps, rest) :- Parse(s);
    var r :- Fold(h, start, ps);
    Success((r, rest))
  }

  method DeserializeRecord<R(!new)>(h: Handler<R>, start: R, c: Cursor) returns (r: Result<R>)
    modifies c
    ensures Parsed(r, c.data, ParseRecord(h, start, old(c.data)))
  {
    var ps :- Properties.Deserialize(c);
    var record := start;
    for i := 0 to |ps|
      invariant Fold(h, record, ps[i..]) == Fold(h, start, ps)
    {
      assert ps[i..][1..] == ps[i + 1..];
      record :- h(record, ps[i]);
    }
    return Success(record);
  }

  // ---------------------------------------------------------------- writing the non-default fields

  /** One conditional `add_property`. */
  datatype Entry = Entry(present: bool, property: Property)

  function Present(es: seq<Entry>): seq<Property> {
    if es == [] then [] else (if es[0].present then [es[0].property] else []) + Present(es[1..])
  }

  function Users(kvs: seq<KeyValue>): seq<Property> {
    seq(|kvs|, i requires 0 <= i < |kvs| => Property(USER_PROPERTY, Pair(kvs[i])))
  }

  function SessionEntries(r: SessionProperties): seq<Entry> {
    [Entry(r.authenticationMethod != [], Property(AUTHENTICATION_METHOD, Text(r.authenticationMethod))),
     Entry(r.authenticationMethod != [], Property(AUTHENTICATION_DATA, Blob(r.authenticationData))),
     Entry(r.sessionExpiry != 0, Property(SESSION_EXPIRY_INTERVAL, Word(r.sessionExpiry))),
     Entry(r.maximumPacketSize != 0xFFFF_FFFF, Property(MAXIMUM_PACKET_SIZE, Word(r.maximumPacketSize))),
     Entry(r.topicAliasMaximum != 0, Property(TOPIC_ALIAS_MAXIMUM, Short(r.topicAliasMaximum))),
     Entry(r.receiveMaximum != 0xFFFF, Property(RECEIVE_MAXIMUM, Short(r.receiveMaximum)))]
  }

  function Flag(id: uint32, value: bool): Property {
    Property(id, Byte(if value then 1 else 0))
  }

  function ConnectOwnEntries(r: ConnectProperties): seq<Entry> {
    [Entry(r.requestResponse, Flag(REQUEST_RESPONSE_INFORMATION, r.requestResponse)),
     Entry(r.requestProblem, Flag(REQUEST_PROBLEM_INFORMATION, r.requestProblem))]
  }

  function ConnectEntries(r: ConnectProperties): seq<Entry> {
    ConnectOwnEntries(r) + SessionEntries(r.session)
  }

  function ConnackEntriesA(r: ConnackProperties): seq<Entry> {
    [Entry(!r.retain, Flag(RETAIN_AVAILABLE, r.retain)),
     Entry(r.maximumQos != 2, Property(MAXIMUM_QOS, Byte(r.maximumQos))),
     Entry(r.assignedClientId != [], Property(ASSIGNED_CLIENT_ID, Text(r.assignedClientId))),
     Entry(r.reasonString != [], Property(REASON_STRING, Text(r.reasonString))),
     Entry(!r.wildcards, Flag(WILDCARD_SUBSCRIPTIONS_AVAILABLE, r.wildcards))]
  }

  function ConnackEntriesB(r: ConnackProperties): seq<Entry> {
    [Entry(!r.subscriptionIdentifiers, Flag(SUBSCRIPTION_IDENTIFIERS_AVAILABLE, r.subscriptionIdentifiers)),
     Entry(!r.sharedSubscriptions, Flag(SHARED_SUBSCRIPTION_AVAILABLE, r.sharedSubscriptions)),
     Entry(r.serverKeepAlive != 0, Property(SERVER_KEEP_ALIVE, Short(r.serverKeepAlive))),
     Entry(r.responseInformation != [], Property(RESPONSE_INFORMATION, Text(r.responseInformation))),
     Entry(r.serverReference != [], Property(SERVER_REFERENCE, Text(r.serverReference)))]
  }

  function ConnackEntries(r: ConnackProperties): seq<Entry> {
    (ConnackEntriesA(r) + ConnackEntriesB(r)) + SessionEntries(r.session)
  }

  function WillEntries(r: WillProperties): seq<Entry> {
    [Entry(r.contentType != [], Property(CONTENT_TYPE, Text(r.contentType))),
     Entry(r.correlationData != [], Property(CORRELATION_DATA, Blob(r.correlationData))),
     Entry(r.responseTopic != [], Property(RESPONSE_TOPIC, Text(r.responseTopic))),
     Entry(r.payloadFormat != 0, Property(PAYLOAD_FORMAT_INDICATOR, Byte(r.payloadFormat))),
     Entry(r.delay != 0, Property(WILL_DELAY_INTERVAL, Word(r.delay))),
     Entry(r.expiry != 0, Property(MESSAGE_EXPIRY_INTERVAL, Word(r.expiry)))]
  }

  /** Before the first copy of the user properties. */
  function PublishEntriesA(r: PublishProperties): seq<Entry> {
    [Entry(r.responseTopic != [], Property(RESPONSE_TOPIC, Text(r.responseTopic))),
     Entry(r.contentType != [], Property(CONTENT_TYPE, Text(r.contentType))),
     Entry(r.correlationData != [], Property(CORRELATION_DATA, Blob(r.correlationData)))]
  }

  /** After it. */
  function PublishEntriesB(r: PublishProperties): seq<Entry> {
    [Entry(r.expiry != 0, Property(MESSAGE_EXPIRY_INTERVAL, Word(r.expiry))),
     Entry(r.topicAlias != 0, Property(TOPIC_ALIAS, Short(r.topicAlias))),
     Entry(r.payloadFormat != 0, Property(PAYLOAD_FORMAT_INDICATOR, Byte(r.payloadFormat)))]
  }

  function ReasonEntries(r: ReasonProperties): seq<Entry> {
    [Entry(r.reasonString != [], Property(REASON_STRING, Text(r.reasonString)))]
  }

  function DisconnectEntries(r: DisconnectProperties): seq<Entry> {
    [Entry(r.sessionExpiry != 0, Property(SESSION_EXPIRY_INTERVAL, Word(r.sessionExpiry))),
     Entry(r.reasonString != [], Property(REASON_STRING, Text(r.reasonString))),
     Entry(r.serverReference != [], Property(SERVER_REFERENCE, Text(r.serverReference)))]
  }

  /** Everything a record adds, in order: its own fields, then `add_base_properties`. */
  function Added(es: seq<Entry>, b: Base): seq<Property> {
    Present(es) + (Users(b.users) + b.unknown)
  }

  function PrintRecord(es: seq<Entry>, b: Base): Result<bytes> {
    Print(AddAll([], Added(es, b)))
  }

  function PublishAdded(r: PublishProperties): seq<Property> {
    Present(PublishEntriesA(r)) + (Users(r.base.users) + Added(PublishEntriesB(r), r.base))
  }

  /** Adding a number under the subscription identifier, whose alternative is binary, throws. */
  function PrintPublish(r: PublishProperties): Result<bytes> {
    if r.subscriptionIdentifier != 0 then Failure(RuntimeError) else Print(AddAll([], PublishAdded(r)))
  }

  function PrintSubscribe(r: SubscribeProperties): Result<bytes> {
    if r.subscriptionIdentifier != 0 then Failure(RuntimeError) else PrintRecord([], r.base)
  }

  method AddSome(ps: seq<Property>, more: seq<Property>) returns (qs: seq<Property>)
    ensures qs == AddAll(ps, more)
  {
    qs := ps;
    for i := 0 to |more|
      invariant AddAll(qs, more[i..]) == AddAll(ps, more)
    {
      assert more[i..][1..] == more[i + 1..];
      qs := AddProperty(qs, more[i]);
    }
  }

  lemma {:induction false} AddAllConcat(ps: seq<Property>, a: seq<Property>, b: seq<Property>)
    ensures AddAll(ps, a + b) == AddAll(AddAll(ps, a), b)
    decreases a
  {
    if a == [] {
      assert a + b == b;
    } else {
      assert (a + b)[1..] == a[1..] + b;
      AddAllConcat(Add(ps, a[0]), a[1..], b);
    }
  }

  method AddPresent(ps: seq<Property>, es: seq<Entry>) returns (qs: seq<Property>)
    ensures qs == AddAll(ps, Present(es))
  {
    qs := ps;
    for i := 0 to |es|
      invariant AddAll(qs, Present(es[i..])) == AddAll(ps, Present(es))
    {
      assert es[i..][1..] == es[i + 1..];
      if es[i].present {
        var p := es[i].property;
        assert Present(es[i..]) == [p] + Present(es[i + 1..]);
        AddAllConcat(qs, [p], Present(es[i + 1..]));
        qs := AddProperty(qs, p);
      } else {
        assert Present(es[i..]) == Present(es[i + 1..]);
      }
    }
  }

  method SerializeRecord(es: seq<Entry>, b: Base, w: Sink) returns (r: Outcome)
    requires w.Valid()
    modifies w
    ensures w.Valid() && Printed(r, old(w.written), w.written, PrintRecord(es, b))
  {
    AddAllConcat([], Present(es), Users(b.users) + b.unknown);
    AddAllConcat(AddAll([], Present(es)), Users(b.users), b.unknown);
    var ps := AddPresent([], es);
    ps := AddSome(ps, Users(b.users));
    ps := AddSome(ps, b.unknown);
    r := Properties.Serialize(ps, w);
  }

  method SerializePublish(p: PublishProperties, w: Sink) returns (r: Outcome)
    requires w.Valid()
    modifies w
    ensures w.Valid() && Printed(r, old(w.written), w.written, PrintPublish(p))
  {
    var es, users, es', b := PublishEntriesA(p), Users(p.base.users), PublishEntriesB(p), p.base;
    AddAllConcat([], Present(es), users + Added(es', b));
    AddAllConcat(AddAll([], Present(es)), users, Added(es', b));
    var ps := AddPresent([], es);
    ps := AddSome(ps, users);
    if p.subscriptionIdentifier != 0 {
      return Fail(RuntimeError);
    }
    AddAllConcat(ps, Present(es'), users + b.unknown);
    AddAllConcat(AddAll(ps, Present(es')), users, b.unknown);
    ps := AddPresent(ps, es');
    ps := AddSome(ps, users);
    ps := AddSome(ps, b.unknown);
    r := Properties.Serialize(ps, w);
  }

  method SerializeSubscribe(p: SubscribeProperties, w: Sink) returns (r: Outcome)
    requires w.Valid()
    modifies w
    ensures w.Valid() && Printed(r, old(w.written), w.written, PrintSubscribe(p))
  {
    if p.subscriptionIdentifier != 0 {
      return Fail(RuntimeError);
    }
    r := SerializeRecord([], p.base, w);
  }
}
