/** The bytes of the typed property records (MQTT 5.0 section 2.2.2.2), for all their contents: the
    identifier and the width of every field as numbers, and what reading those bytes gives. */
module PropertyFormat {
  import opened Bytes
  import opened Primitives
  import opened Properties
  import opened Records
  import opened RecordRoundTrips
  import VarInt

  // ---------------------------------------------------------------- numbers and strings

  lemma OneByte(v: byte)
    ensures BigEndian(v, 1) == [v]
  {
  }

  lemma TwoBytes(v: uint16)
    ensures BigEndian(v, 2) == [v / 256, v % 256]
  {
    assert BigEndian(v / 256, 1) == [v / 256];
  }

  lemma FourBytes(v: uint32)
    ensures BigEndian(v, 4) == [v / 0x100_0000, v / 0x1_0000 % 256, v / 256 % 256, v % 256]
  {
    TwoBytes(v / 0x1_0000);
    assert v / 256 / 256 == v / 0x1_0000 && v / 0x1_0000 / 256 == v / 0x100_0000;
    assert BigEndian(v / 256, 3) == BigEndian(v / 256 / 256, 2) + [v / 256 % 256];
    assert BigEndian(v, 4) == BigEndian(v / 256, 3) + [v % 256];
  }

  lemma OneByteLength(n: nat)
    requires n < 128
    ensures VarInt.Encode(n) == [n]
  {
  }

  /** A string behind the low 16 bits of its length, most significant byte first. */
  function TextBytes(t: text): bytes {
    [|t| / 256 % 256, |t| % 256] + t
  }

  lemma TextFormat(t: text)
    ensures PrintText(t) == TextBytes(t)
  {
    var n := |t|;
    TwoBytes(Low16(n));
    assert n == n / 0x1_0000 * 0x1_0000 + n % 0x1_0000;
    assert n % 0x1_0000 / 256 == n / 256 % 256 && n % 0x1_0000 % 256 == n % 256;
  }

  // ---------------------------------------------------------------- one property

  /** A number or a string behind its identifier. */
  function ByteField(id: byte, v: byte): bytes { [id, v] }

  function ShortField(id: byte, v: uint16): bytes { [id, v / 256, v % 256] }

  function WordField(id: byte, v: uint32): bytes {
    [id, v / 0x100_0000, v / 0x1_0000 % 256, v / 256 % 256, v % 256]
  }

  function TextField(id: byte, t: text): bytes { [id] + TextBytes(t) }

  function PairField(id: byte, kv: KeyValue): bytes { [id] + TextBytes(kv.key) + TextBytes(kv.value) }

  function When(c: bool, b: bytes): bytes { if c then b else [] }

  lemma FieldFormat(id: byte, v: Value, b: bytes)
    requires id < 128
    requires match v
             case Byte(x) => b == ByteField(id, x)
             case Short(x) => b == ShortField(id, x)
             case Word(x) => b == WordField(id, x)
             case Text(x) => b == TextField(id, x)
             case Blob(x) => b == TextField(id, x)
             case Pair(x) => b == PairField(id, x)
             case Var(_) => false
    ensures PrintProperty(Property(id, v)) == Success(b)
  {
    hide BigEndian, PrintText, TextBytes;
    OneByteLength(id);
    match v
    case Byte(x) => OneByte(x); assert [id] + [x] == b;
    case Short(x) => TwoBytes(x); assert [id] + [x / 256, x % 256] == b;
    case Word(x) =>
      FourBytes(x);
      assert [id] + [x / 0x100_0000, x / 0x1_0000 % 256, x / 256 % 256, x % 256] == b;
    case Text(x) => TextFormat(x);
    case Blob(x) => TextFormat(x);
    case Pair(x) =>
      TextFormat(x.key);
      TextFormat(x.value);
      Assoc([id], TextBytes(x.key), TextBytes(x.value));
  }

  // ---------------------------------------------------------------- lists

  /** Behind its length. */
  function Listed(b: bytes): bytes {
    VarInt.Encode(|b|) + b
  }

  function Flat(bs: seq<bytes>): bytes {
    if bs == [] then [] else bs[0] + Flat(bs[1..])
  }

  function UserBytes(kvs: seq<KeyValue>): bytes {
    if kvs == [] then [] else PairField(38, kvs[0]) + UserBytes(kvs[1..])
  }

  /** Properties that the record does not know are kept and written as they were read. */
  function UnknownBytes(ps: seq<Property>): bytes {
    if PrintAll(ps).Success? then PrintAll(ps).value else []
  }

  function BaseBytes(b: Base): bytes {
    UserBytes(b.users) + UnknownBytes(b.unknown)
  }

  /** The identifiers of the unknown properties can be written. */
  predicate Carried(b: Base) {
    PrintAll(b.unknown).Success?
  }

  lemma {:induction false} PrintAllConcat(a: seq<Property>, b: seq<Property>)
    requires PrintAll(a).Success? && PrintAll(b).Success?
    ensures PrintAll(a + b) == Success(PrintAll(a).value + PrintAll(b).value)
  {
    if a == [] {
      assert a + b == b && [] + PrintAll(b).value == PrintAll(b).value;
    } else {
      assert (a + b)[1..] == a[1..] + b;
      PrintAllConcat(a[1..], b);
      Assoc(PrintProperty(a[0]).value, PrintAll(a[1..]).value, PrintAll(b).value);
    }
  }

  lemma {:induction false} UsersFormat(kvs: seq<KeyValue>)
    ensures PrintAll(Users(kvs)) == Success(UserBytes(kvs))
  {
    if kvs != [] {
      hide PrintProperty, PairField;
      assert Users(kvs)[1..] == Users(kvs[1..]);
      UsersFormat(kvs[1..]);
      FieldFormat(38, Pair(kvs[0]), PairField(38, kvs[0]));
    }
  }

  /** What a conditional addition contributes. */
  predicate Gives(e: Entry, b: bytes) {
    if e.present then PrintProperty(e.property) == Success(b) else b == []
  }

  lemma {:induction false} PresentFormat(es: seq<Entry>, bs: seq<bytes>)
    requires |bs| == |es| && forall i :: 0 <= i < |es| ==> Gives(es[i], bs[i])
    ensures PrintAll(Present(es)) == Success(Flat(bs))
  {
    hide PrintProperty;
    if es != [] {
      assert Gives(es[0], bs[0]);
      PresentFormat(es[1..], bs[1..]);
      if es[0].present {
        assert ([es[0].property] + Present(es[1..]))[1..] == Present(es[1..]);
      } else {
        assert [] + Present(es[1..]) == Present(es[1..]) && [] + Flat(bs[1..]) == Flat(bs[1..]);
      }
    }
  }

  lemma ListFormat(ps: seq<Property>, b: bytes)
    requires Distinct(ps) && PrintAll(ps) == Success(b) && |b| <= 268_435_455
    ensures Properties.Print(AddAll([], ps)) == Success(Listed(b))
  {
    assert [] + ps == ps;
    AddAllDistinct([], ps);
  }

  lemma AddedFormat(es: seq<Entry>, bs: seq<bytes>, b: Base)
    requires |bs| == |es| && (forall i :: 0 <= i < |es| ==> Gives(es[i], bs[i])) && Carried(b)
    ensures PrintAll(Added(es, b)) == Success(Flat(bs) + BaseBytes(b))
  {
    hide PrintAll, UserBytes, Flat, Present, Gives;
    PresentFormat(es, bs);
    UsersFormat(b.users);
    PrintAllConcat(Users(b.users), b.unknown);
    PrintAllConcat(Present(es), Users(b.users) + b.unknown);
  }

  /** Any record: its fields in order, then the user properties, then the unknown ones. */
  lemma RecordFormat(es: seq<Entry>, bs: seq<bytes>, b: Base, known: set<uint32>)
    requires GoodEntries(es, known) && GoodBase(b, known) && USER_PROPERTY !in known && Carried(b)
    requires |bs| == |es| && forall i :: 0 <= i < |es| ==> Gives(es[i], bs[i])
    ensures var body := Flat(bs) + BaseBytes(b);
            |body| <= 268_435_455 ==> PrintRecord(es, b) == Success(Listed(body)) && Fits(PrintRecord(es, b))
  {
    hide Gives, GoodEntries, GoodBase, PrintAll, BaseBytes, Flat;
    GoodAdded(es, b, known);
    AddedFormat(es, bs, b);
    var body := Flat(bs) + BaseBytes(b);
    if |body| <= 268_435_455 {
      ListFormat(Added(es, b), body);
      LengthFits(|body|);
    }
  }

  lemma LengthFits(n: nat)
    requires n <= 268_435_455
    ensures |VarInt.Encode(n)| <= 4
  {
    VarInt.EncodeLength(n, 4);
  }

  // ---------------------------------------------------------------- the records

  function SessionFields(r: SessionProperties): seq<bytes> {
    [When(r.authenticationMethod != [], TextField(21, r.authenticationMethod)),
     When(r.authenticationMethod != [], TextField(22, r.authenticationData)),
     When(r.sessionExpiry != 0, WordField(17, r.sessionExpiry)),
     When(r.maximumPacketSize != 4_294_967_295, WordField(39, r.maximumPacketSize)),
     When(r.topicAliasMaximum != 0, ShortField(34, r.topicAliasMaximum)),
     When(r.receiveMaximum != 65535, ShortField(33, r.receiveMaximum))]
  }

  function ConnectFields(r: ConnectProperties): seq<bytes> {
    [When(r.requestResponse, ByteField(25, 1)), When(r.requestProblem, ByteField(23, 1))] + SessionFields(r.session)
  }

  function ConnackFields(r: ConnackProperties): seq<bytes> {
    [When(!r.retain, ByteField(37, 0)),
     When(r.maximumQos != 2, ByteField(36, r.maximumQos)),
     When(r.assignedClientId != [], TextField(18, r.assignedClientId)),
     When(r.reasonString != [], TextField(31, r.reasonString)),
     When(!r.wildcards, ByteField(40, 0)),
     When(!r.subscriptionIdentifiers, ByteField(41, 0)),
     When(!r.sharedSubscriptions, ByteField(42, 0)),
     When(r.serverKeepAlive != 0, ShortField(19, r.serverKeepAlive)),
     When(r.responseInformation != [], TextField(26, r.responseInformation)),
     When(r.serverReference != [], TextField(28, r.serverReference))] + SessionFields(r.session)
  }

  function WillFields(r: WillProperties): seq<bytes> {
    [When(r.contentType != [], TextField(3, r.contentType)),
     When(r.correlationData != [], TextField(9, r.correlationData)),
     When(r.responseTopic != [], TextField(8, r.responseTopic)),
     When(r.payloadFormat != 0, ByteField(1, r.payloadFormat)),
     When(r.delay != 0, WordField(24, r.delay)),
     When(r.expiry != 0, WordField(2, r.expiry))]
  }

  function PublishFieldsA(r: PublishProperties): seq<bytes> {
    [When(r.responseTopic != [], TextField(8, r.responseTopic)),
     When(r.contentType != [], TextField(3, r.contentType)),
     When(r.correlationData != [], TextField(9, r.correlationData))]
  }

  function PublishFieldsB(r: PublishProperties): seq<bytes> {
    [When(r.expiry != 0, WordField(2, r.expiry)),
     When(r.topicAlias != 0, ShortField(35, r.topicAlias)),
     When(r.payloadFormat != 0, ByteField(1, r.payloadFormat))]
  }

  function DisconnectFields(r: DisconnectProperties): seq<bytes> {
    [When(r.sessionExpiry != 0, WordField(17, r.sessionExpiry)),
     When(r.reasonString != [], TextField(31, r.reasonString)),
     When(r.serverReference != [], TextField(28, r.serverReference))]
  }

  function ConnectList(r: ConnectProperties): bytes { Flat(ConnectFields(r)) + BaseBytes(r.session.base) }

  function ConnackList(r: ConnackProperties): bytes { Flat(ConnackFields(r)) + BaseBytes(r.session.base) }

  function WillList(r: WillProperties): bytes { Flat(WillFields(r)) + BaseBytes(r.base) }

  /** The user properties come twice. */
  function PublishList(r: PublishProperties): bytes {
    Flat(PublishFieldsA(r)) + (UserBytes(r.base.users) + (Flat(PublishFieldsB(r)) + BaseBytes(r.base)))
  }

  function ReasonList(r: ReasonProperties): bytes {
    When(r.reasonString != [], TextField(31, r.reasonString)) + BaseBytes(r.base)
  }

  function DisconnectList(r: DisconnectProperties): bytes { Flat(DisconnectFields(r)) + BaseBytes(r.base) }

  // ---------------------------------------------------------------- field by field

  lemma ByteGives(present: bool, id: byte, v: byte)
    requires id < 128
    ensures Gives(Entry(present, Property(id, Byte(v))), When(present, ByteField(id, v)))
  {
    FieldFormat(id, Byte(v), ByteField(id, v));
  }

  lemma ShortGives(present: bool, id: byte, v: uint16)
    requires id < 128
    ensures Gives(Entry(present, Property(id, Short(v))), When(present, ShortField(id, v)))
  {
    FieldFormat(id, Short(v), ShortField(id, v));
  }

  lemma WordGives(present: bool, id: byte, v: uint32)
    requires id < 128
    ensures Gives(Entry(present, Property(id, Word(v))), When(present, WordField(id, v)))
  {
    FieldFormat(id, Word(v), WordField(id, v));
  }

  lemma TextGives(present: bool, id: byte, t: text)
    requires id < 128
    ensures Gives(Entry(present, Property(id, Text(t))), When(present, TextField(id, t)))
  {
    FieldFormat(id, Text(t), TextField(id, t));
  }

  lemma BlobGives(present: bool, id: byte, t: bytes)
    requires id < 128
    ensures Gives(Entry(present, Property(id, Blob(t))), When(present, TextField(id, t)))
  {
    FieldFormat(id, Blob(t), TextField(id, t));
  }

  predicate AllGive(es: seq<Entry>, bs: seq<bytes>) {
    |bs| == |es| && forall i :: 0 <= i < |es| ==> Gives(es[i], bs[i])
  }

  lemma AllGiveConcat(a: seq<Entry>, x: seq<bytes>, b: seq<Entry>, y: seq<bytes>)
    requires AllGive(a, x) && AllGive(b, y)
    ensures AllGive(a + b, x + y)
  {
    hide Gives;
  }

  lemma SessionGives(r: SessionProperties)
    ensures AllGive(SessionEntries(r), SessionFields(r))
  {
    hide Gives, When, TextField, WordField, ShortField;
    TextGives(r.authenticationMethod != [], 21, r.authenticationMethod);
    BlobGives(r.authenticationMethod != [], 22, r.authenticationData);
    WordGives(r.sessionExpiry != 0, 17, r.sessionExpiry);
    WordGives(r.maximumPacketSize != 4_294_967_295, 39, r.maximumPacketSize);
    ShortGives(r.topicAliasMaximum != 0, 34, r.topicAliasMaximum);
    ShortGives(r.receiveMaximum != 65535, 33, r.receiveMaximum);
  }

  lemma ConnectGives(r: ConnectProperties)
    ensures AllGive(ConnectEntries(r), ConnectFields(r))
  {
    hide Gives, When, ByteField, SessionEntries, SessionFields;
    ByteGives(r.requestResponse, 25, if r.requestResponse then 1 else 0);
    ByteGives(r.requestProblem, 23, if r.requestProblem then 1 else 0);
    SessionGives(r.session);
    OnlyWhen(r.requestResponse, 25, 1, 0);
    OnlyWhen(r.requestProblem, 23, 1, 0);
    var own := [When(r.requestResponse, ByteField(25, 1)), When(r.requestProblem, ByteField(23, 1))];
    AllGiveConcat(ConnectOwnEntries(r), own, SessionEntries(r.session), SessionFields(r.session));
  }

  lemma OnlyWhen(c: bool, id: byte, v: byte, w: byte)
    ensures When(c, ByteField(id, if c then v else w)) == When(c, ByteField(id, v))
  {
  }

  lemma ConnackGivesA(r: ConnackProperties)
    ensures AllGive(ConnackEntriesA(r), ConnackFields(r)[..5])
  {
    hide Gives, When, ByteField, TextField, SessionFields;
    ByteGives(!r.retain, 37, if r.retain then 1 else 0);
    OnlyWhen(!r.retain, 37, 0, 1);
    ByteGives(r.maximumQos != 2, 36, r.maximumQos);
    TextGives(r.assignedClientId != [], 18, r.assignedClientId);
    TextGives(r.reasonString != [], 31, r.reasonString);
    ByteGives(!r.wildcards, 40, if r.wildcards then 1 else 0);
    OnlyWhen(!r.wildcards, 40, 0, 1);
  }

  lemma ConnackGivesB(r: ConnackProperties)
    ensures AllGive(ConnackEntriesB(r), ConnackFields(r)[5..10])
  {
    hide Gives, When, ByteField, ShortField, TextField, SessionFields;
    ByteGives(!r.subscriptionIdentifiers, 41, if r.subscriptionIdentifiers then 1 else 0);
    OnlyWhen(!r.subscriptionIdentifiers, 41, 0, 1);
    ByteGives(!r.sharedSubscriptions, 42, if r.sharedSubscriptions then 1 else 0);
    OnlyWhen(!r.sharedSubscriptions, 42, 0, 1);
    ShortGives(r.serverKeepAlive != 0, 19, r.serverKeepAlive);
    TextGives(r.responseInformation != [], 26, r.responseInformation);
    TextGives(r.serverReference != [], 28, r.serverReference);
  }

  lemma ConnackGives(r: ConnackProperties)
    ensures AllGive(ConnackEntries(r), ConnackFields(r))
  {
    hide AllGive, ConnackEntriesA, ConnackEntriesB, SessionEntries, SessionFields;
    var fs := ConnackFields(r);
    ConnackGivesA(r);
    ConnackGivesB(r);
    SessionGives(r.session);
    assert fs[..5] + fs[5..10] + SessionFields(r.session) == fs;
    AllGiveConcat(ConnackEntriesA(r), fs[..5], ConnackEntriesB(r), fs[5..10]);
    AllGiveConcat(ConnackEntriesA(r) + ConnackEntriesB(r), fs[..5] + fs[5..10], SessionEntries(r.session),
                  SessionFields(r.session));
  }

  lemma WillGives(r: WillProperties)
    ensures AllGive(WillEntries(r), WillFields(r))
  {
    hide Gives, When, ByteField, WordField, TextField;
    TextGives(r.contentType != [], 3, r.contentType);
    BlobGives(r.correlationData != [], 9, r.correlationData);
    TextGives(r.responseTopic != [], 8, r.responseTopic);
    ByteGives(r.payloadFormat != 0, 1, r.payloadFormat);
    WordGives(r.delay != 0, 24, r.delay);
    WordGives(r.expiry != 0, 2, r.expiry);
  }

  lemma PublishGives(r: PublishProperties)
    ensures AllGive(PublishEntriesA(r), PublishFieldsA(r)) && AllGive(PublishEntriesB(r), PublishFieldsB(r))
  {
    hide Gives, When, ByteField, ShortField, WordField, TextField;
    TextGives(r.responseTopic != [], 8, r.responseTopic);
    TextGives(r.contentType != [], 3, r.contentType);
    BlobGives(r.correlationData != [], 9, r.correlationData);
    WordGives(r.expiry != 0, 2, r.expiry);
    ShortGives(r.topicAlias != 0, 35, r.topicAlias);
    ByteGives(r.payloadFormat != 0, 1, r.payloadFormat);
  }

  lemma DisconnectGives(r: DisconnectProperties)
    ensures AllGive(DisconnectEntries(r), DisconnectFields(r))
  {
    hide Gives, When, WordField, TextField;
    WordGives(r.sessionExpiry != 0, 17, r.sessionExpiry);
    TextGives(r.reasonString != [], 31, r.reasonString);
    TextGives(r.serverReference != [], 28, r.serverReference);
  }

  // ---------------------------------------------------------------- record by record

  /** The property list of a CONNECT, written and read. */
  lemma ConnectListFormat(r: ConnectProperties, rest: bytes)
    requires GoodConnect(r) && Carried(r.session.base) && |ConnectList(r)| <= 268_435_455
    ensures PrintRecord(ConnectEntries(r), r.session.base) == Success(Listed(ConnectList(r)))
    ensures ParseRecord(HandleConnect, NO_CONNECT, Listed(ConnectList(r)) + rest)
            == Success((r.(session := CanonicalSession(r.session)), rest))
  {
    hide ConnectEntries, ConnectFields, PrintRecord, GoodEntries, Gives, Flat, BaseBytes, HandleConnect;
    ConnectGives(r);
    GoodConnectEntries(r);
    RecordFormat(ConnectEntries(r), ConnectFields(r), r.session.base, CONNECT_KNOWN);
    ConnectRoundTrip(r, rest);
  }

  /** The property list of a CONNACK. */
  lemma ConnackListFormat(r: ConnackProperties, rest: bytes)
    requires GoodConnack(r) && Carried(r.session.base) && |ConnackList(r)| <= 268_435_455
    ensures PrintRecord(ConnackEntries(r), r.session.base) == Success(Listed(ConnackList(r)))
    ensures ParseRecord(HandleConnack, NO_CONNACK, Listed(ConnackList(r)) + rest)
            == Success((r.(session := CanonicalSession(r.session)), rest))
  {
    hide ConnackEntries, ConnackFields, PrintRecord, GoodEntries, Gives, Flat, BaseBytes, HandleConnack;
    ConnackGives(r);
    GoodConnackEntries(r);
    RecordFormat(ConnackEntries(r), ConnackFields(r), r.session.base, CONNACK_KNOWN);
    ConnackRoundTrip(r, rest);
  }

  /** The property list of a will. */
  lemma WillListFormat(r: WillProperties, rest: bytes)
    requires GoodWill(r) && Carried(r.base) && |WillList(r)| <= 268_435_455
    ensures PrintRecord(WillEntries(r), r.base) == Success(Listed(WillList(r)))
    ensures ParseRecord(HandleWill, NO_WILL, Listed(WillList(r)) + rest) == Success((r, rest))
  {
    hide WillEntries, WillFields, PrintRecord, GoodEntries, Gives, Flat, BaseBytes, HandleWill;
    WillGives(r);
    GoodWillEntries(r);
    RecordFormat(WillEntries(r), WillFields(r), r.base, WILL_KNOWN);
    WillRoundTrip(r, rest);
  }

  lemma PublishAddedFormat(r: PublishProperties)
    requires Carried(r.base)
    ensures PrintAll(PublishAdded(r)) == Success(PublishList(r))
  {
    hide PrintAll, UserBytes, Flat, Gives, PublishEntriesA, PublishEntriesB, PublishFieldsA, PublishFieldsB, BaseBytes;
    PublishGives(r);
    PresentFormat(PublishEntriesA(r), PublishFieldsA(r));
    AddedFormat(PublishEntriesB(r), PublishFieldsB(r), r.base);
    UsersFormat(r.base.users);
    PrintAllConcat(Users(r.base.users), Added(PublishEntriesB(r), r.base));
    PrintAllConcat(Present(PublishEntriesA(r)), Users(r.base.users) + Added(PublishEntriesB(r), r.base));
  }

  /** The property list of a PUBLISH; a subscription identifier cannot be written. */
  lemma PublishListFormat(r: PublishProperties, rest: bytes)
    requires GoodPublish(r) && Carried(r.base) && |PublishList(r)| <= 268_435_455
    ensures PrintPublish(r)
            == if r.subscriptionIdentifier == 0 then Success(Listed(PublishList(r))) else Failure(RuntimeError)
    ensures r.subscriptionIdentifier == 0 ==>
              ParseRecord(HandlePublish, NO_PUBLISH, Listed(PublishList(r)) + rest)
              == Success((CanonicalPublish(r), rest))
  {
    hide PublishAdded, PublishList, HandlePublish, PrintAll, CanonicalPublish, ParseRecord;
    PublishAddedFormat(r);
    PublishAddedIsGood(r);
    ListFormat(PublishAdded(r), PublishList(r));
    LengthFits(|PublishList(r)|);
    if r.subscriptionIdentifier == 0 {
      PublishRoundTrip(r, rest);
    }
  }

  /** The property list of the packets that only have a reason string. */
  lemma ReasonListFormat(r: ReasonProperties, rest: bytes)
    requires GoodReason(r) && Carried(r.base) && |ReasonList(r)| <= 268_435_455
    ensures PrintRecord(ReasonEntries(r), r.base) == Success(Listed(ReasonList(r)))
    ensures ParseRecord(HandleReason, NO_REASON, Listed(ReasonList(r)) + rest) == Success((r, rest))
  {
    hide PrintRecord, Gives, BaseBytes, HandleReason;
    var bs := [When(r.reasonString != [], TextField(31, r.reasonString))];
    TextGives(r.reasonString != [], 31, r.reasonString);
    assert bs[1..] == [] && Flat([]) == [] && Flat(bs) == bs[0] + [] == bs[0];
    RecordFormat(ReasonEntries(r), bs, r.base, REASON_KNOWN);
    ReasonRoundTrip(r, rest);
  }

  /** The property list of a DISCONNECT. */
  lemma DisconnectListFormat(r: DisconnectProperties, rest: bytes)
    requires GoodDisconnect(r) && Carried(r.base) && |DisconnectList(r)| <= 268_435_455
    ensures PrintRecord(DisconnectEntries(r), r.base) == Success(Listed(DisconnectList(r)))
    ensures ParseRecord(HandleDisconnect, NO_DISCONNECT, Listed(DisconnectList(r)) + rest) == Success((r, rest))
  {
    hide DisconnectEntries, DisconnectFields, PrintRecord, GoodEntries, Gives, Flat, BaseBytes, HandleDisconnect;
    DisconnectGives(r);
    GoodDisconnectEntries(r);
    RecordFormat(DisconnectEntries(r), DisconnectFields(r), r.base, DISCONNECT_KNOWN);
    DisconnectRoundTrip(r, rest);
  }

  /** A record with no field of its own that can be written: SUBSCRIBE and UNSUBSCRIBE. */
  lemma BareListFormat(b: Base, known: set<uint32>)
    requires GoodBase(b, known) && USER_PROPERTY !in known && Carried(b) && |BaseBytes(b)| <= 268_435_455
    ensures PrintRecord([], b) == Success(Listed(BaseBytes(b)))
  {
    hide PrintRecord, BaseBytes, GoodBase;
    assert Flat([]) + BaseBytes(b) == BaseBytes(b);
    RecordFormat([], [], b, known);
  }

  /** The property list of a SUBSCRIBE; a subscription identifier cannot be written. */
  lemma SubscribeListFormat(r: SubscribeProperties)
    requires GoodSubscribe(r) && Carried(r.base) && |BaseBytes(r.base)| <= 268_435_455
    ensures PrintSubscribe(r)
            == if r.subscriptionIdentifier == 0 then Success(Listed(BaseBytes(r.base))) else Failure(RuntimeError)
  {
    hide PrintRecord, BaseBytes, GoodBase;
    BareListFormat(r.base, SUBSCRIBE_KNOWN);
  }

  // ---------------------------------------------------------------- what is read

  /** A flag is set by any value but 0. */
  lemma AnyFlag(v: byte, connect: ConnectProperties, connack: ConnackProperties)
    ensures HandleConnect(connect, Property(25, Byte(v))) == Success(connect.(requestResponse := v != 0))
    ensures HandleConnect(connect, Property(23, Byte(v))) == Success(connect.(requestProblem := v != 0))
    ensures HandleConnack(connack, Property(37, Byte(v))) == Success(connack.(retain := v != 0))
    ensures HandleConnack(connack, Property(40, Byte(v))) == Success(connack.(wildcards := v != 0))
    ensures HandleConnack(connack, Property(41, Byte(v))) == Success(connack.(subscriptionIdentifiers := v != 0))
    ensures HandleConnack(connack, Property(42, Byte(v))) == Success(connack.(sharedSubscriptions := v != 0))
  {
  }

  const NOT_ONE_BYTE: set<int> := {2, 3, 8, 9, 11, 17, 18, 19, 21, 22, 24, 26, 28, 31, 33, 34, 35, 38, 39}

  /** An identifier outside the table, of which only the low eight bits are looked up, is followed by
      one byte. */
  lemma OtherIdentifiers(id: uint32, v: byte, rest: bytes)
    requires id <= 268_435_455 && id % 256 !in NOT_ONE_BYTE
    ensures ParseProperty(VarInt.Encode(id) + [v] + rest) == Success((Property(id, Byte(v)), rest))
  {
    hide VarInt.Encode, VarInt.Parse;
    Assoc(VarInt.Encode(id), [v], rest);
    VarInt.RoundTrip(id, [v] + rest);
    OneByte(v);
    ParseFixedOfPrint(v, 1, rest);
  }

  // ---------------------------------------------------------------- what is never read

  lemma {:induction false} FoldRefuses(r: PublishProperties, ps: seq<Property>, i: nat)
    requires i < |ps| && ps[i].identifier == 11 && ps[i].value.Blob?
    ensures Fold(HandlePublish, r, ps) == Failure(RuntimeError)
    decreases ps
  {
    if i > 0 {
      var next := HandlePublish(r, ps[0]);
      if next.Success? {
        FoldRefuses(next.value, ps[1..], i - 1);
      }
    }
  }

  lemma ParsedAlternative(s: bytes)
    ensures var r := ParseProperty(s); r.Success? && r.value.0.identifier == 11 ==> r.value.0.value.Blob?
  {
    hide VarInt.Parse, ParseBinary;
  }

  predicate AsBinary(ps: seq<Property>) {
    forall i :: 0 <= i < |ps| && ps[i].identifier == 11 ==> ps[i].value.Blob?
  }

  lemma AsBinaryCons(p: Property, ps: seq<Property>)
    requires (p.identifier == 11 ==> p.value.Blob?) && AsBinary(ps)
    ensures AsBinary([p] + ps)
  {
  }

  lemma {:induction false} ParsedAlternatives(s: bytes)
    ensures ParseAll(s).Success? ==> AsBinary(ParseAll(s).value)
    decreases |s|
  {
    hide ParseProperty, AsBinary;
    if s == [] {
      assert AsBinary([]) by { NoneAsBinary(); }
    } else if ParseProperty(s).Success? {
      var p, rest := ParseProperty(s).value.0, ParseProperty(s).value.1;
      ParsedAlternative(s);
      ParsedAlternatives(rest);
      if ParseAll(rest).Success? {
        AsBinaryCons(p, ParseAll(rest).value);
      }
    }
  }

  lemma NoneAsBinary()
    ensures AsBinary([])
  {
  }

  /** A PUBLISH that carries a subscription identifier, as section 3.3.2.3.8 lets a server send it, is
      refused: the property is read as binary data, and asked for as a number. */
  lemma SubscriptionIdentifierIsRefused(s: bytes, i: nat)
    requires Parse(s).Success? && i < |Parse(s).value.0| && Parse(s).value.0[i].identifier == 11
    ensures ParseRecord(HandlePublish, NO_PUBLISH, s) == Failure(RuntimeError)
  {
    var n := VarInt.Parse(s).value;
    ParsedAlternatives(Take(n.1, n.0).value.0);
    FoldRefuses(NO_PUBLISH, Parse(s).value.0, i);
  }
}
