/** The CONNECT packet that a client builds from its options, and that a server can read it back. */
module Handshake {
  import opened Bytes
  import opened Primitives
  import opened Records
  import opened RecordRoundTrips
  import opened Packets
  import opened PacketRoundTrips
  import opened PropertyFormat
  import opened WireFormat
  import Properties
  import VarInt

  datatype LastWill = LastWill(
    topic: text, payload: bytes, contentType: text, responseTopic: text, correlationData: bytes,
    userProperty: seq<KeyValue>, delay: uint32, expiry: uint32, retain: bool, qos: byte, payloadFormat: byte)

  datatype ConnectOptions = ConnectOptions(
    lastWill: Option<LastWill>, clientId: text, keepAlive: uint16, username: text, password: bytes,
    receiveMaximum: uint16, cleanStart: bool)

  const WILL_QOS_1 := 8
  const WILL_QOS_2 := 0x10

  predicate IsMask(m: nat) {
    || m == CLEAN_START || m == WILL || m == WILL_QOS_1 || m == WILL_QOS_2
    || m == WILL_RETAIN || m == PASSWORD || m == USERNAME
  }

  /** `flags |= mask`. */
  function Or(flags: byte, mask: nat): byte
    requires IsMask(mask)
  {
    if HasBit(flags, mask) then flags else flags + mask
  }

  datatype Bits = Bits(b0: nat, b1: nat, b2: nat, b3: nat, b4: nat, b5: nat, b6: nat, b7: nat) {
    predicate Valid() { b0 < 2 && b1 < 2 && b2 < 2 && b3 < 2 && b4 < 2 && b5 < 2 && b6 < 2 && b7 < 2 }

    function Sum(): nat { b0 + 2 * b1 + 4 * b2 + 8 * b3 + 0x10 * b4 + 0x20 * b5 + 0x40 * b6 + 0x80 * b7 }

    function At(m: nat): nat
      requires IsMask(m)
    {
      if m == 2 then b1 else if m == 4 then b2 else if m == 8 then b3 else if m == 0x10 then b4
      else if m == 0x20 then b5 else if m == 0x40 then b6 else b7
    }

    function With(m: nat): Bits
      requires IsMask(m)
    {
      if m == 2 then this.(b1 := 1) else if m == 4 then this.(b2 := 1) else if m == 8 then this.(b3 := 1)
      else if m == 0x10 then this.(b4 := 1) else if m == 0x20 then this.(b5 := 1)
      else if m == 0x40 then this.(b6 := 1) else this.(b7 := 1)
    }
  }

  lemma BitsOf(f: byte) returns (bs: Bits)
    ensures bs.Valid() && f == bs.Sum()
  {
    var f1, f2, f3, f4 := f / 2, f / 2 / 2, f / 2 / 2 / 2, f / 2 / 2 / 2 / 2;
    bs := Bits(f % 2, f1 % 2, f2 % 2, f3 % 2, f4 % 2, f4 / 2 % 2, f4 / 2 / 2 % 2, f4 / 2 / 2 / 2);
  }

  lemma LowBit(bs: Bits, m: nat)
    requires bs.Valid() && (m == 2 || m == 4 || m == 8)
    ensures HasBit(bs.Sum(), m) <==> bs.At(m) == 1
  {
    var f, h3 := bs.Sum(), bs.b3 + 2 * bs.b4 + 4 * bs.b5 + 8 * bs.b6 + 0x10 * bs.b7;
    if m == 2 { assert f / 2 == bs.b1 + 2 * (bs.b2 + 2 * h3); }
    else if m == 4 { assert f / 4 == bs.b2 + 2 * h3; }
    else { assert f / 8 == h3; }
  }

  lemma MiddleBit(bs: Bits, m: nat)
    requires bs.Valid() && (m == 0x10 || m == 0x20)
    ensures HasBit(bs.Sum(), m) <==> bs.At(m) == 1
  {
    var f, h6 := bs.Sum(), bs.b6 + 2 * bs.b7;
    if m == 0x10 { assert f / 0x10 == bs.b4 + 2 * (bs.b5 + 2 * h6); }
    else { assert f / 0x20 == bs.b5 + 2 * h6; }
  }

  lemma HighBit(bs: Bits, m: nat)
    requires bs.Valid() && (m == 0x40 || m == 0x80)
    ensures HasBit(bs.Sum(), m) <==> bs.At(m) == 1
  {
    var f := bs.Sum();
    if m == 0x40 { assert f / 0x40 == bs.b6 + 2 * bs.b7; }
    else { assert f / 0x80 == bs.b7; }
  }

  lemma BitAt(bs: Bits, m: nat)
    requires bs.Valid() && IsMask(m)
    ensures HasBit(bs.Sum(), m) <==> bs.At(m) == 1
  {
    hide HasBit, Bits.Sum, Bits.At, Bits.Valid;
    if m == 2 || m == 4 || m == 8 {
      LowBit(bs, m);
    } else if m == 0x10 || m == 0x20 {
      MiddleBit(bs, m);
    } else {
      HighBit(bs, m);
    }
  }

  lemma WithSum(bs: Bits, m: nat)
    requires bs.Valid() && IsMask(m)
    ensures bs.With(m).Valid() && bs.With(m).Sum() == bs.Sum() + (if bs.At(m) == 1 then 0 else m)
    ensures bs.With(m).Sum() % 2 == bs.Sum() % 2
  {
    SumParity(bs);
    SumParity(bs.With(m));
  }

  lemma SumParity(bs: Bits)
    requires bs.Valid()
    ensures bs.Sum() % 2 == bs.b0
  {
    var half := bs.b1 + 2 * bs.b2 + 4 * bs.b3 + 8 * bs.b4 + 0x10 * bs.b5 + 0x20 * bs.b6 + 0x40 * bs.b7;
    LowestBit(bs.b0, half, bs.Sum());
  }

  lemma LowestBit(b: nat, half: nat, sum: nat)
    requires b < 2 && sum == b + 2 * half
    ensures sum % 2 == b
  {
  }

  lemma WithAt(bs: Bits, m: nat, other: nat)
    requires bs.Valid() && IsMask(m) && IsMask(other)
    ensures bs.With(m).At(other) == if other == m then 1 else bs.At(other)
  {
  }

  lemma OrSets(flags: byte, mask: nat, other: nat)
    requires IsMask(mask) && IsMask(other)
    ensures HasBit(Or(flags, mask), other) <==> other == mask || HasBit(flags, other)
    ensures Or(flags, mask) % 2 == flags % 2
  {
    hide HasBit, Bits.Sum, Bits.At, Bits.With, Bits.Valid;
    var bs := BitsOf(flags);
    BitAt(bs, mask);
    BitAt(bs, other);
    WithSum(bs, mask);
    WithAt(bs, mask, other);
    BitAt(bs.With(mask), other);
  }

  /** The will's properties; its user properties are not among them. */
  function WillPropertiesOf(w: LastWill): WillProperties {
    WillProperties(NO_BASE, w.contentType, w.responseTopic, w.correlationData, w.delay, w.expiry, w.payloadFormat)
  }

  /** What the flags of a CONNECT for these options say. Clean start is asked for exactly when the
      options do not. */
  predicate FlagsSay(opts: ConnectOptions, flags: byte) {
    && (HasBit(flags, WILL) <==> opts.lastWill.Some?)
    && (HasBit(flags, WILL_RETAIN) <==> opts.lastWill.Some? && opts.lastWill.value.retain)
    && (HasBit(flags, WILL_QOS_1) <==> opts.lastWill.Some? && opts.lastWill.value.qos == 1)
    && (HasBit(flags, WILL_QOS_2) <==> opts.lastWill.Some? && opts.lastWill.value.qos == 2)
    && (HasBit(flags, CLEAN_START) <==> !opts.cleanStart)
    && (HasBit(flags, USERNAME) <==> opts.username != [])
    && (HasBit(flags, PASSWORD) <==> opts.password != [])
    && flags % 2 == 0
  }

  /** The packet that `send_connect` writes for these options. */
  predicate Built(opts: ConnectOptions, c: Connect) {
    && FlagsSay(opts, c.flags)
    && c.version == 5 && c.keepAlive == opts.keepAlive && c.clientId == opts.clientId
    && c.properties == NO_CONNECT.(session := NO_SESSION.(receiveMaximum := opts.receiveMaximum))
    && c.username == (if opts.username == [] then None else Some(opts.username))
    && c.password == (if opts.password == [] then None else Some(opts.password))
    && c.willTopic == (if opts.lastWill.Some? then opts.lastWill.value.topic else [])
    && c.willPayload == (if opts.lastWill.Some? then opts.lastWill.value.payload else [])
    && c.willProperties == (if opts.lastWill.Some? then WillPropertiesOf(opts.lastWill.value) else NO_WILL)
  }

  method SetBit(flags: byte, mask: nat) returns (r: byte)
    requires IsMask(mask)
    ensures forall m :: IsMask(m) ==> (HasBit(r, m) <==> m == mask || HasBit(flags, m))
    ensures r % 2 == flags % 2
  {
    hide HasBit;
    r := Or(flags, mask);
    forall m | IsMask(m) ensures HasBit(r, m) <==> m == mask || HasBit(flags, m) {
      OrSets(flags, mask, m);
    }
    OrSets(flags, mask, mask);
  }

  method SendConnect(opts: ConnectOptions) returns (c: Connect)
    ensures Built(opts, c)
  {
    hide HasBit;
    var flags := 0;
    NoBits();
    var will, topic, payload := NO_WILL, [], [];
    if opts.lastWill.Some? {
      var w := opts.lastWill.value;
      flags := SetBit(flags, WILL);
      if w.retain {
        flags := SetBit(flags, WILL_RETAIN);
      }
      if w.qos == 1 {
        flags := SetBit(flags, WILL_QOS_1);
      } else if w.qos == 2 {
        flags := SetBit(flags, WILL_QOS_2);
      }
      topic, payload := w.topic, w.payload;
      will := will.(contentType := w.contentType, responseTopic := w.responseTopic,
          correlationData := w.correlationData);
      will := will.(delay := w.delay, expiry := w.expiry, payloadFormat := w.payloadFormat);
    }
    if !opts.cleanStart {
      flags := SetBit(flags, CLEAN_START);
    }
    var username, password := None, None;
    if opts.username != [] {
      username := Some(opts.username);
      flags := SetBit(flags, USERNAME);
    }
    if opts.password != [] {
      password := Some(opts.password);
      flags := SetBit(flags, PASSWORD);
    }
    c := Connect(5, flags, opts.keepAlive, NO_CONNECT.(session := NO_SESSION.(receiveMaximum := opts.receiveMaximum)),
                 opts.clientId, will, topic, payload, username, password);
  }

  lemma NoBits()
    ensures forall m :: IsMask(m) ==> !HasBit(0, m)
  {
  }

  // ---------------------------------------------------------------- reading it back

  /** Every string and every binary fits its 16-bit length. */
  predicate InRange(opts: ConnectOptions) {
    && FitsPrefix(opts.clientId) && FitsPrefix(opts.username) && FitsPrefix(opts.password)
    && (opts.lastWill.Some? ==>
          var w := opts.lastWill.value;
          && FitsPrefix(w.topic) && FitsPrefix(w.payload) && FitsPrefix(w.contentType)
          && FitsPrefix(w.responseTopic) && FitsPrefix(w.correlationData))
  }

  /** A property whose printing takes at most 65538 bytes. */
  predicate Small(p: Properties.Property) {
    p.identifier < 128 && !p.value.Var? && !p.value.Pair?
    && (p.value.Text? ==> FitsPrefix(p.value.t)) && (p.value.Blob? ==> FitsPrefix(p.value.bs))
  }

  lemma TextLength(t: text)
    requires FitsPrefix(t)
    ensures |PrintText(t)| == |t| + 2
  {
  }

  lemma {:induction false} SmallList(ps: seq<Properties.Property>)
    requires forall i :: 0 <= i < |ps| ==> Small(ps[i])
    ensures var b := Properties.PrintAll(ps); b.Success? && |b.value| <= 65538 * |ps|
  {
    if ps != [] {
      SmallList(ps[1..]);
      assert Small(ps[0]);
      if ps[0].value.Text? { TextLength(ps[0].value.t); }
      if ps[0].value.Blob? { TextLength(ps[0].value.bs); }
    }
  }

  lemma {:induction false} SmallAdded(ps: seq<Properties.Property>, more: seq<Properties.Property>)
    requires (forall i :: 0 <= i < |ps| ==> Small(ps[i])) && (forall i :: 0 <= i < |more| ==> Small(more[i]))
    ensures var all := Properties.AddAll(ps, more);
            |all| <= |ps| + |more| && forall i :: 0 <= i < |all| ==> Small(all[i])
    decreases more
  {
    if more != [] {
      assert Small(more[0]);
      SmallAdded(Properties.Add(ps, more[0]), more[1..]);
    }
  }

  lemma {:induction false} SmallPresent(es: seq<Entry>)
    requires forall i :: 0 <= i < |es| && es[i].present ==> Small(es[i].property)
    ensures |Present(es)| <= |es| && forall i :: 0 <= i < |Present(es)| ==> Small(Present(es)[i])
  {
    if es != [] {
      SmallPresent(es[1..]);
      assert es[0].present ==> Small(es[0].property);
    }
  }

  lemma SmallRecord(es: seq<Entry>)
    requires |es| <= 8 && forall i :: 0 <= i < |es| && es[i].present ==> Small(es[i].property)
    ensures var b := PrintRecord(es, NO_BASE); b.Success? && |b.value| <= 8 * 65538 + 4
  {
    SmallPresent(es);
    assert Added(es, NO_BASE) == Present(es);
    SmallAdded([], Present(es));
    var ps := Properties.AddAll([], Present(es));
    SmallList(ps);
    var n := |Properties.PrintAll(ps).value|;
    assert n <= 65538 * 8;
    VarInt.EncodeLength(n, 4);
  }

  lemma ConnectFits(opts: ConnectOptions, c: Connect)
    requires Built(opts, c) && InRange(opts)
    ensures Fits(PrintConnect(c))
  {
    hide HasBit, PrintRecord, PrintText;
    SmallRecord(ConnectEntries(c.properties));
    if opts.lastWill.Some? {
      SmallRecord(WillEntries(c.willProperties));
      TextLength(c.willTopic);
      TextLength(c.willPayload);
    }
    TextLength(PROTOCOL_NAME);
    TextLength(c.clientId);
    if c.username.Some? { TextLength(c.username.value); }
    if c.password.Some? { TextLength(c.password.value); }
  }

  /** Whatever options of legal lengths a client is given, its CONNECT has flags that agree with its
      optional fields, can be printed, and is read back field for field. */
  lemma ConnectIsReadBack(opts: ConnectOptions, c: Connect)
    requires Built(opts, c) && InRange(opts)
    ensures FlagsAgree(c) && Fits(PrintBody(ConnectPacket(c)))
    ensures ParseBody(ConnectPacket(c).Type() * 16 + ConnectPacket(c).HeaderFlags(), PrintBody(ConnectPacket(c)).value)
            == Success(ConnectPacket(c))
  {
    hide HasBit, PrintConnect, ParseBody;
    ConnectFits(opts, c);
    assert Good(ConnectPacket(c));
    BodyRoundTripExact(ConnectPacket(c));
  }

  /** The options determine the packet. */
  lemma BuiltOnce(opts: ConnectOptions, c: Connect, d: Connect)
    requires Built(opts, c) && Built(opts, d)
    ensures c == d
  {
    BitsDetermine(c.flags, d.flags);
  }

  lemma SameBit(x: Bits, y: Bits, m: nat)
    requires x.Valid() && y.Valid() && IsMask(m)
    requires x.Sum() < 256 && y.Sum() < 256 && HasBit(x.Sum(), m) == HasBit(y.Sum(), m)
    ensures x.At(m) == y.At(m)
  {
    hide HasBit, Bits.Sum;
    BitAt(x, m);
    BitAt(y, m);
  }

  lemma BitsDetermine(f: byte, g: byte)
    requires f % 2 == g % 2 && forall m :: IsMask(m) ==> HasBit(f, m) == HasBit(g, m)
    ensures f == g
  {
    hide HasBit, Bits.Sum, Bits.Valid;
    var x := BitsOf(f);
    var y := BitsOf(g);
    forall m | IsMask(m) ensures x.At(m) == y.At(m) {
      SameBit(x, y, m);
    }
    SumParity(x);
    SumParity(y);
    assert x.At(2) == y.At(2) && x.At(4) == y.At(4) && x.At(8) == y.At(8) && x.At(0x10) == y.At(0x10);
    assert x.At(0x20) == y.At(0x20) && x.At(0x40) == y.At(0x40) && x.At(0x80) == y.At(0x80);
    assert x == y;
  }

  // ---------------------------------------------------------------- the bytes

  function Choose(c: bool, n: nat): nat { if c then n else 0 }

  /** The flag byte as a number. */
  function FlagByte(opts: ConnectOptions): (f: byte)
    ensures f % 2 == 0
  {
    var will, w := opts.lastWill.Some?, opts.lastWill;
    Choose(opts.username != [], 128) + Choose(opts.password != [], 64)
    + Choose(will && w.value.retain, 32) + Choose(will && w.value.qos == 2, 16) + Choose(will && w.value.qos == 1, 8)
    + Choose(will, 4) + Choose(!opts.cleanStart, 2)
  }

  function FlagBits(opts: ConnectOptions): Bits {
    var will, w := opts.lastWill.Some?, opts.lastWill;
    Bits(0, Choose(!opts.cleanStart, 1), Choose(will, 1), Choose(will && w.value.qos == 1, 1),
         Choose(will && w.value.qos == 2, 1), Choose(will && w.value.retain, 1), Choose(opts.password != [], 1),
         Choose(opts.username != [], 1))
  }

  lemma FlagSum(opts: ConnectOptions)
    ensures FlagBits(opts).Valid() && FlagBits(opts).Sum() == FlagByte(opts)
  {
    var will, w := opts.lastWill.Some?, opts.lastWill;
    ChooseTimes(opts.username != [], 128);
    ChooseTimes(opts.password != [], 64);
    ChooseTimes(will && w.value.retain, 32);
    ChooseTimes(will && w.value.qos == 2, 16);
    ChooseTimes(will && w.value.qos == 1, 8);
    ChooseTimes(will, 4);
    ChooseTimes(!opts.cleanStart, 2);
    hide Choose;
  }

  lemma ChooseTimes(c: bool, n: nat)
    ensures Choose(c, n) == n * Choose(c, 1) && Choose(c, 1) < 2
  {
  }

  /** The flags say what the options are exactly when they are this number: 128 for a user name, 64 for
      a password, 32 for a retained will, 16 or 8 for its QoS, 4 for a will, 2 when clean start is not
      asked for. */
  lemma FlagsAreNumber(opts: ConnectOptions, flags: byte)
    ensures FlagsSay(opts, flags) <==> flags == FlagByte(opts)
  {
    hide HasBit, FlagByte, Bits.Sum, Bits.Valid;
    var bs := FlagBits(opts);
    FlagSum(opts);
    BitAt(bs, 2);
    BitAt(bs, 4);
    BitAt(bs, 8);
    BitAt(bs, 0x10);
    BitAt(bs, 0x20);
    BitAt(bs, 0x40);
    BitAt(bs, 0x80);
    assert FlagsSay(opts, FlagByte(opts));
    if FlagsSay(opts, flags) {
      BitsDetermine(flags, FlagByte(opts));
    }
  }

  /** Properties, topic and payload of the will. */
  function LastWillBytes(w: LastWill): bytes {
    Listed(Flat(LastWillFields(w))) + TextBytes(w.topic) + TextBytes(w.payload)
  }

  function LastWillFields(w: LastWill): seq<bytes> {
    [When(w.contentType != [], TextField(3, w.contentType)),
     When(w.correlationData != [], TextField(9, w.correlationData)),
     When(w.responseTopic != [], TextField(8, w.responseTopic)),
     When(w.payloadFormat != 0, ByteField(1, w.payloadFormat)),
     When(w.delay != 0, WordField(24, w.delay)),
     When(w.expiry != 0, WordField(2, w.expiry))]
  }

  lemma LastWillList(w: LastWill)
    ensures WillList(WillPropertiesOf(w)) == Flat(LastWillFields(w))
  {
    hide Flat;
    NoUnknown();
    assert WillFields(WillPropertiesOf(w)) == LastWillFields(w);
  }

  /** The body of the CONNECT: protocol name, version 5, flags, keep-alive; the receive maximum unless
      it is the default; client identifier, will, user name, password. */
  function BuiltBytes(opts: ConnectOptions): bytes {
    ConnectHead(5, FlagByte(opts), opts.keepAlive) + ReceiveMaximumBytes(opts.receiveMaximum)
    + TextBytes(opts.clientId)
    + (if opts.lastWill.Some? then LastWillBytes(opts.lastWill.value) else [])
    + When(opts.username != [], TextBytes(opts.username)) + When(opts.password != [], TextBytes(opts.password))
  }

  function ReceiveMaximumBytes(m: uint16): bytes {
    if m == 65535 then [0] else [3, 33, m / 256, m % 256]
  }

  lemma ReceiveMaximumList(r: ConnectProperties)
    requires r == NO_CONNECT.(session := NO_SESSION.(receiveMaximum := r.session.receiveMaximum))
    ensures var m := r.session.receiveMaximum;
            && |ConnectList(r)| <= 3
            && Listed(ConnectList(r)) == ReceiveMaximumBytes(m)
  {
    var m := When(r.session.receiveMaximum != 65535, ShortField(33, r.session.receiveMaximum));
    FlatLast(ConnectFields(r));
    NoUnknown();
    assert ConnectList(r) == m;
    OneByteLength(|m|);
    assert Listed(m) == [|m|] + m;
    assert [0] + [] == [0];
  }

  lemma WillListShort(w: LastWill)
    requires FitsPrefix(w.contentType) && FitsPrefix(w.responseTopic) && FitsPrefix(w.correlationData)
    ensures |WillList(WillPropertiesOf(w))| <= 268_435_455 && GoodWill(WillPropertiesOf(w))
  {
    var fs := WillFields(WillPropertiesOf(w));
    NoUnknown();
    ShortFlat(fs, 65538 + 1);
  }

  lemma {:induction false} ShortFlat(bs: seq<bytes>, n: nat)
    requires forall i :: 0 <= i < |bs| ==> |bs[i]| <= n
    ensures |Flat(bs)| <= |bs| * n
  {
    if bs != [] {
      ShortFlat(bs[1..], n);
    }
  }

  lemma BuiltIsWritable(opts: ConnectOptions, c: Connect)
    requires Built(opts, c) && InRange(opts)
    ensures Good(ConnectPacket(c)) && Lists(ConnectPacket(c)) && Faithful(ConnectPacket(c))
  {
    hide HasBit, Flat, UserBytes;
    NoUnknown();
    ReceiveMaximumList(c.properties);
    WillBit(c.flags);
    if opts.lastWill.Some? {
      WillListShort(opts.lastWill.value);
    }
  }

  lemma WillBit(flags: byte)
    ensures HasBit(flags, WILL) <==> flags / 4 % 2 == 1
  {
  }

  lemma BuiltBody(opts: ConnectOptions, c: Connect)
    requires Built(opts, c) && InRange(opts)
    ensures BodyBytes(ConnectPacket(c)) == BuiltBytes(opts) && |BuiltBytes(opts)| <= 268_435_455
  {
    hide HasBit, Flat, ConnectList, WillList, TextBytes, BaseBytes;
    FlagsAreNumber(opts, c.flags);
    WillBit(c.flags);
    ReceiveMaximumList(c.properties);
    TextSize(opts.clientId);
    TextSize(opts.username);
    TextSize(opts.password);
    if opts.lastWill.Some? {
      TextSize(opts.lastWill.value.topic);
      TextSize(opts.lastWill.value.payload);
      LastWillList(opts.lastWill.value);
      LastWillSize(opts.lastWill.value);
    }
  }

  lemma TextSize(t: text)
    ensures |TextBytes(t)| == |t| + 2
  {
  }

  lemma LastWillSize(w: LastWill)
    requires FitsPrefix(w.contentType) && FitsPrefix(w.responseTopic) && FitsPrefix(w.correlationData)
    requires FitsPrefix(w.topic) && FitsPrefix(w.payload)
    ensures |LastWillBytes(w)| <= 10 * 65539
  {
    var fs := LastWillFields(w);
    ShortFlat(fs, 65538 + 1);
    VarInt.EncodeLength(|Flat(fs)|, 4);
  }

  /** The CONNECT for any options of legal lengths, byte for byte; and a reader of those bytes gets the
      packet that was built. */
  lemma BuiltFormat(opts: ConnectOptions, c: Connect)
    requires Built(opts, c) && InRange(opts)
    ensures var body := BuiltBytes(opts);
            && Print(ConnectPacket(c)) == Success([0x10] + VarInt.Encode(|body|) + body)
            && ParseBody(0x10, body) == Success(ConnectPacket(c))
  {
    hide Built, InRange, Print, ParseBody, BodyBytes, BuiltBytes, Good, Lists, Faithful;
    BuiltIsWritable(opts, c);
    BuiltBody(opts, c);
    Framed(ConnectPacket(c), 0x10, BuiltBytes(opts));
  }
}
