/** What comes back when a typed property record is written and read again. */
module RecordRoundTrips {
  import opened Bytes
  import opened Primitives
  import opened Properties
  import opened Records
  import VarInt

  // ---------------------------------------------------------------- folding

  lemma {:induction false} FoldConcat<R>(h: Handler<R>, r: R, a: seq<Property>, b: seq<Property>)
    ensures Fold(h, r, a + b) ==
            if Fold(h, r, a).Success? then Fold(h, Fold(h, r, a).value, b) else Fold(h, r, a)
    decreases a
  {
    if a == [] {
      assert a + b == b;
    } else {
      assert (a + b)[1..] == a[1..] + b;
      var next := h(r, a[0]);
      if next.Success? {
        FoldConcat(h, next.value, a[1..], b);
      }
    }
  }

  /** rs lists the record before each entry and after the last one. */
  ghost predicate Stages<R(!new)>(h: Handler<R>, es: seq<Entry>, rs: seq<R>) {
    |rs| == |es| + 1 &&
    forall i :: 0 <= i < |es| ==>
      if es[i].present then h(rs[i], es[i].property) == Success(rs[i + 1]) else rs[i] == rs[i + 1]
  }

  lemma {:induction false} FoldPresent<R(!new)>(h: Handler<R>, es: seq<Entry>, rs: seq<R>)
    requires Stages(h, es, rs)
    ensures Fold(h, rs[0], Present(es)) == Success(rs[|es|])
    decreases es
  {
    if es != [] {
      var es', rs' := es[1..], rs[1..];
      forall i | 0 <= i < |es'|
        ensures if es'[i].present then h(rs'[i], es'[i].property) == Success(rs'[i + 1]) else rs'[i] == rs'[i + 1]
      {
        assert es'[i] == es[i + 1] && rs'[i] == rs[i + 1] && rs'[i + 1] == rs[i + 2];
      }
      FoldPresent(h, es', rs');
      FoldConcat(h, rs[0], [es[0].property], Present(es'));
      assert [] + Present(es') == Present(es');
    }
  }

  /** How a handler treats the identifiers it does not know: as `properties_t_base` does. `put`
      stores the shared part in a record. */
  ghost predicate Delegates<R(!new)>(h: Handler<R>, put: (R, Base) -> R, known: set<uint32>, r: R) {
    forall b: Base, p: Property {:trigger h(put(r, b), p)} :: p.identifier !in known ==>
      h(put(r, b), p) ==
        if HandleBase(b, p).Success? then Success(put(r, HandleBase(b, p).value))
        else Failure(HandleBase(b, p).error)
  }

  lemma {:induction false} FoldUsers<R(!new)>(h: Handler<R>, put: (R, Base) -> R, known: set<uint32>, r: R, b: Base,
        kvs: seq<KeyValue>)
    requires Delegates(h, put, known, r) && USER_PROPERTY !in known
    ensures Fold(h, put(r, b), Users(kvs)) == Success(put(r, b.(users := b.users + kvs)))
    decreases kvs
  {
    if kvs == [] {
      assert b.users + kvs == b.users;
    } else {
      var b' := b.(users := b.users + [kvs[0]]);
      assert HandleBase(b, Users(kvs)[0]) == Success(b');
      assert Users(kvs)[1..] == Users(kvs[1..]);
      FoldUsers(h, put, known, r, b', kvs[1..]);
      assert b.users + [kvs[0]] + kvs[1..] == b.users + kvs;
    }
  }

  lemma {:induction false} FoldUnknown<R(!new)>(h: Handler<R>, put: (R, Base) -> R, known: set<uint32>, r: R, b: Base,
        ps: seq<Property>)
    requires Delegates(h, put, known, r)
    requires forall i :: 0 <= i < |ps| ==> ps[i].identifier !in known && ps[i].identifier != USER_PROPERTY
    ensures Fold(h, put(r, b), ps) == Success(put(r, b.(unknown := b.unknown + ps)))
    decreases ps
  {
    if ps == [] {
      assert b.unknown + ps == b.unknown;
    } else {
      var b' := b.(unknown := b.unknown + [ps[0]]);
      assert HandleBase(b, ps[0]) == Success(b');
      FoldUnknown(h, put, known, r, b', ps[1..]);
      assert b.unknown + [ps[0]] + ps[1..] == b.unknown + ps;
    }
  }

  // ---------------------------------------------------------------- well-formed parts

  /** Unknown properties are typed by their identifier, and no two of them, nor one of them and a
      field of the record, share an identifier. */
  predicate GoodBase(b: Base, known: set<uint32>) {
    && (forall i :: 0 <= i < |b.users| ==> PairFitsPrefix(b.users[i]))
    && (forall i :: 0 <= i < |b.unknown| ==>
          WellTyped(b.unknown[i]) && b.unknown[i].identifier !in known && b.unknown[i].identifier != USER_PROPERTY)
    && Distinct(b.unknown)
  }

  /** The same of a record's own fields, given as its list of conditional additions. */
  predicate GoodEntries(es: seq<Entry>, known: set<uint32>) {
    && (forall i :: 0 <= i < |es| && es[i].present ==> WellTyped(es[i].property))
    && (forall i :: 0 <= i < |es| ==> es[i].property.identifier in known)
    && (forall i, j :: 0 <= i < j < |es| ==> es[i].property.identifier != es[j].property.identifier)
  }

  lemma {:induction false} PresentFromEntries(es: seq<Entry>, i: nat)
    requires i < |Present(es)|
    ensures exists j :: 0 <= j < |es| && es[j].present && es[j].property == Present(es)[i]
  {
    var head := if es[0].present then [es[0].property] else [];
    if i < |head| {
      assert es[0].property == Present(es)[i];
    } else {
      PresentFromEntries(es[1..], i - |head|);
      var j :| 0 <= j < |es[1..]| && es[1..][j].present && es[1..][j].property == Present(es[1..])[i - |head|];
      assert es[j + 1] == es[1..][j];
    }
  }

  lemma {:induction false} PresentDistinct(es: seq<Entry>)
    requires forall i, j :: 0 <= i < j < |es| ==> es[i].property.identifier != es[j].property.identifier
    ensures Distinct(Present(es))
  {
    if es != [] {
      PresentDistinct(es[1..]);
      forall k | 0 <= k < |Present(es[1..])|
        ensures Present(es[1..])[k].identifier != es[0].property.identifier
      {
        PresentFromEntries(es[1..], k);
        var j :| 0 <= j < |es[1..]| && es[1..][j].property == Present(es[1..])[k];
        assert es[j + 1] == es[1..][j];
      }
    }
  }

  lemma GoodPresent(es: seq<Entry>, known: set<uint32>)
    requires GoodEntries(es, known)
    ensures AllWellTyped(Present(es)) && Distinct(Present(es))
    ensures forall k :: 0 <= k < |Present(es)| ==> Present(es)[k].identifier in known
  {
    PresentDistinct(es);
    forall k | 0 <= k < |Present(es)|
      ensures WellTyped(Present(es)[k]) && Present(es)[k].identifier in known
    {
      PresentFromEntries(es, k);
    }
  }

  lemma DistinctConcat(a: seq<Property>, b: seq<Property>)
    requires Distinct(a) && Distinct(b) && AllWellTyped(a) && AllWellTyped(b)
    requires forall i, j :: 0 <= i < |a| && 0 <= j < |b| && a[i].identifier == b[j].identifier ==>
               a[i].identifier == USER_PROPERTY
    ensures Distinct(a + b) && AllWellTyped(a + b)
  {
    var ab := a + b;
    forall i, j | 0 <= i < j < |ab| && ab[i].identifier == ab[j].identifier
      ensures ab[i].identifier == USER_PROPERTY
    {
      if j < |a| {
        assert ab[i] == a[i] && ab[j] == a[j];
      } else if i >= |a| {
        assert ab[i] == b[i - |a|] && ab[j] == b[j - |a|];
      } else {
        assert ab[i] == a[i] && ab[j] == b[j - |a|];
      }
    }
  }

  lemma GoodAdded(es: seq<Entry>, b: Base, known: set<uint32>)
    requires GoodEntries(es, known) && GoodBase(b, known) && USER_PROPERTY !in known
    ensures Distinct(Added(es, b)) && AllWellTyped(Added(es, b))
  {
    GoodPresent(es, known);
    var tail := Users(b.users) + b.unknown;
    DistinctConcat(Users(b.users), b.unknown);
    forall j | 0 <= j < |tail|
      ensures tail[j].identifier == USER_PROPERTY || tail[j].identifier !in known
    {
      if j >= |b.users| {
        assert tail[j] == b.unknown[j - |b.users|];
      }
    }
    DistinctConcat(Present(es), tail);
  }

  // ---------------------------------------------------------------- the generic round trip

  lemma FoldAdded<R(!new)>(h: Handler<R>, put: (R, Base) -> R, known: set<uint32>, es: seq<Entry>, start: R, r: R,
        b: Base)
    requires GoodBase(b, known) && USER_PROPERTY !in known
    requires Fold(h, start, Present(es)) == Success(r)
    requires Delegates(h, put, known, r) && put(r, NO_BASE) == r
    ensures Fold(h, start, Added(es, b)) == Success(put(r, b))
  {
    FoldConcat(h, start, Present(es), Users(b.users) + b.unknown);
    FoldUsers(h, put, known, r, NO_BASE, b.users);
    FoldConcat(h, r, Users(b.users), b.unknown);
    assert [] + b.users == b.users && [] + b.unknown == b.unknown;
    FoldUnknown(h, put, known, r, Base(b.users, []), b.unknown);
  }

  /** A list without clashes goes into the generic list unchanged, through the bytes, and back
      into the fold. */
  lemma ThroughBytes<R(!new)>(h: Handler<R>, start: R, ps: seq<Property>, rest: bytes)
    requires Distinct(ps) && AllWellTyped(ps)
    requires Print(AddAll([], ps)).Success? && |PrintAll(AddAll([], ps)).value| < 0x1_0000_0000
    ensures AddAll([], ps) == ps
    ensures ParseRecord(h, start, Print(ps).value + rest) ==
            if Fold(h, start, ps).Success? then Success((Fold(h, start, ps).value, rest))
            else Failure(Fold(h, start, ps).error)
  {
    assert [] + ps == ps;
    AddAllDistinct([], ps);
    RoundTrip(ps, rest);
  }

  predicate Fits(printed: Result<bytes>) {
    printed.Success? && |printed.value| < 0x1_0000_0000
  }

  lemma RecordRoundTrip<R(!new)>(h: Handler<R>, put: (R, Base) -> R, known: set<uint32>, es: seq<Entry>, start: R,
        r: R, b: Base, rest: bytes)
    requires GoodEntries(es, known) && GoodBase(b, known) && USER_PROPERTY !in known
    requires Fold(h, start, Present(es)) == Success(r)
    requires Delegates(h, put, known, r) && put(r, NO_BASE) == r
    requires Fits(PrintRecord(es, b))
    ensures ParseRecord(h, start, PrintRecord(es, b).value + rest) == Success((put(r, b), rest))
  {
    GoodAdded(es, b, known);
    FoldAdded(h, put, known, es, start, r, b);
    ThroughBytes(h, start, Added(es, b), rest);
  }

  // ---------------------------------------------------------------- record by record

  const SESSION_KNOWN: set<uint32> := {17, 21, 22, 33, 34, 39}
  const CONNECT_KNOWN: set<uint32> := {17, 21, 22, 23, 25, 33, 34, 39}
  const CONNACK_KNOWN: set<uint32> := {17, 18, 19, 21, 22, 26, 28, 31, 33, 34, 36, 37, 39, 40, 41, 42}
  const WILL_KNOWN: set<uint32> := {1, 2, 3, 8, 9, 24}
  const PUBLISH_KNOWN: set<uint32> := {1, 2, 3, 8, 9, 11, 35}
  const REASON_KNOWN: set<uint32> := {31}
  const SUBSCRIBE_KNOWN: set<uint32> := {11}
  const DISCONNECT_KNOWN: set<uint32> := {17, 28, 31}

  predicate GoodSession(r: SessionProperties, known: set<uint32>) {
    FitsPrefix(r.authenticationMethod) && FitsPrefix(r.authenticationData) && GoodBase(r.base, known)
  }

  predicate GoodConnect(r: ConnectProperties) {
    GoodSession(r.session, CONNECT_KNOWN)
  }

  predicate GoodConnack(r: ConnackProperties) {
    && GoodSession(r.session, CONNACK_KNOWN)
    && FitsPrefix(r.assignedClientId) && FitsPrefix(r.reasonString) && FitsPrefix(r.responseInformation)
    && FitsPrefix(r.serverReference)
  }

  predicate GoodWill(r: WillProperties) {
    && FitsPrefix(r.contentType) && FitsPrefix(r.responseTopic) && FitsPrefix(r.correlationData)
    && GoodBase(r.base, WILL_KNOWN)
  }

  predicate GoodPublish(r: PublishProperties) {
    && FitsPrefix(r.contentType) && FitsPrefix(r.responseTopic) && FitsPrefix(r.correlationData)
    && GoodBase(r.base, PUBLISH_KNOWN)
  }

  predicate GoodReason(r: ReasonProperties) {
    FitsPrefix(r.reasonString) && GoodBase(r.base, REASON_KNOWN)
  }

  predicate GoodSubscribe(r: SubscribeProperties) {
    GoodBase(r.base, SUBSCRIBE_KNOWN)
  }

  predicate GoodUnsubscribe(r: UnsubscribeProperties) {
    GoodBase(r.base, {})
  }

  predicate GoodDisconnect(r: DisconnectProperties) {
    FitsPrefix(r.reasonString) && FitsPrefix(r.serverReference) && GoodBase(r.base, DISCONNECT_KNOWN)
  }

  /** Authentication data without a method is not written. */
  function CanonicalSession(r: SessionProperties): SessionProperties {
    if r.authenticationMethod == [] then r.(authenticationData := []) else r
  }

  lemma ReasonRoundTrip(r: ReasonProperties, rest: bytes)
    requires GoodReason(r) && Fits(PrintRecord(ReasonEntries(r), r.base))
    ensures ParseRecord(HandleReason, NO_REASON, PrintRecord(ReasonEntries(r), r.base).value + rest)
            == Success((r, rest))
  {
    var put := (x: ReasonProperties, b: Base) => x.(base := b);
    FoldPresent(HandleReason, ReasonEntries(r), [NO_REASON, r.(base := NO_BASE)]);
    RecordRoundTrip(HandleReason, put, REASON_KNOWN, ReasonEntries(r), NO_REASON, r.(base := NO_BASE), r.base, rest);
  }

  lemma UnsubscribeRoundTrip(r: UnsubscribeProperties, rest: bytes)
    requires GoodUnsubscribe(r) && Fits(PrintRecord([], r.base))
    ensures ParseRecord(HandleUnsubscribe, NO_UNSUBSCRIBE, PrintRecord([], r.base).value + rest) == Success((r, rest))
  {
    var put := (x: UnsubscribeProperties, b: Base) => x.(base := b);
    RecordRoundTrip(HandleUnsubscribe, put, {}, [], NO_UNSUBSCRIBE, NO_UNSUBSCRIBE, r.base, rest);
  }

  /** Only a zero subscription identifier can be written at all. */
  lemma SubscribeRoundTrip(r: SubscribeProperties, rest: bytes)
    requires GoodSubscribe(r) && Fits(PrintSubscribe(r))
    ensures ParseRecord(HandleSubscribe, NO_SUBSCRIBE, PrintSubscribe(r).value + rest) == Success((r, rest))
  {
    var put := (x: SubscribeProperties, b: Base) => x.(base := b);
    RecordRoundTrip(HandleSubscribe, put, SUBSCRIBE_KNOWN, [], NO_SUBSCRIBE, NO_SUBSCRIBE, r.base, rest);
  }

  lemma FoldDisconnect(r: DisconnectProperties)
    ensures Fold(HandleDisconnect, NO_DISCONNECT, Present(DisconnectEntries(r))) == Success(r.(base := NO_BASE))
  {
    var s1 := NO_DISCONNECT.(sessionExpiry := r.sessionExpiry);
    var s2 := s1.(reasonString := r.reasonString);
    FoldPresent(HandleDisconnect, DisconnectEntries(r), [NO_DISCONNECT, s1, s2, r.(base := NO_BASE)]);
  }

  lemma GoodDisconnectEntries(r: DisconnectProperties)
    requires GoodDisconnect(r)
    ensures GoodEntries(DisconnectEntries(r), DISCONNECT_KNOWN)
  {
  }

  lemma DisconnectRoundTrip(r: DisconnectProperties, rest: bytes)
    requires GoodDisconnect(r) && Fits(PrintRecord(DisconnectEntries(r), r.base))
    ensures ParseRecord(HandleDisconnect, NO_DISCONNECT, PrintRecord(DisconnectEntries(r), r.base).value + rest)
            == Success((r, rest))
  {
    var put := (x: DisconnectProperties, b: Base) => x.(base := b);
    FoldDisconnect(r);
    GoodDisconnectEntries(r);
    RecordRoundTrip(HandleDisconnect, put, DISCONNECT_KNOWN, DisconnectEntries(r), NO_DISCONNECT, r.(base := NO_BASE),
        r.base, rest);
  }

  lemma FoldWill(r: WillProperties)
    ensures Fold(HandleWill, NO_WILL, Present(WillEntries(r))) == Success(r.(base := NO_BASE))
  {
    var s1 := NO_WILL.(contentType := r.contentType);
    var s2 := s1.(correlationData := r.correlationData);
    var s3 := s2.(responseTopic := r.responseTopic);
    var s4 := s3.(payloadFormat := r.payloadFormat);
    var s5 := s4.(delay := r.delay);
    FoldPresent(HandleWill, WillEntries(r), [NO_WILL, s1, s2, s3, s4, s5, r.(base := NO_BASE)]);
  }

  lemma GoodWillEntries(r: WillProperties)
    requires GoodWill(r)
    ensures GoodEntries(WillEntries(r), WILL_KNOWN)
  {
  }

  lemma WillRoundTrip(r: WillProperties, rest: bytes)
    requires GoodWill(r) && Fits(PrintRecord(WillEntries(r), r.base))
    ensures ParseRecord(HandleWill, NO_WILL, PrintRecord(WillEntries(r), r.base).value + rest) == Success((r, rest))
  {
    var put := (x: WillProperties, b: Base) => x.(base := b);
    FoldWill(r);
    GoodWillEntries(r);
    RecordRoundTrip(HandleWill, put, WILL_KNOWN, WillEntries(r), NO_WILL, r.(base := NO_BASE), r.base, rest);
  }

  // The session fields sit inside two larger records.

  lemma FoldSession(r: SessionProperties)
    ensures Fold(HandleSession, NO_SESSION, Present(SessionEntries(r)))
            == Success(CanonicalSession(r).(base := NO_BASE))
  {
    var s1 := NO_SESSION.(authenticationMethod := r.authenticationMethod);
    var s2 := s1.(authenticationData := CanonicalSession(r).authenticationData);
    var s3 := s2.(sessionExpiry := r.sessionExpiry);
    var s4 := s3.(maximumPacketSize := r.maximumPacketSize);
    var s5 := s4.(topicAliasMaximum := r.topicAliasMaximum);
    FoldPresent(HandleSession, SessionEntries(r),
        [NO_SESSION, s1, s2, s3, s4, s5, s5.(receiveMaximum := r.receiveMaximum)]);
  }

  ghost predicate Embeds<R(!new)>(h: Handler<R>, put: (R, SessionProperties) -> R, r: R) {
    forall s: SessionProperties, p: Property {:trigger h(put(r, s), p)} :: p.identifier in SESSION_KNOWN ==>
      h(put(r, s), p) ==
        if HandleSession(s, p).Success? then Success(put(r, HandleSession(s, p).value))
        else Failure(HandleSession(s, p).error)
  }

  lemma {:induction false} FoldEmbedded<R(!new)>(h: Handler<R>, put: (R, SessionProperties) -> R, r: R,
        s: SessionProperties, ps: seq<Property>)
    requires Embeds(h, put, r) && Fold(HandleSession, s, ps).Success?
    requires forall i :: 0 <= i < |ps| ==> ps[i].identifier in SESSION_KNOWN
    ensures Fold(h, put(r, s), ps) == Success(put(r, Fold(HandleSession, s, ps).value))
    decreases ps
  {
    if ps != [] {
      FoldEmbedded(h, put, r, HandleSession(s, ps[0]).value, ps[1..]);
    }
  }

  lemma {:induction false} PresentConcat(a: seq<Entry>, b: seq<Entry>)
    ensures Present(a + b) == Present(a) + Present(b)
  {
    if a == [] {
      assert a + b == b;
    } else {
      assert (a + b)[1..] == a[1..] + b;
      PresentConcat(a[1..], b);
    }
  }

  lemma GoodSessionEntries(r: SessionProperties, known: set<uint32>)
    requires GoodSession(r, known)
    ensures GoodEntries(SessionEntries(r), SESSION_KNOWN)
  {
  }

  lemma GoodEntriesConcat(a: seq<Entry>, ka: set<uint32>, b: seq<Entry>, kb: set<uint32>, known: set<uint32>)
    requires GoodEntries(a, ka) && GoodEntries(b, kb) && ka !! kb && ka + kb <= known
    ensures GoodEntries(a + b, known)
  {
    var ab := a + b;
    forall i | 0 <= i < |ab|
      ensures ab[i].property.identifier in known
      ensures ab[i].present ==> WellTyped(ab[i].property)
    {
      assert ab[i] == if i < |a| then a[i] else b[i - |a|];
    }
    forall i, j | 0 <= i < j < |ab|
      ensures ab[i].property.identifier != ab[j].property.identifier
    {
      assert ab[i].property.identifier in if i < |a| then ka else kb;
      assert ab[j].property.identifier in if j < |a| then ka else kb;
    }
  }

  /** Own entries first, then the session's. */
  lemma FoldWithSession<R(!new)>(h: Handler<R>, put: (R, SessionProperties) -> R, own: seq<Entry>, start: R, mid: R,
        s: SessionProperties)
    requires Fold(h, start, Present(own)) == Success(mid)
    requires Embeds(h, put, mid) && put(mid, NO_SESSION) == mid
    ensures Fold(h, start, Present(own + SessionEntries(s))) == Success(put(mid, CanonicalSession(s).(base := NO_BASE)))
  {
    PresentConcat(own, SessionEntries(s));
    FoldConcat(h, start, Present(own), Present(SessionEntries(s)));
    FoldSession(s);
    forall i | 0 <= i < |Present(SessionEntries(s))|
      ensures Present(SessionEntries(s))[i].identifier in SESSION_KNOWN
    {
      PresentFromEntries(SessionEntries(s), i);
    }
    FoldEmbedded(h, put, mid, NO_SESSION, Present(SessionEntries(s)));
  }

  lemma ConnectDelegates(put: (ConnectProperties, Base) -> ConnectProperties, r: ConnectProperties)
    requires forall x, b :: put(x, b) == x.(session := x.session.(base := b))
    ensures Delegates(HandleConnect, put, CONNECT_KNOWN, r)
  {
  }

  lemma ConnectEmbeds(embed: (ConnectProperties, SessionProperties) -> ConnectProperties, r: ConnectProperties)
    requires forall x, s :: embed(x, s) == x.(session := s)
    ensures Embeds(HandleConnect, embed, r)
  {
  }

  lemma FoldConnect(r: ConnectProperties)
    ensures Fold(HandleConnect, NO_CONNECT, Present(ConnectEntries(r)))
            == Success(r.(session := CanonicalSession(r.session).(base := NO_BASE)))
  {
    var embed := (x: ConnectProperties, s: SessionProperties) => x.(session := s);
    var own := r.(session := NO_SESSION);
    ConnectEmbeds(embed, own);
    FoldPresent(HandleConnect, ConnectOwnEntries(r),
        [NO_CONNECT, NO_CONNECT.(requestResponse := r.requestResponse), own]);
    FoldWithSession(HandleConnect, embed, ConnectOwnEntries(r), NO_CONNECT, own, r.session);
  }

  lemma GoodConnectEntries(r: ConnectProperties)
    requires GoodConnect(r)
    ensures GoodEntries(ConnectEntries(r), CONNECT_KNOWN)
  {
    GoodSessionEntries(r.session, CONNECT_KNOWN);
    GoodEntriesConcat(ConnectOwnEntries(r), {23, 25}, SessionEntries(r.session), SESSION_KNOWN, CONNECT_KNOWN);
  }

  lemma ConnectRoundTrip(r: ConnectProperties, rest: bytes)
    requires GoodConnect(r) && Fits(PrintRecord(ConnectEntries(r), r.session.base))
    ensures ParseRecord(HandleConnect, NO_CONNECT, PrintRecord(ConnectEntries(r), r.session.base).value + rest)
            == Success((r.(session := CanonicalSession(r.session)), rest))
  {
    hide HandleConnect, ConnectEntries, GoodEntries, Delegates;
    var put := (x: ConnectProperties, b: Base) => x.(session := x.session.(base := b));
    var last := r.(session := CanonicalSession(r.session).(base := NO_BASE));
    FoldConnect(r);
    ConnectDelegates(put, last);
    GoodConnectEntries(r);
    RecordRoundTrip(HandleConnect, put, CONNECT_KNOWN, ConnectEntries(r), NO_CONNECT, last, r.session.base, rest);
  }

  lemma FoldConnackA(r: ConnackProperties)
    ensures Fold(HandleConnack, NO_CONNACK, Present(ConnackEntriesA(r)))
            == Success(NO_CONNACK.(retain := r.retain, maximumQos := r.maximumQos,
                                   assignedClientId := r.assignedClientId,
                                   reasonString := r.reasonString, wildcards := r.wildcards))
  {
    var s1 := NO_CONNACK.(retain := r.retain);
    var s2 := s1.(maximumQos := r.maximumQos);
    var s3 := s2.(assignedClientId := r.assignedClientId);
    var s4 := s3.(reasonString := r.reasonString);
    FoldPresent(HandleConnack, ConnackEntriesA(r), [NO_CONNACK, s1, s2, s3, s4, s4.(wildcards := r.wildcards)]);
  }

  lemma ConnackFlags(s: ConnackProperties, t: ConnackProperties, r: ConnackProperties)
    ensures HandleConnack(s, Flag(SUBSCRIPTION_IDENTIFIERS_AVAILABLE, r.subscriptionIdentifiers))
            == Success(s.(subscriptionIdentifiers := r.subscriptionIdentifiers))
    ensures HandleConnack(t, Flag(SHARED_SUBSCRIPTION_AVAILABLE, r.sharedSubscriptions))
            == Success(t.(sharedSubscriptions := r.sharedSubscriptions))
  {
  }

  lemma ConnackTexts(s: ConnackProperties, t: ConnackProperties, u: ConnackProperties, r: ConnackProperties)
    ensures HandleConnack(s, Property(SERVER_KEEP_ALIVE, Short(r.serverKeepAlive)))
            == Success(s.(serverKeepAlive := r.serverKeepAlive))
    ensures HandleConnack(t, Property(RESPONSE_INFORMATION, Text(r.responseInformation)))
            == Success(t.(responseInformation := r.responseInformation))
    ensures HandleConnack(u, Property(SERVER_REFERENCE, Text(r.serverReference)))
            == Success(u.(serverReference := r.serverReference))
  {
  }

  lemma FoldConnackB(s0: ConnackProperties, r: ConnackProperties)
    requires s0.subscriptionIdentifiers && s0.sharedSubscriptions && s0.serverKeepAlive == 0
    requires s0.responseInformation == [] && s0.serverReference == []
    ensures Fold(HandleConnack, s0, Present(ConnackEntriesB(r)))
            == Success(s0.(subscriptionIdentifiers := r.subscriptionIdentifiers,
                           sharedSubscriptions := r.sharedSubscriptions,
                           serverKeepAlive := r.serverKeepAlive, responseInformation := r.responseInformation,
                           serverReference := r.serverReference))
  {
    var s1 := s0.(subscriptionIdentifiers := r.subscriptionIdentifiers);
    var s2 := s1.(sharedSubscriptions := r.sharedSubscriptions);
    var s3 := s2.(serverKeepAlive := r.serverKeepAlive);
    var s4 := s3.(responseInformation := r.responseInformation);
    hide HandleConnack;
    ConnackFlags(s0, s1, r);
    ConnackTexts(s2, s3, s4, r);
    FoldPresent(HandleConnack, ConnackEntriesB(r), [s0, s1, s2, s3, s4, s4.(serverReference := r.serverReference)]);
  }

  lemma FoldConnackOwn(r: ConnackProperties)
    ensures Fold(HandleConnack, NO_CONNACK, Present(ConnackEntriesA(r) + ConnackEntriesB(r)))
            == Success(r.(session := NO_SESSION))
  {
    var mid := NO_CONNACK.(retain := r.retain, maximumQos := r.maximumQos, assignedClientId := r.assignedClientId,
                           reasonString := r.reasonString, wildcards := r.wildcards);
    FoldConnackA(r);
    FoldConnackB(mid, r);
    PresentConcat(ConnackEntriesA(r), ConnackEntriesB(r));
    FoldConcat(HandleConnack, NO_CONNACK, Present(ConnackEntriesA(r)), Present(ConnackEntriesB(r)));
  }

  const CONNACK_A: set<uint32> := {18, 31, 36, 37, 40}
  const CONNACK_B: set<uint32> := {19, 26, 28, 41, 42}

  lemma GoodConnackA(r: ConnackProperties)
    requires GoodConnack(r)
    ensures GoodEntries(ConnackEntriesA(r), CONNACK_A)
  {
  }

  lemma GoodConnackB(r: ConnackProperties)
    requires GoodConnack(r)
    ensures GoodEntries(ConnackEntriesB(r), CONNACK_B)
  {
  }

  lemma GoodConnackEntries(r: ConnackProperties)
    requires GoodConnack(r)
    ensures GoodEntries(ConnackEntries(r), CONNACK_KNOWN)
  {
    GoodConnackA(r);
    GoodConnackB(r);
    GoodSessionEntries(r.session, CONNACK_KNOWN);
    GoodEntriesConcat(ConnackEntriesA(r), CONNACK_A, ConnackEntriesB(r), CONNACK_B, CONNACK_A + CONNACK_B);
    GoodEntriesConcat(ConnackEntriesA(r) + ConnackEntriesB(r), CONNACK_A + CONNACK_B,
                      SessionEntries(r.session), SESSION_KNOWN, CONNACK_KNOWN);
  }

  lemma ConnackDelegates(put: (ConnackProperties, Base) -> ConnackProperties, r: ConnackProperties)
    requires forall x, b :: put(x, b) == x.(session := x.session.(base := b))
    ensures Delegates(HandleConnack, put, CONNACK_KNOWN, r)
  {
    forall b: Base, p: Property | p.identifier !in CONNACK_KNOWN
      ensures HandleConnack(put(r, b), p) ==
                if HandleBase(b, p).Success? then Success(put(r, HandleBase(b, p).value))
                else Failure(HandleBase(b, p).error)
    {
      UnknownToConnack(put(r, b), p);
    }
  }

  lemma UnknownToConnack(r: ConnackProperties, p: Property)
    requires p.identifier !in CONNACK_KNOWN
    ensures HandleConnack(r, p) ==
              if HandleBase(r.session.base, p).Success?
              then Success(r.(session := r.session.(base := HandleBase(r.session.base, p).value)))
              else Failure(HandleBase(r.session.base, p).error)
  {
  }

  lemma ConnackEmbeds(embed: (ConnackProperties, SessionProperties) -> ConnackProperties, r: ConnackProperties)
    requires forall x, s :: embed(x, s) == x.(session := s)
    ensures Embeds(HandleConnack, embed, r)
  {
  }

  lemma FoldConnack(r: ConnackProperties)
    ensures Fold(HandleConnack, NO_CONNACK, Present(ConnackEntries(r)))
            == Success(r.(session := CanonicalSession(r.session).(base := NO_BASE)))
  {
    var embed := (x: ConnackProperties, s: SessionProperties) => x.(session := s);
    var own := r.(session := NO_SESSION);
    FoldConnackOwn(r);
    ConnackEmbeds(embed, own);
    FoldWithSession(HandleConnack, embed, ConnackEntriesA(r) + ConnackEntriesB(r), NO_CONNACK, own, r.session);
  }

  lemma ConnackRoundTrip(r: ConnackProperties, rest: bytes)
    requires GoodConnack(r) && Fits(PrintRecord(ConnackEntries(r), r.session.base))
    ensures ParseRecord(HandleConnack, NO_CONNACK, PrintRecord(ConnackEntries(r), r.session.base).value + rest)
            == Success((r.(session := CanonicalSession(r.session)), rest))
  {
    hide HandleConnack, ConnackEntries, GoodEntries, Delegates, PrintRecord, ParseRecord, Fold;
    var put := (x: ConnackProperties, b: Base) => x.(session := x.session.(base := b));
    var last := r.(session := CanonicalSession(r.session).(base := NO_BASE));
    FoldConnack(r);
    ConnackDelegates(put, last);
    GoodConnackEntries(r);
    RecordRoundTrip(HandleConnack, put, CONNACK_KNOWN, ConnackEntries(r), NO_CONNACK, last, r.session.base, rest);
  }

  /** User properties are written twice, and the expiry interval keeps its low 16 bits. */
  function CanonicalPublish(r: PublishProperties): PublishProperties {
    r.(base := r.base.(users := r.base.users + r.base.users), expiry := Low16(r.expiry))
  }

  lemma PublishAddedIsGood(r: PublishProperties)
    requires GoodPublish(r)
    ensures Distinct(PublishAdded(r)) && AllWellTyped(PublishAdded(r))
  {
    var a, b := Present(PublishEntriesA(r)), Added(PublishEntriesB(r), r.base);
    GoodPresent(PublishEntriesA(r), {3, 8, 9});
    GoodPresent(PublishEntriesB(r), {1, 2, 35});
    GoodAdded(PublishEntriesB(r), r.base, {1, 2, 35});
    DistinctConcat(Users(r.base.users), b);
    var tail := Users(r.base.users) + b;
    forall j | 0 <= j < |tail|
      ensures tail[j].identifier == USER_PROPERTY || tail[j].identifier !in {3, 8, 9}
    {
      var n, k := |r.base.users|, |Present(PublishEntriesB(r))|;
      if n <= j < n + k {
        assert tail[j] == Present(PublishEntriesB(r))[j - n];
      } else if n + k + n <= j {
        assert tail[j] == r.base.unknown[j - n - k - n];
      }
    }
    DistinctConcat(a, tail);
  }

  lemma FoldPublishA(r: PublishProperties)
    ensures var s := NO_PUBLISH.(responseTopic := r.responseTopic, contentType := r.contentType,
            correlationData := r.correlationData);
            Fold(HandlePublish, NO_PUBLISH, Present(PublishEntriesA(r))) == Success(s)
  {
    var s1 := NO_PUBLISH.(responseTopic := r.responseTopic);
    var s2 := s1.(contentType := r.contentType);
    FoldPresent(HandlePublish, PublishEntriesA(r), [NO_PUBLISH, s1, s2, s2.(correlationData := r.correlationData)]);
  }

  lemma FoldPublishB(start: PublishProperties, r: PublishProperties)
    requires start.expiry == 0 && start.topicAlias == 0 && start.payloadFormat == 0
    ensures Fold(HandlePublish, start, Present(PublishEntriesB(r)))
            == Success(start.(expiry := Low16(r.expiry), topicAlias := r.topicAlias, payloadFormat := r.payloadFormat))
  {
    var s1 := start.(expiry := Low16(r.expiry));
    var s2 := s1.(topicAlias := r.topicAlias);
    FoldPresent(HandlePublish, PublishEntriesB(r), [start, s1, s2, s2.(payloadFormat := r.payloadFormat)]);
  }

  lemma PublishDelegates(put: (PublishProperties, Base) -> PublishProperties, r: PublishProperties)
    requires forall x, b :: put(x, b) == x.(base := b)
    ensures Delegates(HandlePublish, put, PUBLISH_KNOWN, r)
  {
  }

  lemma FoldPublish(r: PublishProperties)
    requires GoodPublish(r) && r.subscriptionIdentifier == 0
    ensures Fold(HandlePublish, NO_PUBLISH, PublishAdded(r)) == Success(CanonicalPublish(r))
  {
    var h, users := HandlePublish, Users(r.base.users);
    var put := (x: PublishProperties, b: Base) => x.(base := b);
    var s := NO_PUBLISH.(responseTopic := r.responseTopic, contentType := r.contentType,
        correlationData := r.correlationData);
    FoldPublishA(r);
    PublishDelegates(put, s);
    FoldUsers(h, put, PUBLISH_KNOWN, s, NO_BASE, r.base.users);
    assert [] + r.base.users == r.base.users && [] + r.base.unknown == r.base.unknown;
    var once, twice := Base(r.base.users, []), Base(r.base.users + r.base.users, []);
    var t := put(s, once);
    var u := t.(expiry := Low16(r.expiry), topicAlias := r.topicAlias, payloadFormat := r.payloadFormat);
    FoldPublishB(t, r);
    PublishDelegates(put, u);
    FoldUsers(h, put, PUBLISH_KNOWN, u, once, r.base.users);
    FoldUnknown(h, put, PUBLISH_KNOWN, u, twice, r.base.unknown);
    FoldConcat(h, NO_PUBLISH, Present(PublishEntriesA(r)), users + Added(PublishEntriesB(r), r.base));
    FoldConcat(h, s, users, Added(PublishEntriesB(r), r.base));
    FoldConcat(h, t, Present(PublishEntriesB(r)), users + r.base.unknown);
    FoldConcat(h, u, users, r.base.unknown);
  }

  lemma PublishRoundTrip(r: PublishProperties, rest: bytes)
    requires GoodPublish(r) && Fits(PrintPublish(r))
    ensures ParseRecord(HandlePublish, NO_PUBLISH, PrintPublish(r).value + rest) == Success((CanonicalPublish(r), rest))
  {
    FoldPublish(r);
    PublishAddedIsGood(r);
    ThroughBytes(HandlePublish, NO_PUBLISH, PublishAdded(r), rest);
  }

  /** A record in which every field has its default prints as one zero byte. */
  lemma EmptyRecord(es: seq<Entry>)
    requires forall i :: 0 <= i < |es| ==> !es[i].present
    ensures PrintRecord(es, NO_BASE) == Success([0])
  {
    NothingPresent(es);
    assert Added(es, NO_BASE) == [];
    assert PrintAll([]) == Success([]) && VarInt.Print(0) == Success([0]);
    assert [0] + [] == [0];
  }

  lemma {:induction false} NothingPresent(es: seq<Entry>)
    requires forall i :: 0 <= i < |es| ==> !es[i].present
    ensures Present(es) == []
  {
    if es != [] {
      NothingPresent(es[1..]);
    }
  }
}
