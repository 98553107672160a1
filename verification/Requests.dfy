/** What the application's options become in the packets: the flag nibble of a PUBLISH, and the
    topics of a SUBSCRIBE. */
module Requests {
  import opened Bytes
  import opened Primitives
  import opened RecordRoundTrips
  import opened Packets
  import opened PacketRoundTrips
  import Records
  import TopicFilter

  // ---------------------------------------------------------------- PUBLISH flags

  /** The fixed-header flags of a PUBLISH, with the setters of the message. */
  class PublishFlags {
    var headerFlags: nibble

    constructor ()
      ensures headerFlags == 0
    {
      headerFlags := 0;
    }

    predicate Duplicate()
      reads this
    {
      headerFlags / 8 % 2 == 1
    }

    function QualityOfService(): (q: nat)
      reads this
      ensures forall m: Publish :: m.flags == headerFlags ==> m.Qos() == q
    {
      headerFlags / 2 % 4
    }

    predicate Retain()
      reads this
    {
      headerFlags % 2 == 1
    }

    /** Masks with 0x07 and adds bit 3. */
    method SetDuplicate(dup: bool)
      modifies this
      ensures Duplicate() == dup && QualityOfService() == old(QualityOfService()) && Retain() == old(Retain())
    {
      headerFlags := headerFlags % 8 + (if dup then 8 else 0);
    }

    /** Masks with 0x09 and adds bits 1 and 2. A QoS 0 message is never a duplicate. */
    method SetQualityOfService(qos: nat)
      requires qos <= 2
      modifies this
      ensures QualityOfService() == qos && Retain() == old(Retain())
      ensures Duplicate() == (old(Duplicate()) && qos != 0)
    {
      if qos == 0 {
        SetDuplicate(false);
      }
      headerFlags := headerFlags / 8 * 8 + headerFlags % 2 + qos * 2;
    }

    /** Masks with 14 and adds bit 0. */
    method SetRetain(retain: bool)
      modifies this
      ensures Retain() == retain && QualityOfService() == old(QualityOfService()) && Duplicate() == old(Duplicate())
    {
      headerFlags := headerFlags / 2 * 2 + (if retain then 1 else 0);
    }
  }

  // ---------------------------------------------------------------- SUBSCRIBE topics

  /** `single_subscription`; retain handling is 0, 1 or 2. */
  datatype Wanted = Wanted(filter: seq<text>, qos: nat, noLocal: bool, retainAsPublished: bool, retainHandling: nat) {
    predicate Valid() {
      && qos <= 2 && retainHandling <= 2
      && filter != [] && (forall i :: 0 <= i < |filter| ==> 47 !in filter[i])
    }
  }

  /** The subscription says what was wanted. */
  predicate Says(t: Subscription, w: Wanted) {
    && w.filter != [] && t.topic == TopicFilter.Join(w.filter)
    && t.options % 4 == w.qos && t.options / 4 % 2 == (if w.noLocal then 1 else 0)
    && t.options / 8 % 2 == (if w.retainAsPublished then 1 else 0) && t.options / 16 == w.retainHandling
  }

  lemma OptionsSay(qos: nat, noLocal: bool, retainAsPublished: bool, handling: nat)
    requires qos <= 2 && handling <= 2
    ensures var n, r := if noLocal then 1 else 0, if retainAsPublished then 1 else 0;
            var f := qos + 4 * n + 8 * r + 16 * handling;
            f < 256 && f % 4 == qos && f / 4 % 2 == n && f / 8 % 2 == r && f / 16 == handling
  {
    var n, r := if noLocal then 1 else 0, if retainAsPublished then 1 else 0;
    var f := qos + 4 * n + 8 * r + 16 * handling;
    assert f / 4 == n + 2 * (r + 2 * handling) && f / 8 == r + 2 * handling;
  }

  method BuildTopics(ws: seq<Wanted>) returns (topics: seq<Subscription>)
    requires forall i :: 0 <= i < |ws| ==> ws[i].Valid()
    ensures |topics| == |ws| && forall i :: 0 <= i < |ws| ==> Says(topics[i], ws[i])
  {
    topics := [];
    for i := 0 to |ws|
      invariant |topics| == i && forall j :: 0 <= j < i ==> Says(topics[j], ws[j])
    {
      var s := ws[i];
      var flags := s.qos;
      if s.noLocal {
        flags := flags + 4;
      }
      if s.retainAsPublished {
        flags := flags + 8;
      }
      flags := flags + s.retainHandling * 16;
      OptionsSay(s.qos, s.noLocal, s.retainAsPublished, s.retainHandling);
      var topic := TopicFilter.ToString(s.filter);
      topics := topics + [Subscription(topic, flags)];
    }
  }

  lemma SubscribeReadsBack(s: Subscribe)
    requires s.properties == Records.NO_SUBSCRIBE && Fits(PrintBody(SubscribePacket(s)))
    requires forall i :: 0 <= i < |s.topics| ==> FitsPrefix(s.topics[i].topic)
    ensures var p := SubscribePacket(s);
            ParseBody(p.Type() * 16 + p.HeaderFlags(), PrintBody(p).value) == Success(p)
  {
    var p := SubscribePacket(s);
    assert Good(p) && Faithful(p);
    hide ParseBody, PrintBody, Good, Faithful;
    BodyRoundTripExact(p);
  }

  /** A SUBSCRIBE for any filters of legal length is read back by the server, and the server's parse
      of each topic is the filter the application gave, with its options. */
  lemma SubscribeIsUnderstood(id: uint16, ws: seq<Wanted>, topics: seq<Subscription>)
    requires forall i :: 0 <= i < |ws| ==> ws[i].Valid()
    requires |topics| == |ws| && forall i :: 0 <= i < |ws| ==> Says(topics[i], ws[i]) && FitsPrefix(topics[i].topic)
    requires Fits(PrintBody(SubscribePacket(Subscribe(id, Records.NO_SUBSCRIBE, topics))))
    ensures var p := SubscribePacket(Subscribe(id, Records.NO_SUBSCRIBE, topics));
            ParseBody(p.Type() * 16 + p.HeaderFlags(), PrintBody(p).value) == Success(p)
    ensures forall i :: 0 <= i < |ws| ==> TopicFilter.Split(topics[i].topic) == ws[i].filter
  {
    hide ParseBody, PrintBody, TopicFilter.Split;
    SubscribeReadsBack(Subscribe(id, Records.NO_SUBSCRIBE, topics));
    forall i | 0 <= i < |ws| ensures TopicFilter.Split(topics[i].topic) == ws[i].filter {
      assert ws[i].Valid() && Says(topics[i], ws[i]);
      TopicFilter.ParseOfPrint(ws[i].filter);
    }
  }
}
