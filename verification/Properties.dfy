/** Identifier-directed properties and the length-prefixed property list (MQTT 5.0 section 2.2.2). */
module Properties {
  import opened Bytes
  import opened Primitives
  import VarInt

  const USER_PROPERTY := 38

  datatype Kind = KByte | KShort | KWord | KText | KBlob | KPair

  /** The seven alternatives of the value variant. No identifier selects `Var`. */
  datatype Value =
    | Byte(b: byte)
    | Short(h: uint16)
    | Word(w: uint32)
    | Var(v: uint32)
    | Text(t: text)
    | Blob(bs: bytes)
    | Pair(kv: KeyValue)

  datatype Property = Property(identifier: uint32, value: Value)

  // ---------------------------------------------------------------- specification

  /** Which alternative an identifier activates. The switch takes an 8-bit identifier, and an
      identifier it does not know leaves the variant in its first alternative, a byte. */
  function KindOf(identifier: uint32): Kind {
    var id := identifier % 256;
    if id in {2, 17, 24, 39} then KWord
    else if id in {3, 8, 18, 21, 26, 28, 31} then KText
    else if id in {9, 11, 22} then KBlob
    else if id in {19, 33, 34, 35} then KShort
    else if id == 38 then KPair
    else KByte
  }

  function ParseValue(k: Kind, s: bytes): Result<(Value, bytes)> {
    match k
    case KByte => var (x, rest) :- ParseByte(s); Success((Byte(x), rest))
    case KShort => var (x, rest) :- ParseShort(s); Success((Short(x), rest))
    case KWord => var (x, rest) :- ParseWord(s); Success((Word(x), rest))
    case KText => var (x, rest) :- ParseText(s); Success((Text(x), rest))
    case KBlob => var (x, rest) :- ParseBinary(s); Success((Blob(x), rest))
    case KPair => var (x, rest) :- ParsePair(s); Success((Pair(x), rest))
  }

  function PrintValue(v: Value): Result<bytes> {
    match v
    case Byte(x) => Success(BigEndian(x, 1))
    case Short(x) => Success(BigEndian(x, 2))
    case Word(x) => Success(BigEndian(x, 4))
    case Var(x) => VarInt.Print(x)
    case Text(x) => Success(PrintText(x))
    case Blob(x) => Success(PrintText(x))
    case Pair(x) => Success(PrintPair(x))
  }

  function ParseProperty(s: bytes): (r: Result<(Property, bytes)>)
    ensures r.Success? ==> |r.value.1| < |s|
  {
    var (id, s1) :- VarInt.Parse(s);
    var (v, rest) :- ParseValue(KindOf(id), s1);
    Success((Property(id, v), rest))
  }

  function PrintProperty(p: Property): Result<bytes> {
    var id :- VarInt.Print(p.identifier);
    var v :- PrintValue(p.value);
    Success(id + v)
  }

  function ParseAll(s: bytes): Result<seq<Property>>
    decreases |s|
  {
    if s == [] then Success([])
    else
      var (p, rest) :- ParseProperty(s);
      var ps :- ParseAll(rest);
      Success([p] + ps)
  }

  function PrintAll(ps: seq<Property>): Result<bytes> {
    if ps == [] then Success([])
    else
      var b :- PrintProperty(ps[0]);
      var bs :- PrintAll(ps[1..]);
      Success(b + bs)
  }

  function Parse(s: bytes): Result<(seq<Property>, bytes)> {
    var (n, s1) :- VarInt.Parse(s);
    var (front, rest) :- Take(s1, n);
    var ps :- ParseAll(front);
    Success((ps, rest))
  }

  /** The length prefix comes from a 32-bit counter. */
  function Print(ps: seq<Property>): Result<bytes> {
    var body :- PrintAll(ps);
    var n :- VarInt.Print(Low32(|body|));
    Success(n + body)
  }

  function IndexOf(ps: seq<Property>, id: uint32): (i: nat)
    ensures i <= |ps|
    ensures i < |ps| ==> ps[i].identifier == id
    ensures forall j :: 0 <= j < i ==> ps[j].identifier != id
  {
    if ps == [] || ps[0].identifier == id then 0 else 1 + IndexOf(ps[1..], id)
  }

  /** `add_property`: user properties repeat, any other identifier is overwritten in place. */
  function Add(ps: seq<Property>, p: Property): seq<Property> {
    var i := IndexOf(ps, p.identifier);
    if p.identifier == USER_PROPERTY || i == |ps| then ps + [p]
    else ps[i := ps[i].(value := p.value)]
  }

  function AddAll(ps: seq<Property>, more: seq<Property>): seq<Property>
    decreases more
  {
    if more == [] then ps else AddAll(Add(ps, more[0]), more[1..])
  }

  // value_as: integral alternatives convert to each other, everything else must match

  function AsNumber(v: Value): Result<uint32> {
    match v
    case Byte(x) => Success(x)
    case Short(x) => Success(x)
    case Word(x) => Success(x)
    case Var(x) => Success(x)
    case _ => Failure(RuntimeError)
  }

  function AsText(v: Value): Result<text> {
    if v.Text? then Success(v.t) else Failure(RuntimeError)
  }

  function AsBlob(v: Value): Result<bytes> {
    if v.Blob? then Success(v.bs) else Failure(RuntimeError)
  }

  function AsPair(v: Value): Result<KeyValue> {
    if v.Pair? then Success(v.kv) else Failure(RuntimeError)
  }

  // ---------------------------------------------------------------- the code

  method SerializeProperty(p: Property, w: Sink) returns (r: Outcome)
    requires w.Valid()
    modifies w
    ensures w.Valid() && Printed(r, old(w.written), w.written, PrintProperty(p))
  {
    r := VarInt.Serialize(p.identifier, w);
    if r.Fail? {
      return;
    }
    ghost var id := w.written;
    match p.value {
      case Byte(x) => SerializeFixed(x, 1, w);
      case Short(x) => SerializeFixed(x, 2, w);
      case Word(x) => SerializeFixed(x, 4, w);
      case Var(x) => :- VarInt.Serialize(x, w);
      case Text(x) => SerializeText(x, w);
      case Blob(x) => SerializeText(x, w);
      case Pair(x) => SerializePair(x, w);
    }
    assert w.written == id + PrintValue(p.value).value;
    return Pass;
  }

  method DeserializeProperty(c: Cursor) returns (r: Result<Property>)
    modifies c
    ensures Parsed(r, c.data, ParseProperty(old(c.data)))
  {
    var id :- VarInt.Deserialize(c);
    var v: Value;
    match KindOf(id) {
      case KByte => var x :- DeserializeByte(c); v := Byte(x);
      case KShort => var x :- DeserializeShort(c); v := Short(x);
      case KWord => var x :- DeserializeWord(c); v := Word(x);
      case KText => var x :- DeserializeText(c); v := Text(x);
      case KBlob => var x :- DeserializeBinary(c); v := Blob(x);
      case KPair => var x :- DeserializePair(c); v := Pair(x);
    }
    return Success(Property(id, v));
  }

  /** One of the two passes over the list. */
  method SerializeAll(ps: seq<Property>, w: Sink) returns (r: Outcome)
    requires w.Valid()
    modifies w
    ensures w.Valid() && Printed(r, old(w.written), w.written, PrintAll(ps))
  {
    for i := 0 to |ps|
      invariant w.Valid()
      invariant match PrintAll(ps[i..])
                case Success(b) => PrintAll(ps).Success? && old(w.written) + PrintAll(ps).value == w.written + b
                case Failure(e) => PrintAll(ps) == Failure(e)
    {
      assert ps[i..][1..] == ps[i + 1..];
      ghost var before := w.written;
      :- SerializeProperty(ps[i], w);
      ghost var rest := PrintAll(ps[i + 1..]);
      if rest.Success? {
        var b := PrintProperty(ps[i]).value;
        assert before + (b + rest.value) == (before + b) + rest.value;
      }
    }
    return Pass;
  }

  method Serialize(ps: seq<Property>, w: Sink) returns (r: Outcome)
    requires w.Valid()
    modifies w
    ensures w.Valid() && Printed(r, old(w.written), w.written, Print(ps))
  {
    var counter := new Sink(true);
    :- SerializeAll(ps, counter);
    :- VarInt.Serialize(counter.count, w);
    r := SerializeAll(ps, w);
  }

  /** The parse loop: every round consumes at least one byte of the span. */
  method DeserializeAll(front: bytes) returns (r: Result<seq<Property>>)
    ensures r == ParseAll(front)
  {
    var span := new Cursor(front);
    var ps: seq<Property> := [];
    PrependNothing(ParseAll(front));
    while span.data != []
      invariant ParseAll(front) == Prepend(ps, ParseAll(span.data))
      decreases |span.data|
    {
      ghost var before, left := ps, span.data;
      var p :- DeserializeProperty(span);
      ps := ps + [p];
      PrependStep(before, left);
    }
    PrependToNothing(ps);
    return Success(ps);
  }

  function Prepend(ps: seq<Property>, r: Result<seq<Property>>): Result<seq<Property>> {
    if r.Success? then Success(ps + r.value) else r
  }

  lemma PrependNothing(r: Result<seq<Property>>)
    ensures Prepend([], r) == r
  {
    assert r.Success? ==> [] + r.value == r.value;
  }

  lemma PrependToNothing(ps: seq<Property>)
    ensures Prepend(ps, ParseAll([])) == Success(ps)
  {
    assert ps + [] == ps;
  }

  lemma PrependStep(ps: seq<Property>, s: bytes)
    requires s != []
    ensures match ParseProperty(s)
            case Success(p) => Prepend(ps, ParseAll(s)) == Prepend(ps + [p.0], ParseAll(p.1))
            case Failure(e) => Prepend(ps, ParseAll(s)) == Failure(e)
  {
    var r := ParseProperty(s);
    if r.Success? && ParseAll(r.value.1).Success? {
      Assoc(ps, [r.value.0], ParseAll(r.value.1).value);
    }
  }

  method Deserialize(c: Cursor) returns (r: Result<seq<Property>>)
    modifies c
    ensures Parsed(r, c.data, Parse(old(c.data)))
  {
    var n :- VarInt.Deserialize(c);
    var front :- c.Span(n);
    var ps :- DeserializeAll(front);
    c.Consume(n);
    return Success(ps);
  }

  method AddProperty(ps: seq<Property>, p: Property) returns (qs: seq<Property>)
    ensures qs == Add(ps, p)
  {
    if p.identifier == USER_PROPERTY {
      return ps + [p];
    }
    var i := 0;
    while i < |ps| && ps[i].identifier != p.identifier
      invariant i <= |ps| && forall j :: 0 <= j < i ==> ps[j].identifier != p.identifier
    {
      i := i + 1;
    }
    if i < |ps| {
      return ps[i := ps[i].(value := p.value)];
    }
    return ps + [p];
  }

  // ---------------------------------------------------------------- properties

  /** The stored alternative is the one the identifier activates, and prefixes do not overflow. */
  predicate WellTyped(p: Property) {
    match KindOf(p.identifier)
    case KByte => p.value.Byte?
    case KShort => p.value.Short?
    case KWord => p.value.Word?
    case KText => p.value.Text? && FitsPrefix(p.value.t)
    case KBlob => p.value.Blob? && FitsPrefix(p.value.bs)
    case KPair => p.value.Pair? && PairFitsPrefix(p.value.kv)
  }

  predicate AllWellTyped(ps: seq<Property>) {
    forall i :: 0 <= i < |ps| ==> WellTyped(ps[i])
  }

  lemma PropertyRoundTrip(p: Property, rest: bytes)
    requires WellTyped(p) && PrintProperty(p).Success?
    ensures ParseProperty(PrintProperty(p).value + rest) == Success((p, rest))
    ensures PrintProperty(p).value != []
  {
    var id, v := VarInt.Print(p.identifier).value, PrintValue(p.value).value;
    VarInt.RoundTrip(p.identifier, v + rest);
    assert PrintProperty(p).value + rest == id + (v + rest);
    match p.value
    case Byte(x) => ParseFixedOfPrint(x, 1, rest);
    case Short(x) => ParseFixedOfPrint(x, 2, rest);
    case Word(x) => ParseFixedOfPrint(x, 4, rest);
    case Var(x) =>
    case Text(x) => TextRoundTrip(x, rest);
    case Blob(x) => TextRoundTrip(x, rest);
    case Pair(x) => PairRoundTrip(x, rest);
  }

  lemma {:induction false} AllRoundTrip(ps: seq<Property>)
    requires AllWellTyped(ps) && PrintAll(ps).Success?
    ensures ParseAll(PrintAll(ps).value) == Success(ps)
  {
    if ps != [] {
      var b, bs := PrintProperty(ps[0]).value, PrintAll(ps[1..]).value;
      AllRoundTrip(ps[1..]);
      PropertyRoundTrip(ps[0], bs);
      ParseAllStep(b + bs, ps[0], bs, ps[1..]);
      assert [ps[0]] + ps[1..] == ps;
    }
  }

  lemma ParseAllStep(s: bytes, p: Property, rest: bytes, ps: seq<Property>)
    requires s != [] && ParseProperty(s) == Success((p, rest)) && ParseAll(rest) == Success(ps)
    ensures ParseAll(s) == Success([p] + ps)
  {
  }

  lemma TakeFront(front: bytes, rest: bytes)
    ensures Take(front + rest, |front|) == Success((front, rest))
  {
    assert (front + rest)[..|front|] == front && (front + rest)[|front|..] == rest;
  }

  lemma ParseFramed(s: bytes, body: bytes, rest: bytes, ps: seq<Property>)
    requires VarInt.Parse(s) == Success((|body|, body + rest))
    requires ParseAll(body) == Success(ps)
    ensures Parse(s) == Success((ps, rest))
  {
    TakeFront(body, rest);
  }

  lemma PrintFramed(ps: seq<Property>)
    requires Print(ps).Success? && |PrintAll(ps).value| < 0x1_0000_0000
    ensures var body := PrintAll(ps).value;
            VarInt.Print(|body|).Success? && Print(ps).value == VarInt.Print(|body|).value + body
  {
  }

  /** A printed list parses back with any suffix. */
  lemma RoundTrip(ps: seq<Property>, rest: bytes)
    requires AllWellTyped(ps) && Print(ps).Success?
    requires |PrintAll(ps).value| < 0x1_0000_0000
    ensures Parse(Print(ps).value + rest) == Success((ps, rest))
  {
    PrintFramed(ps);
    AllRoundTrip(ps);
    var body := PrintAll(ps).value;
    VarInt.RoundTrip(|body|, body + rest);
    Assoc(VarInt.Print(|body|).value, body, rest);
    ParseFramed(Print(ps).value + rest, body, rest, ps);
  }

  /** The counted prefix is exactly the number of bytes written after it. */
  lemma PrefixIsExact(ps: seq<Property>, rest: bytes)
    requires Print(ps).Success? && |PrintAll(ps).value| < 0x1_0000_0000
    ensures var d := VarInt.Decode(Print(ps).value + rest);
            d.Success? && d.value.1 + d.value.0 == |Print(ps).value|
  {
    PrintFramed(ps);
    var body := PrintAll(ps).value;
    VarInt.DigitsOfEncoding(|body|, 0, body + rest);
    Assoc(VarInt.Print(|body|).value, body, rest);
  }

  /** No identifier repeats, user properties aside. */
  predicate Distinct(ps: seq<Property>) {
    forall i, j :: 0 <= i < j < |ps| && ps[i].identifier == ps[j].identifier ==> ps[i].identifier == USER_PROPERTY
  }

  lemma {:induction false} AddAllDistinct(ps: seq<Property>, more: seq<Property>)
    requires Distinct(ps + more)
    ensures AddAll(ps, more) == ps + more
    decreases more
  {
    if more == [] {
      assert ps + more == ps;
    } else {
      var p, i := more[0], IndexOf(ps, more[0].identifier);
      assert (ps + more)[|ps|] == p;
      if i < |ps| {
        assert (ps + more)[i] == ps[i];
      }
      assert Add(ps, p) == ps + [p];
      assert ps + [p] + more[1..] == ps + more;
      AddAllDistinct(ps + [p], more[1..]);
    }
  }

  /** Adding a property: a user property goes to the end; any other takes the place of the one with its
      identifier, or goes to the end; and everything else stays where it is. */
  lemma AddedOnce(ps: seq<Property>, p: Property)
    ensures var qs := Add(ps, p);
            if p.identifier == 38 || forall i :: 0 <= i < |ps| ==> ps[i].identifier != p.identifier then qs == ps + [p]
            else
              && |qs| == |ps|
              && exists k :: 0 <= k < |ps| && ps[k].identifier == p.identifier && qs == ps[k := p]
                             && forall j :: 0 <= j < k ==> ps[j].identifier != p.identifier
  {
    hide IndexOf;
    var i := IndexOf(ps, p.identifier);
    if i < |ps| {
      assert ps[i].(value := p.value) == p;
    }
  }

  lemma AddKeepsDistinct(ps: seq<Property>, p: Property)
    requires Distinct(ps)
    ensures Distinct(Add(ps, p))
  {
    hide IndexOf;
  }

  /** However properties are added, no identifier but that of user properties is written twice. */
  lemma {:induction false} AddAllIsDistinct(ps: seq<Property>, more: seq<Property>)
    requires Distinct(ps)
    ensures Distinct(AddAll(ps, more))
    decreases more
  {
    hide Distinct, Add;
    if more != [] {
      AddKeepsDistinct(ps, more[0]);
      AddAllIsDistinct(Add(ps, more[0]), more[1..]);
    }
  }
}
