/** Fixed-width big-endian integers, length-prefixed text and binary data, and key/value pairs
    (MQTT 5.0 sections 1.5.2 to 1.5.7). Text is the raw bytes of a `std::string`. */
module Primitives {
  import opened Bytes

  type text = bytes

  // ---------------------------------------------------------------- specification

  function Power256(k: nat): (p: nat)
    requires k <= 4
    ensures p > 0
  {
    if k == 0 then 1 else if k == 1 then 256 else if k == 2 then 65536
    else if k == 3 then 16777216 else 0x1_0000_0000
  }

  /** The n low-order base-256 digits of v, most significant first. */
  function BigEndian(v: nat, n: nat): (b: bytes)
    ensures |b| == n
  {
    if n == 0 then [] else BigEndian(v / 256, n - 1) + [v % 256]
  }

  function FromBigEndian(s: bytes): nat {
    if s == [] then 0 else FromBigEndian(s[..|s| - 1]) * 256 + s[|s| - 1]
  }

  lemma {:induction false} FromBigEndianBound(s: bytes)
    requires |s| <= 4
    ensures FromBigEndian(s) < Power256(|s|)
  {
    if s != [] {
      FromBigEndianBound(s[..|s| - 1]);
    }
  }

  lemma {:induction false} FixedRoundTrip(v: nat, n: nat)
    requires n <= 4 && v < Power256(n)
    ensures FromBigEndian(BigEndian(v, n)) == v
  {
    if n > 0 {
      FixedRoundTrip(v / 256, n - 1);
      assert BigEndian(v, n)[..n - 1] == BigEndian(v / 256, n - 1);
    }
  }

  function ParseFixed(s: bytes, n: nat): (r: Result<(nat, bytes)>)
    requires n <= 4
    ensures r.Success? ==> r.value.0 < Power256(n)
  {
    var (front, rest) :- Take(s, n);
    FromBigEndianBound(front);
    Success((FromBigEndian(front), rest))
  }

  function ParseByte(s: bytes): Result<(byte, bytes)> {
    ParseFixed(s, 1)
  }

  function ParseShort(s: bytes): Result<(uint16, bytes)> {
    ParseFixed(s, 2)
  }

  function ParseWord(s: bytes): Result<(uint32, bytes)> {
    ParseFixed(s, 4)
  }

  /** The length prefix is the size cast to 16 bits, whatever the size. */
  function PrintText(t: text): bytes {
    BigEndian(Low16(|t|), 2) + t
  }

  function ParseText(s: bytes): Result<(text, bytes)> {
    var (n, rest) :- ParseShort(s);
    Take(rest, n)
  }

  /** As for text, except that missing bytes are reported with the library's own exception. */
  function ParseBinary(s: bytes): Result<(bytes, bytes)> {
    var (n, rest) :- ParseShort(s);
    if |rest| < n then Failure(ProtocolError) else Take(rest, n)
  }

  datatype KeyValue = KeyValue(key: text, value: text)

  function PrintPair(kv: KeyValue): bytes {
    PrintText(kv.key) + PrintText(kv.value)
  }

  function ParsePair(s: bytes): Result<(KeyValue, bytes)> {
    var (key, s1) :- ParseText(s);
    var (value, s2) :- ParseText(s1);
    Success((KeyValue(key, value), s2))
  }

  // ---------------------------------------------------------------- the code

  /** Shifting right by one byte more drops one more digit. */
  lemma ShiftOne(value: nat, shift: nat)
    requires shift < 4
    ensures value / Power256(shift) / 256 == value / Power256(shift + 1)
  {
    if shift == 0 {
      assert value / 1 == value;
    } else if shift == 1 {
      assert value / 256 / 256 == value / 65536;
    } else if shift == 2 {
      assert value / 65536 / 256 == value / 16777216;
    } else {
      assert value / 16777216 / 256 == value / 0x1_0000_0000;
    }
  }

  lemma NothingShiftedIn(value: nat, n: nat)
    requires n <= 4 && value < Power256(n)
    ensures value / Power256(n) == 0 && value / Power256(0) == value
  {
    if n == 0 {
    } else if n == 1 {
      assert value / 256 == 0;
    } else if n == 2 {
      assert value / 65536 == 0;
    } else if n == 3 {
      assert value / 16777216 == 0;
    } else {
      assert value / 0x1_0000_0000 == 0;
    }
  }

  method SerializeFixed(value: nat, n: nat, w: Sink)
    requires w.Valid() && n <= 4 && value < Power256(n)
    modifies w
    ensures w.Valid() && w.written == old(w.written) + BigEndian(value, n)
  {
    hide Power256;
    var shift := n;
    NothingShiftedIn(value, n);
    for i := 0 to n
      invariant w.Valid() && shift == n - i
      invariant w.written == old(w.written) + BigEndian(value / Power256(n - i), i)
    {
      shift := shift - 1;
      ShiftOne(value, shift);
      ghost var before := BigEndian(value / Power256(n - i), i);
      w.Put(value / Power256(shift) % 256);
      Assoc(old(w.written), before, [value / Power256(shift) % 256]);
    }
  }

  method DeserializeFixed(c: Cursor, n: nat) returns (r: Result<nat>)
    requires n <= 4
    modifies c
    ensures Parsed(r, c.data, ParseFixed(old(c.data), n))
    ensures r.Success? ==> r.value < Power256(n)
  {
    var mine :- c.Span(n);
    var value: nat := 0;
    for i := 0 to n
      invariant value == FromBigEndian(mine[..i])
    {
      assert mine[..i + 1][..i] == mine[..i];
      value := value * 256 + mine[i];
    }
    assert mine[..n] == mine;
    FromBigEndianBound(mine);
    c.Consume(n);
    return Success(value);
  }

  method DeserializeByte(c: Cursor) returns (r: Result<byte>)
    modifies c
    ensures Parsed(r, c.data, ParseByte(old(c.data)))
  {
    var v :- DeserializeFixed(c, 1);
    return Success(v);
  }

  method DeserializeShort(c: Cursor) returns (r: Result<uint16>)
    modifies c
    ensures Parsed(r, c.data, ParseShort(old(c.data)))
  {
    var v :- DeserializeFixed(c, 2);
    return Success(v);
  }

  method DeserializeWord(c: Cursor) returns (r: Result<uint32>)
    modifies c
    ensures Parsed(r, c.data, ParseWord(old(c.data)))
  {
    var v :- DeserializeFixed(c, 4);
    return Success(v);
  }

  method SerializeText(t: text, w: Sink)
    requires w.Valid()
    modifies w
    ensures w.Valid() && w.written == old(w.written) + PrintText(t)
  {
    SerializeFixed(Low16(|t|), 2, w);
    w.PutAll(t);
  }

  method DeserializeText(c: Cursor) returns (r: Result<text>)
    modifies c
    ensures Parsed(r, c.data, ParseText(old(c.data)))
  {
    var size :- DeserializeShort(c);
    var t :- c.Span(size);
    c.Consume(size);
    return Success(t);
  }

  method DeserializeBinary(c: Cursor) returns (r: Result<bytes>)
    modifies c
    ensures Parsed(r, c.data, ParseBinary(old(c.data)))
  {
    var size :- DeserializeShort(c);
    if |c.data| < size {
      return Failure(ProtocolError);
    }
    var b := c.data[..size];
    c.Consume(size);
    return Success(b);
  }

  method SerializePair(kv: KeyValue, w: Sink)
    requires w.Valid()
    modifies w
    ensures w.Valid() && w.written == old(w.written) + PrintPair(kv)
  {
    SerializeText(kv.key, w);
    SerializeText(kv.value, w);
  }

  method DeserializePair(c: Cursor) returns (r: Result<KeyValue>)
    modifies c
    ensures Parsed(r, c.data, ParsePair(old(c.data)))
  {
    var key :- DeserializeText(c);
    var value :- DeserializeText(c);
    return Success(KeyValue(key, value));
  }

  // ---------------------------------------------------------------- properties

  predicate FitsPrefix(t: text) {
    |t| < 0x1_0000
  }

  predicate PairFitsPrefix(kv: KeyValue) {
    FitsPrefix(kv.key) && FitsPrefix(kv.value)
  }

  lemma ParseFixedOfPrint(v: nat, n: nat, rest: bytes)
    requires n <= 4 && v < Power256(n)
    ensures ParseFixed(BigEndian(v, n) + rest, n) == Success((v, rest))
  {
    FixedRoundTrip(v, n);
    var s := BigEndian(v, n) + rest;
    assert s[..n] == BigEndian(v, n) && s[n..] == rest;
  }

  lemma {:induction false} BigEndianOfParse(s: bytes)
    requires |s| <= 4
    ensures BigEndian(FromBigEndian(s), |s|) == s
  {
    if s != [] {
      BigEndianOfParse(s[..|s| - 1]);
      assert s == s[..|s| - 1] + [s[|s| - 1]];
    }
  }

  /** Text survives exactly when its size fits the 16-bit prefix. */
  lemma TextRoundTrip(t: text, rest: bytes)
    ensures ParseText(PrintText(t) + rest) == Success((t, rest)) <==> FitsPrefix(t)
    ensures ParseBinary(PrintText(t) + rest) == Success((t, rest)) <==> FitsPrefix(t)
    ensures var r := ParseText(PrintText(t) + rest); r.Success? && |r.value.0| == Low16(|t|)
  {
    var n := Low16(|t|);
    ParseFixedOfPrint(n, 2, t + rest);
    Assoc(BigEndian(n, 2), t, rest);
    if FitsPrefix(t) {
      assert (t + rest)[..n] == t && (t + rest)[n..] == rest;
    } else {
      assert |(t + rest)[..n]| < |t|;
    }
  }

  lemma PairRoundTrip(kv: KeyValue, rest: bytes)
    ensures ParsePair(PrintPair(kv) + rest) == Success((kv, rest)) <==> PairFitsPrefix(kv)
  {
    hide ParseText, PrintText;
    TextRoundTrip(kv.key, PrintText(kv.value) + rest);
    TextRoundTrip(kv.value, rest);
    Assoc(PrintText(kv.key), PrintText(kv.value), rest);
  }
}
