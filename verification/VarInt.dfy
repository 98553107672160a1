/** Variable byte integers (MQTT 5.0 section 1.5.5). */
module VarInt {
  import opened Bytes

  const MAX_VALUE: uint32 := 268_435_455

  // ---------------------------------------------------------------- specification

  /** Base-128 digits, least significant first, with the continuation bit on all but the last. */
  function Encode(v: nat): bytes {
    if v < 128 then [v] else [v % 128 + 128] + Encode(v / 128)
  }

  function Print(v: uint32): Result<bytes> {
    if v > MAX_VALUE then Failure(ProtocolError) else Success(Encode(v))
  }

  /** Decodes from the k-th byte of an encoding: the value of the remaining digits and how many
      bytes they took. A fifth byte overflows; the span must not end on a continuation byte. */
  function Digits(s: bytes, k: nat): (r: Result<(nat, nat)>)
    requires s != [] && k <= 4
    ensures r.Success? ==> 1 <= r.value.1 <= 4 - k && r.value.1 <= |s|
    decreases 4 - k
  {
    if k == 4 then Failure(ProtocolError)
    else if s[0] < 128 then Success((s[0], 1))
    else if |s| == 1 then Failure(RuntimeError)
    else
      var (v, n) :- Digits(s[1..], k + 1);
      Success((s[0] - 128 + 128 * v, n + 1))
  }

  /** Value and length of the integer at the front of s. */
  function Decode(s: bytes): Result<(nat, nat)> {
    if s == [] then Failure(RuntimeError) else Digits(s, 0)
  }

  function Power128(k: nat): nat
    requires k <= 4
  {
    if k == 0 then 1 else if k == 1 then 128 else if k == 2 then 16384
    else if k == 3 then 2097152 else 268435456
  }

  lemma {:induction false} DigitsBound(s: bytes, k: nat)
    requires s != [] && k <= 4
    ensures var r := Digits(s, k); r.Success? ==> r.value.0 < Power128(4 - k)
    decreases 4 - k
  {
    if k < 4 && |s| > 1 && s[0] >= 128 {
      DigitsBound(s[1..], k + 1);
    }
  }

  function Parse(s: bytes): Result<(uint32, bytes)> {
    var (v, n) :- Decode(s);
    assert v <= MAX_VALUE by { DigitsBound(s, 0); }
    Success((v, s[n..]))
  }

  /** Whether the bytes seen so far settle the outcome. */
  ghost predicate Settled(s: bytes) {
    |s| >= 4 || exists i :: 0 <= i < |s| && s[i] < 128
  }

  // ---------------------------------------------------------------- the code

  method Serialize(value: uint32, w: Sink) returns (r: Outcome)
    requires w.Valid()
    modifies w
    ensures w.Valid() && Printed(r, old(w.written), w.written, Print(value))
  {
    if value > MAX_VALUE {
      return Fail(ProtocolError);
    }
    var val: int := value;
    var more := true;
    while more
      invariant w.Valid() && val >= 0
      invariant more ==> old(w.written) + Encode(value) == w.written + Encode(val)
      invariant !more ==> old(w.written) + Encode(value) == w.written
      decreases more, val
    {
      var low := val % 128;
      ghost var was := val;
      val := val / 128;
      if val > 0 {
        low := low + 128;
      }
      ghost var before := w.written;
      w.Put(low);
      more := val > 0;
      assert more ==> before + Encode(was) == (before + [low]) + Encode(val);
    }
    return Pass;
  }

  lemma DigitFits(value: nat, digit: nat, k: nat)
    requires k < 4 && value < Power128(k) && digit < 128
    ensures value + digit * Power128(k) < Power128(k + 1) <= 0x1000_0000
  {
    if k == 0 {
    } else if k == 1 {
    } else if k == 2 {
    } else {
    }
  }

  /** The outcome for the whole span, given the value of its first k digits. */
  predicate Continues(span: bytes, k: nat, value: nat)
    requires span != []
  {
    k < 4 && k < |span| && value < Power128(k) &&
    match Digits(span[k..], k)
    case Success(p) => Decode(span) == Success((value + Power128(k) * p.0, k + p.1))
    case Failure(e) => Decode(span) == Failure(e)
  }

  lemma ShiftDigit(k: nat, digit: nat, v: nat)
    requires k < 4
    ensures Power128(k) * (digit + 128 * v) == digit * Power128(k) + Power128(k + 1) * v
  {
    if k == 0 {
    } else if k == 1 {
    } else if k == 2 {
    } else {
    }
  }

  lemma ContinuesStep(span: bytes, k: nat, value: nat)
    requires span != [] && Continues(span, k, value)
    ensures var d, v := span[k], value + span[k] % 128 * Power128(k);
            && v < Power128(k + 1) <= 0x1000_0000
            && if d < 128 then Decode(span) == Success((v, k + 1))
               else if k + 1 == |span| then Decode(span) == Failure(RuntimeError)
               else if k == 3 then Decode(span) == Failure(ProtocolError)
               else Continues(span, k + 1, v)
  {
    var s, d := span[k..], span[k] % 128;
    DigitFits(value, d, k);
    if s[0] >= 128 && |s| > 1 {
      assert s[1..] == span[k + 1..];
      var tail := Digits(s[1..], k + 1);
      if tail.Success? {
        var v := tail.value.0;
        ShiftDigit(k, s[0] - 128, v);
      }
    }
  }

  /** The do-while decoding loop, with its 32-bit accumulator and multiplier. */
  method Scan(span: bytes) returns (r: Result<(uint32, nat)>)
    requires span != []
    ensures match Decode(span)
            case Success(p) => r.Success? && r.value == p
            case Failure(e) => r == Failure(e)
  {
    var multiplier: uint32, value: uint32, i := 1, 0, 0;
    var encoded: byte := 128;
    while encoded >= 128
      invariant i <= 4 && i <= |span| && multiplier == Power128(i)
      invariant encoded >= 128 ==> i < |span|
      invariant encoded >= 128 && i < 4 ==> Continues(span, i, value)
      invariant encoded >= 128 && i == 4 ==> Decode(span) == Failure(ProtocolError)
      invariant encoded < 128 ==> Decode(span) == Success((value, i))
      decreases 5 - i, encoded
    {
      if i < 4 {
        ContinuesStep(span, i, value);
      }
      encoded := span[i];
      i := i + 1;
      value := Low32(value + encoded % 128 * multiplier);
      if multiplier > 128 * 128 * 128 {
        return Failure(ProtocolError);
      } else if i == |span| && encoded >= 128 {
        return Failure(RuntimeError);
      }
      multiplier := Low32(multiplier * 128);
    }
    return Success((value, i));
  }

  method Deserialize(c: Cursor) returns (r: Result<uint32>)
    modifies c
    ensures Parsed(r, c.data, Parse(old(c.data)))
  {
    if c.data == [] {
      return Failure(RuntimeError);
    }
    var scanned :- Scan(c.data);
    c.Consume(scanned.1);
    return Success(scanned.0);
  }

  method CanDeserialize(data: bytes) returns (b: bool)
    ensures b <==> Settled(data)
  {
    if |data| >= 4 {
      return true;
    }
    for i := 0 to |data|
      invariant forall j :: 0 <= j < i ==> data[j] >= 128
    {
      if data[i] < 128 {
        return true;
      }
    }
    return false;
  }

  // ---------------------------------------------------------------- properties

  lemma {:induction false} EncodeLength(v: nat, k: nat)
    requires 1 <= k <= 4 && v < Power128(k)
    ensures 1 <= |Encode(v)| <= k
    decreases k
  {
    if v >= 128 {
      EncodeLength(v / 128, k - 1);
    }
  }

  lemma {:induction false} DigitsOfEncoding(v: nat, k: nat, rest: bytes)
    requires k < 4 && v < Power128(4 - k)
    ensures Digits(Encode(v) + rest, k) == Success((v, |Encode(v)|))
    decreases v
  {
    if v >= 128 {
      DigitsOfEncoding(v / 128, k + 1, rest);
      assert (Encode(v) + rest)[1..] == Encode(v / 128) + rest;
    }
  }

  /** Decoding an encoding gives the value back and leaves whatever follows. */
  lemma RoundTrip(v: uint32, rest: bytes)
    requires v <= 268_435_455
    ensures Print(v).Success? && Parse(Print(v).value + rest) == Success((v, rest))
    ensures 1 <= |Print(v).value| <= 4
  {
    DigitsOfEncoding(v, 0, rest);
    EncodeLength(v, 4);
    assert (Encode(v) + rest)[|Encode(v)|..] == rest;
  }

  /** The bytes, one range of values after the other; nothing larger can be written. */
  lemma Format(v: uint32)
    ensures Print(v) ==
            if v < 128 then Success([v])
            else if v < 16384 then Success([v % 128 + 128, v / 128])
            else if v < 2_097_152 then Success([v % 128 + 128, v / 128 % 128 + 128, v / 16384])
            else if v < 268_435_456 then
              Success([v % 128 + 128, v / 128 % 128 + 128, v / 16384 % 128 + 128, v / 2_097_152])
            else Failure(ProtocolError)
  {
    if 128 <= v < 16384 {
      TwoDigits(v);
    } else if 16384 <= v < 2_097_152 {
      ThreeDigits(v);
    } else if 2_097_152 <= v < 268_435_456 {
      FourDigits(v);
    }
  }

  lemma TwoDigits(v: nat)
    requires 128 <= v < 16384
    ensures Encode(v) == [v % 128 + 128, v / 128]
  {
    assert Encode(v / 128) == [v / 128];
  }

  lemma ThreeDigits(v: nat)
    requires 16384 <= v < 2_097_152
    ensures Encode(v) == [v % 128 + 128, v / 128 % 128 + 128, v / 16384]
  {
    TwoDigits(v / 128);
    assert v / 128 / 128 == v / 16384;
    assert Encode(v) == [v % 128 + 128] + Encode(v / 128);
  }

  lemma FourDigits(v: nat)
    requires 2_097_152 <= v < 268_435_456
    ensures Encode(v) == [v % 128 + 128, v / 128 % 128 + 128, v / 16384 % 128 + 128, v / 2_097_152]
  {
    var w := v / 128;
    ThreeDigits(w);
    assert w / 128 == v / 16384 && w / 16384 == v / 2_097_152;
    assert Encode(v) == [v % 128 + 128] + Encode(w);
  }

  /** Why decoding fails: a fourth byte with its continuation bit set and anything after it is a
      protocol error, an end on a continuation byte a plain one. */
  lemma Errors(s: bytes)
    requires Decode(s).Failure?
    ensures forall i :: 0 <= i < |s| && i < 4 ==> s[i] >= 128
    ensures Decode(s) == Failure(if |s| > 4 then ProtocolError else RuntimeError)
  {
    if |s| > 1 && s[0] >= 128 {
      if |s[1..]| > 1 && s[1] >= 128 {
        if |s[1..][1..]| > 1 && s[2] >= 128 {
          assert s[1..][1..][0] == s[2] && s[1..][1..][1..] == s[3..];
        }
      }
    }
  }

  lemma {:induction false} ShortestDigits(s: bytes, k: nat)
    requires s != [] && k <= 4
    ensures var r := Digits(s, k); r.Success? ==> |Encode(r.value.0)| <= r.value.1
    decreases 4 - k
  {
    if k < 4 && s[0] >= 128 && |s| > 1 {
      ShortestDigits(s[1..], k + 1);
    }
  }

  /** The encoder's output is the shortest input that decodes to its value, and every accepted
      input decodes to a value in range. */
  lemma ShortestEncoding(s: bytes)
    requires Decode(s).Success?
    ensures Decode(s).value.0 <= 268_435_455
    ensures |Encode(Decode(s).value.0)| <= Decode(s).value.1 <= 4
  {
    DigitsBound(s, 0);
    ShortestDigits(s, 0);
  }

  /** Two inputs have the same fate: the same value and length, or both are refused. */
  ghost predicate SameFate(s: bytes, t: bytes) {
    if Decode(s).Success? then Decode(t) == Decode(s) else Decode(t).Failure?
  }

  lemma {:induction false} SettledDigits(s: bytes, k: nat, e: bytes)
    requires s != [] && k <= 4
    requires |s| >= 4 - k || exists i :: 0 <= i < |s| && s[i] < 128
    ensures var r, t := Digits(s, k), Digits(s + e, k);
            if r.Success? then t == r else t.Failure?
    decreases 4 - k
  {
    if k < 4 && s[0] >= 128 {
      if |s| > 1 {
        SettledDigits(s[1..], k + 1, e);
        assert (s + e)[1..] == s[1..] + e;
      } else if e != [] {
        assert (s + e)[1..] == e;
        assert k == 3;
      }
    }
  }

  lemma SettledExtends(s: bytes, e: bytes)
    requires Settled(s)
    ensures Settled(s + e)
  {
    if |s| < 4 {
      var i :| 0 <= i < |s| && s[i] < 128;
      assert (s + e)[i] == s[i];
    }
  }

  /** Once settled, further bytes are just left over. */
  lemma ParseExtends(s: bytes, e: bytes)
    requires s != [] && Settled(s)
    ensures var p, q := Parse(s), Parse(s + e);
            if p.Success? then q == Success((p.value.0, p.value.1 + e)) else q.Failure?
  {
    SettledDigits(s, 0, e);
    var d := Decode(s);
    if d.Success? {
      assert (s + e)[d.value.1..] == s[d.value.1..] + e;
    }
  }

  lemma {:induction false} UnsettledDigits(s: bytes, k: nat)
    requires s != [] && k + |s| < 4
    requires forall i :: 0 <= i < |s| ==> s[i] >= 128
    ensures Digits(s, k).Failure? && Digits(s + [0], k).Success?
    decreases |s|
  {
    if |s| == 1 {
      assert (s + [0])[1..] == [0];
    } else {
      UnsettledDigits(s[1..], k + 1);
      assert (s + [0])[1..] == s[1..] + [0];
    }
  }

  /** `can_deserialize` answers exactly the question the header loop asks: on non-empty data it is
      true just when no further byte can change the outcome. */
  lemma SettledIsPrefixStability(s: bytes)
    requires s != []
    ensures Settled(s) <==> forall e: bytes :: SameFate(s, s + e)
  {
    if Settled(s) {
      forall e: bytes ensures SameFate(s, s + e) {
        SettledDigits(s, 0, e);
      }
    } else {
      UnsettledDigits(s, 0);
      assert !SameFate(s, s + [0]);
    }
  }

  /** When it is false some continuation decodes, so asking for more bytes is never pointless. */
  lemma UnsettledCanStillDecode(s: bytes)
    requires s != [] && !Settled(s)
    ensures Decode(s).Failure? && Decode(s + [0]).Success?
  {
    UnsettledDigits(s, 0);
  }
}
