/** Bytes, fixed-width integers, the two C++ exception classes the codec throws,
    the read cursor (`data_fetcher` over a span) and the byte sink (the `Writer`). */
module Bytes {

  type byte = x: int | 0 <= x < 0x100
  type uint16 = x: int | 0 <= x < 0x1_0000
  type uint32 = x: int | 0 <= x < 0x1_0000_0000
  type bytes = seq<byte>

  /** A cast to `std::uint16_t`. */
  function Low16(n: nat): (r: uint16)
    ensures n < 0x1_0000 ==> r == n
  {
    n % 0x1_0000
  }

  /** Unsigned 32-bit arithmetic wraps. */
  function Low32(n: nat): (r: uint32)
    ensures n < 0x1_0000_0000 ==> r == n
  {
    n % 0x1_0000_0000
  }

  /** `protocol_error` is the library's own exception; everything else it throws is a plain
      `std::runtime_error`. */
  datatype Error = ProtocolError | RuntimeError

  datatype Result<+T> = Success(value: T) | Failure(error: Error) {
    predicate IsFailure() { Failure? }
    function PropagateFailure<U>(): Result<U>
      requires Failure?
    {
      Failure(error)
    }
    function Extract(): T
      requires Success?
    {
      value
    }
  }

  datatype Outcome = Pass | Fail(error: Error) {
    predicate IsFailure() { Fail? }
    function PropagateFailure(): Outcome
      requires Fail?
    {
      this
    }
  }

  datatype Option<+T> = None | Some(value: T)

  /** Exactly n bytes from the front, or the "Not enough data" exception. */
  function Take(s: bytes, n: nat): Result<(bytes, bytes)> {
    if |s| < n then Failure(RuntimeError) else Success((s[..n], s[n..]))
  }

  lemma Assoc<T>(a: seq<T>, b: seq<T>, c: seq<T>)
    ensures (a + b) + c == a + (b + c)
  {
  }

  /** One more part written after `done`, which was written after `start`. */
  lemma Extend(start: bytes, done: bytes, part: bytes) returns (all: bytes)
    ensures all == done + part && (start + done) + part == start + all
  {
    all := done + part;
  }

  /** A parsing method agrees with a parsing function: same value, same bytes left over,
      same exception. */
  ghost predicate Parsed<T(!new)>(r: Result<T>, left: bytes, spec: Result<(T, bytes)>) {
    match spec
    case Success(p) => r == Success(p.0) && left == p.1
    case Failure(e) => r == Failure(e)
  }

  /** A printing method agrees with a printing function: same bytes appended, same exception. */
  ghost predicate Printed(r: Outcome, before: bytes, after: bytes, spec: Result<bytes>) {
    match spec
    case Success(b) => r == Pass && after == before + b
    case Failure(e) => r == Fail(e)
  }

  /** The shared cursor over a byte span. */
  class Cursor {
    var data: bytes

    constructor (data: bytes)
      ensures this.data == data
    {
      this.data := data;
    }

    /** Moves past n bytes; running past the end leaves an empty span. */
    method Consume(n: nat)
      modifies this
      ensures data == if n < |old(data)| then old(data)[n..] else []
    {
      if n >= |data| {
        data := [];
      } else {
        data := data[n..];
      }
    }

    /** Looks at the next n bytes without moving. */
    method Span(n: nat) returns (r: Result<bytes>)
      ensures r == if |data| < n then Failure(RuntimeError) else Success(data[..n])
    {
      if |data| < n {
        return Failure(RuntimeError);
      }
      return Success(data[..n]);
    }
  }

  /** What a `Writer` callback does: it either pushes each byte to a buffer, or only counts it
      in a 32-bit counter. */
  class Sink {
    const counting: bool
    var buffer: bytes
    var count: uint32
    ghost var written: bytes

    ghost predicate Valid()
      reads this
    {
      if counting then count == Low32(|written|) else buffer == written
    }

    constructor (counting: bool)
      ensures Valid() && this.counting == counting && written == []
    {
      this.counting := counting;
      buffer := [];
      count := 0;
      written := [];
    }

    method Put(b: byte)
      requires Valid()
      modifies this
      ensures Valid() && written == old(written) + [b]
    {
      if counting {
        count := Low32(count + 1);
      } else {
        buffer := buffer + [b];
      }
      written := written + [b];
    }

    /** The range-for loops that push every element of a container. */
    method PutAll(bs: bytes)
      requires Valid()
      modifies this
      ensures Valid() && written == old(written) + bs
    {
      for i := 0 to |bs|
        invariant Valid() && written == old(written) + bs[..i]
      {
        Put(bs[i]);
      }
      assert bs[..|bs|] == bs;
    }
  }
}
