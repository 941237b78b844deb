/** Frames on a stream: a payload behind its length as a base 128 varint. */
module Framing {
  import opened Options
  import opened Bytes
  import opened Wire

  const MAX_VARINT_LEN := 10

  /** Seven bits a byte, the lowest first; all but the last byte have the high bit. */
  function Varint(x: nat): (r: Bytes)
    ensures r != []
  {
    if x < 128 then [x] else [x % 128 + 128] + Varint(x / 128)
  }

  function Frame(payload: Bytes): Bytes {
    Varint(|payload|) + payload
  }

  function Frames(payloads: seq<Bytes>): Bytes {
    if payloads == [] then [] else Frames(payloads[..|payloads| - 1]) + Frame(payloads[|payloads| - 1])
  }

  // ----- reading -----

  datatype Length = Length(value: nat, size: nat) | NoBytes | Cut | TooBig

  function Pow128(n: nat): nat {
    if n == 0 then 1 else 128 * Pow128(n - 1)
  }

  /** What seven bits count for as digit i. */
  function Digit(b: nat, i: nat): nat {
    b * Pow128(i)
  }

  /** The varint at the start of data, of which i bytes with this value have been read. */
  function ReadVarint(data: Bytes, i: nat, value: nat): (r: Length)
    requires i <= MAX_VARINT_LEN
    ensures r.Length? ==> i < r.size <= |data|
    decreases MAX_VARINT_LEN - i
  {
    if i == MAX_VARINT_LEN then TooBig
    else if i >= |data| then (if i == 0 then NoBytes else Cut)
    else if data[i] < 128 then
      if i == MAX_VARINT_LEN - 1 && data[i] > 1 then TooBig else Length(value + Digit(data[i], i), i + 1)
    else ReadVarint(data, i + 1, value + Digit(data[i] - 128, i))
  }

  datatype Read =
    | Payload(payload: Bytes, rest: Bytes)
    | EndOfStream
    | Truncated
    | LengthOverflow
    | ZeroLength
    | TooLarge
    | BadMaximum

  function ReadFrame(data: Bytes, max: int): Read {
    if max < 1 then BadMaximum
    else match ReadVarint(data, 0, 0)
      case NoBytes => EndOfStream
      case Cut => Truncated
      case TooBig => LengthOverflow
      case Length(n, size) =>
        if n == 0 then ZeroLength
        else if n > max then TooLarge
        else if n > |data| - size then Truncated
        else Payload(data[size..size + n], data[size + n..])
  }

  /** Reads frames until there is no further one; gives the payloads and why it stopped. */
  function ReadAll(data: Bytes, max: int): (seq<Bytes>, Read)
    decreases |data|
  {
    match ReadFrame(data, max)
    case Payload(p, rest) =>
      var (more, end) := ReadAll(rest, max);
      ([p] + more, end)
    case end => ([], end)
  }

  // ----- varints -----

  lemma {:induction false} PowSplit(i: nat, x: nat)
    ensures Digit(x % 128, i) + Digit(x / 128, i + 1) == Digit(x, i)
  {
    var p, q, m := Pow128(i), x / 128, x % 128;
    assert x == 128 * q + m;
    calc {
      m * p + q * (128 * p);
      m * p + (128 * q) * p;
      (128 * q + m) * p;
    }
  }

  lemma {:induction false} VarintFits(x: nat, n: nat)
    requires x < Pow128(n) && n > 0
    ensures |Varint(x)| <= n
  {
    if x >= 128 {
      assert Pow128(1) == 128;
      assert Pow128(n) == 128 * Pow128(n - 1);
      VarintFits(x / 128, n - 1);
    }
  }

  lemma TwoTo63()
    ensures Pow128(9) == TWO_TO_THE_63
  {
    assert Pow128(3) == 128 * 128 * 128;
    assert Pow128(6) == 128 * Pow128(5) == 128 * (128 * Pow128(4)) == 128 * (128 * (128 * Pow128(3)));
    assert Pow128(9) == 128 * Pow128(8) == 128 * (128 * Pow128(7)) == 128 * (128 * (128 * Pow128(6)));
  }

  lemma VarintStep(data: Bytes, i: nat, value: nat)
    requires i < MAX_VARINT_LEN
    ensures i >= |data| ==> ReadVarint(data, i, value) == if i == 0 then NoBytes else Cut
    ensures i < |data| && data[i] < 128 ==>
              ReadVarint(data, i, value) ==
                if i == MAX_VARINT_LEN - 1 && data[i] > 1 then TooBig else Length(value + Digit(data[i], i), i + 1)
    ensures i < |data| && data[i] >= 128 ==>
              ReadVarint(data, i, value) == ReadVarint(data, i + 1, value + Digit(data[i] - 128, i))
  {
    hide Digit;
  }

  /** Reading a varint that fits gives its value, wherever in the prefix the reader is. */
  lemma {:induction false} ReadsVarint(data: Bytes, i: nat, value: nat, x: nat, rest: Bytes)
    requires i + |Varint(x)| < MAX_VARINT_LEN && i <= |data| && data[i..] == Varint(x) + rest
    ensures ReadVarint(data, i, value) == Length(value + Digit(x, i), i + |Varint(x)|)
    decreases x
  {
    hide Digit, ReadVarint;
    assert data[i] == data[i..][0];
    VarintStep(data, i, value);
    if x >= 128 {
      var low, high := x % 128, x / 128;
      assert Varint(x) == [low + 128] + Varint(high);
      assert data[i + 1..] == data[i..][1..] == Varint(high) + rest;
      ReadsVarint(data, i + 1, value + Digit(low, i), high, rest);
      PowSplit(i, x);
    }
  }

  /** A varint cut short is noticed. */
  lemma {:induction false} CutVarint(data: Bytes, i: nat, value: nat, x: nat)
    requires i + |Varint(x)| < MAX_VARINT_LEN && i <= |data|
    requires data[i..] <= Varint(x) && data[i..] != Varint(x)
    ensures ReadVarint(data, i, value) == if |data| == 0 then NoBytes else Cut
    decreases x
  {
    if i < |data| {
      assert data[i] == data[i..][0] == Varint(x)[0];
      if x >= 128 {
        assert data[i + 1..] == data[i..][1..];
        assert Varint(x)[1..] == Varint(x / 128);
        CutVarint(data, i + 1, value + Digit(x % 128, i), x / 128);
      }
    }
  }

  // ----- frames -----

  /** What a sender sends and this reader takes. */
  predicate Sendable(payload: Bytes, max: int) {
    0 < |payload| <= max && Fits(payload)
  }

  lemma ShortPrefix(payload: Bytes)
    requires Fits(payload)
    ensures |Varint(|payload|)| < MAX_VARINT_LEN
  {
    TwoTo63();
    VarintFits(|payload|, 9);
  }

  lemma ReadsFrame(payload: Bytes, rest: Bytes, max: int)
    requires Sendable(payload, max)
    ensures ReadFrame(Frame(payload) + rest, max) == Payload(payload, rest)
  {
    var data, n := Frame(payload) + rest, |payload|;
    var v := Varint(n);
    ShortPrefix(payload);
    assert data[0..] == v + (payload + rest);
    ReadsVarint(data, 0, 0, n, payload + rest);
    assert Pow128(0) == 1;
    assert data[|v|..|v| + n] == payload && data[|v| + n..] == rest;
  }

  /** The start of a frame is no frame: only the empty one looks like the end of the stream, and one that
      announces too much is refused. */
  lemma CutFrame(part: Bytes, payload: Bytes, max: int)
    requires max >= 1 && payload != [] && Fits(payload) && part <= Frame(payload)
    requires part != Frame(payload) || |payload| > max
    ensures ReadFrame(part, max) ==
      if part == [] then EndOfStream
      else if |part| < |Varint(|payload|)| || |payload| <= max then Truncated
      else TooLarge
  {
    var n := |payload|;
    var v := Varint(n);
    ShortPrefix(payload);
    if |part| < |v| {
      assert part[0..] == part && part == Frame(payload)[..|part|] == v[..|part|];
      CutVarint(part, 0, 0, n);
    } else {
      assert part == Frame(payload)[..|part|] == v + payload[..|part| - |v|];
      assert part[0..] == v + payload[..|part| - |v|];
      ReadsVarint(part, 0, 0, n, payload[..|part| - |v|]);
      assert Pow128(0) == 1;
    }
  }

  lemma {:induction false} FramesFirst(payloads: seq<Bytes>)
    requires payloads != []
    ensures Frames(payloads) == Frame(payloads[0]) + Frames(payloads[1..])
  {
    var n := |payloads| - 1;
    if n == 0 {
      assert Frames(payloads[..0]) == [] && payloads[1..] == [];
    } else {
      FramesFirst(payloads[..n]);
      assert payloads[..n][1..] == payloads[1..][..n - 1];
      Regroup(Frame(payloads[0]), Frames(payloads[1..][..n - 1]), Frame(payloads[n]));
    }
  }

  /** A stream that begins with whole frames gives their payloads in order, then what follows them. */
  lemma {:induction false} ReadsThrough(payloads: seq<Bytes>, tail: Bytes, max: int)
    requires forall p :: p in payloads ==> Sendable(p, max)
    ensures ReadAll(Frames(payloads) + tail, max) == (payloads + ReadAll(tail, max).0, ReadAll(tail, max).1)
    decreases |payloads|
  {
    hide ReadFrame, Frame;
    if payloads == [] {
      assert Frames(payloads) + tail == tail;
      assert payloads + ReadAll(tail, max).0 == ReadAll(tail, max).0;
    } else {
      var rest := Frames(payloads[1..]) + tail;
      FramesFirst(payloads);
      Regroup(Frame(payloads[0]), Frames(payloads[1..]), tail);
      ReadsFrame(payloads[0], rest, max);
      ReadsThrough(payloads[1..], tail, max);
      var more := ReadAll(tail, max).0;
      assert payloads == [payloads[0]] + payloads[1..];
      assert [payloads[0]] + (payloads[1..] + more) == payloads + more;
    }
  }

  // ----- the reader and the writer -----

  lemma NoMore(data: Bytes, value: nat)
    ensures ReadVarint(data, MAX_VARINT_LEN, value) == TooBig
  {
  }

  /** A reader over the bytes that have arrived, at a position. */
  class Reader {
    const data: Bytes
    var pos: nat

    predicate Valid()
      reads this
    {
      pos <= |data|
    }

    function Remaining(): Bytes
      reads this
      requires Valid()
    {
      data[pos..]
    }

    constructor (data: Bytes)
      ensures this.data == data && Valid() && Remaining() == data
    {
      this.data, pos := data, 0;
    }

    /** Reads a base 128 varint byte by byte. */
    method ReadUvarint() returns (r: Length)
      requires Valid()
      modifies this`pos
      ensures Valid() && r == ReadVarint(old(Remaining()), 0, 0)
      ensures r.Length? ==> Remaining() == old(Remaining())[r.size..]
    {
      hide Digit, ReadVarint;
      ghost var before := Remaining();
      var x: nat := 0;
      for i := 0 to MAX_VARINT_LEN
        invariant pos == old(pos) + i <= |data|
        invariant ReadVarint(before, 0, 0) == ReadVarint(before, i, x)
      {
        VarintStep(before, i, x);
        if pos == |data| {
          return if i == 0 then NoBytes else Cut;
        }
        var b: nat := data[pos];
        assert b == before[i];
        pos := pos + 1;
        if b < 128 {
          if i == MAX_VARINT_LEN - 1 && b > 1 {
            return TooBig;
          }
          assert data[pos..] == before[i + 1..];
          return Length(x + Digit(b, i), i + 1);
        }
        x := x + Digit(b - 128, i);
      }
      NoMore(before, x);
      r := TooBig;
    }

    method ReadEnvelopeFrame(max: int) returns (r: Read)
      requires Valid()
      modifies this`pos
      ensures Valid() && r == ReadFrame(old(Remaining()), max)
      ensures r.Payload? ==> Remaining() == r.rest
    {
      if max < 1 {
        return BadMaximum;
      }
      var length := ReadUvarint();
      match length {
        case NoBytes => return EndOfStream;
        case Cut => return Truncated;
        case TooBig => return LengthOverflow;
        case Length(n, size) =>
          if n == 0 {
            return ZeroLength;
          }
          if n > max {
            return TooLarge;
          }
          if n > |data| - pos {
            pos := |data|;
            return Truncated;
          }
          var payload := data[pos..pos + n];
          pos := pos + n;
          r := Payload(payload, data[pos..]);
      }
    }
  }

  /** Writes a varint into a buffer of ten bytes; returns how many it took. */
  method PutUvarint(buffer: array<Byte>, x: nat) returns (n: nat)
    requires buffer.Length == MAX_VARINT_LEN && |Varint(x)| <= MAX_VARINT_LEN
    modifies buffer
    ensures n <= buffer.Length && buffer[..n] == Varint(x)
  {
    n := 0;
    var left := x;
    while left >= 128
      invariant n + |Varint(left)| == |Varint(x)|
      invariant buffer[..n] + Varint(left) == Varint(x)
      decreases left
    {
      assert Varint(left) == [left % 128 + 128] + Varint(left / 128);
      ghost var done := buffer[..n];
      buffer[n] := left % 128 + 128;
      assert buffer[..n + 1] == done + [left % 128 + 128];
      left, n := left / 128, n + 1;
    }
    ghost var done := buffer[..n];
    buffer[n] := left;
    assert buffer[..n + 1] == done + [left];
    n := n + 1;
  }
}
