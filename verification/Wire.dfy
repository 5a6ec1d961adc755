/** EncodeFrame and DecodeFrame: a magic byte, a version byte, a varint length and the payload. */
module Wire {
  import opened Wrappers
  import opened Utf8

  datatype FrameError = ErrFrameInvalid | ErrUnexpectedEOF

  const FRAME_MAGIC: Byte := 0xD1

  const FRAME_VERSION: Byte := 0x01

  const MAX_FRAME_PAYLOAD := 64 * 1024

  const MAX_VARINT_LEN: nat := 10

  /** The length of a Go slice is a non-negative 64-bit int. */
  const MAX_SLICE: nat := 0x7FFF_FFFF_FFFF_FFFF

  // ---------- varints ----------

  /** Base-128 digits, least significant first; every byte but the last carries the high bit. */
  function Varint(x: nat): (v: Bytes)
    ensures v != []
  {
    if x < 0x80 then [x] else [x % 0x80 + 0x80] + Varint(x / 0x80)
  }

  /** The number that a run of digits stands for, continuation bits ignored. */
  function ValueOf(v: Bytes): nat {
    if v == [] then 0 else v[0] % 0x80 + 0x80 * ValueOf(v[1..])
  }

  function Pow128(n: nat): (p: nat)
    ensures p > 0
  {
    if n == 0 then 1 else 0x80 * Pow128(n - 1)
  }

  /** How many bytes with the high bit set `b` starts with. */
  function Continued(b: Bytes): (n: nat)
    ensures n <= |b|
    ensures n < |b| ==> b[n] < 0x80
  {
    if b == [] || b[0] < 0x80 then 0 else 1 + Continued(b[1..])
  }

  datatype Parsed = Value(value: nat, size: nat) | TooShort | Overflow(at: nat)

  /** What binary.Uvarint finds at the start of `b`: at most ten bytes, and a tenth byte of at most 1. */
  function Parse(b: Bytes): Parsed {
    var n := Continued(b);
    if n >= MAX_VARINT_LEN && |b| > MAX_VARINT_LEN then Overflow(MAX_VARINT_LEN)
    else if n == |b| then TooShort
    else if n == MAX_VARINT_LEN - 1 && b[n] > 1 then Overflow(n)
    else Value(ValueOf(b[..n + 1]), n + 1)
  }

  lemma {:induction false} ContinuedIs(b: Bytes, n: nat)
    requires n <= |b| && (forall k :: 0 <= k < n ==> b[k] >= 0x80) && (n < |b| ==> b[n] < 0x80)
    ensures Continued(b) == n
  {
    if n > 0 {
      ContinuedIs(b[1..], n - 1);
    }
  }

  lemma {:induction false} ContinuedAll(b: Bytes)
    ensures forall k :: 0 <= k < Continued(b) ==> b[k] >= 0x80
  {
    if b != [] && b[0] >= 0x80 {
      ContinuedAll(b[1..]);
    }
  }

  lemma ContinuedAtLeast(b: Bytes, n: nat)
    requires n <= |b| && forall k :: 0 <= k < n ==> b[k] >= 0x80
    ensures Continued(b) >= n
  {
    ContinuedAll(b);
  }

  /** A further digit weighs 128 to the number of digits before it. */
  lemma {:induction false} ValueAppend(v: Bytes, d: Byte)
    ensures ValueOf(v + [d]) == ValueOf(v) + d % 0x80 * Pow128(|v|)
  {
    if v != [] {
      assert (v + [d])[1..] == v[1..] + [d];
      ValueAppend(v[1..], d);
      Distribute(ValueOf(v[1..]), d % 0x80, Pow128(|v| - 1));
    }
  }

  lemma Distribute(a: nat, d: nat, p: nat)
    ensures 0x80 * (a + d * p) == 0x80 * a + d * (0x80 * p)
  {
  }

  /** binary.PutUvarint. */
  method PutUvarint(buf: array<Byte>, value: nat) returns (n: nat)
    requires |Varint(value)| <= buf.Length
    modifies buf
    ensures n <= buf.Length && buf[..n] == Varint(value)
  {
    var i, x := 0, value;
    while x >= 0x80
      invariant i + |Varint(x)| <= buf.Length && buf[..i] + Varint(x) == Varint(value)
    {
      ghost var before := buf[..i];
      buf[i] := x % 0x80 + 0x80;
      assert buf[..i + 1] == before + [x % 0x80 + 0x80];
      assert before + ([x % 0x80 + 0x80] + Varint(x / 0x80)) == buf[..i + 1] + Varint(x / 0x80);
      x := x / 0x80;
      i := i + 1;
    }
    ghost var before := buf[..i];
    buf[i] := x;
    assert buf[..i + 1] == before + [x];
    n := i + 1;
  }

  /** binary.Uvarint: consumed is 0 when the bytes run out and negative on overflow. */
  method Uvarint(buf: Bytes) returns (value: nat, consumed: int)
    ensures match Parse(buf)
      case Value(v, size) => value == v && consumed == size
      case TooShort => value == 0 && consumed == 0
      case Overflow(at) => value == 0 && consumed == -(at + 1)
  {
    var x: nat, weight: nat := 0, 1;
    for i := 0 to |buf|
      invariant i <= MAX_VARINT_LEN && weight == Pow128(i)
      invariant forall k :: 0 <= k < i ==> buf[k] >= 0x80
      invariant x == ValueOf(buf[..i])
    {
      var b: nat := buf[i];
      if i == MAX_VARINT_LEN {
        ContinuedAtLeast(buf, i);
        return 0, -(i + 1);
      }
      assert buf[..i + 1] == buf[..i] + [b];
      ValueAppend(buf[..i], b);
      if b < 0x80 {
        ContinuedIs(buf, i);
        if i == MAX_VARINT_LEN - 1 && b > 1 {
          return 0, -(i + 1);
        }
        return x + b * weight, i + 1;
      }
      x := x + b % 0x80 * weight;
      weight := 0x80 * weight;
    }
    ContinuedIs(buf, |buf|);
    return 0, 0;
  }

  // ---------- frames ----------

  function Frame(v: Bytes, payload: Bytes): Bytes {
    [FRAME_MAGIC, FRAME_VERSION] + v + payload
  }

  function Encoded(payload: Bytes): Bytes {
    Frame(Varint(|payload|), payload)
  }

  function Decoded(b: Bytes): Result<Bytes, FrameError> {
    if |b| < 3 || b[0] != FRAME_MAGIC || b[1] != FRAME_VERSION then Err(ErrFrameInvalid) else
    match Parse(b[2..])
    case TooShort => Err(ErrFrameInvalid)
    case Overflow(_) => Err(ErrFrameInvalid)
    case Value(n, size) =>
      if n > MAX_FRAME_PAYLOAD then Err(ErrFrameInvalid)
      else if |b| - 2 - size < n then Err(ErrUnexpectedEOF)
      else Ok(b[2 + size..2 + size + n])
  }

  lemma {:induction false} VarintFits(x: nat, n: nat)
    requires x < Pow128(n) && n > 0
    ensures |Varint(x)| <= n
  {
    if x >= 0x80 {
      assert n > 1;
      VarintFits(x / 0x80, n - 1);
    }
  }

  lemma SliceFits(x: nat)
    requires x <= MAX_SLICE
    ensures |Varint(x)| <= 9
  {
    assert Pow128(3) == 0x20_0000;
    assert Pow128(6) == 0x400_0000_0000;
    assert Pow128(9) == 0x8000_0000_0000_0000;
    VarintFits(x, 9);
  }

  method EncodeFrame(payload: Bytes) returns (buf: Bytes)
    requires |payload| <= MAX_SLICE
    ensures buf == Encoded(payload)
  {
    buf := [FRAME_MAGIC, FRAME_VERSION];
    var lenBuf := new Byte[MAX_VARINT_LEN];
    SliceFits(|payload|);
    var n := PutUvarint(lenBuf, |payload|);
    buf := buf + lenBuf[..n];
    buf := buf + payload;
  }

  method DecodeFrame(b: Bytes) returns (r: Result<Bytes, FrameError>)
    ensures r == Decoded(b)
  {
    if |b| < 3 {
      return Err(ErrFrameInvalid);
    }
    if b[0] != FRAME_MAGIC {
      return Err(ErrFrameInvalid);
    }
    if b[1] != FRAME_VERSION {
      return Err(ErrFrameInvalid);
    }
    var rest := b[2..];
    var n, consumed := Uvarint(rest);
    if consumed <= 0 {
      return Err(ErrFrameInvalid);
    }
    if n > MAX_FRAME_PAYLOAD {
      return Err(ErrFrameInvalid);
    }
    rest := rest[consumed..];
    if |rest| < n {
      return Err(ErrUnexpectedEOF);
    }
    assert rest[..n] == b[2 + consumed..2 + consumed + n];
    return Ok(rest[..n]);
  }

  // ---------- what the codec promises ----------

  /** Digits that end exactly where a varint ends, in the lengths that fit 64 bits. */
  predicate IsVarint(v: Bytes) {
    && 1 <= |v| <= MAX_VARINT_LEN
    && (forall k | 0 <= k < |v| - 1 :: v[k] >= 0x80)
    && v[|v| - 1] < 0x80
    && (|v| == MAX_VARINT_LEN ==> v[|v| - 1] <= 1)
  }

  /** Parsing reads a varint whatever follows it, and reads nothing else. */
  lemma ParseVarint(v: Bytes, rest: Bytes)
    requires IsVarint(v)
    ensures Parse(v + rest) == Value(ValueOf(v), |v|)
  {
    var b := v + rest;
    ContinuedIs(b, |v| - 1);
    assert b[..|v|] == v;
  }

  lemma ParsedIsVarint(b: Bytes)
    requires Parse(b).Value?
    ensures var v := b[..Parse(b).size];
      IsVarint(v) && ValueOf(v) == Parse(b).value
  {
    ContinuedAll(b);
  }

  /** A cut varint is too short to parse. */
  lemma ParseCut(v: Bytes, n: nat)
    requires IsVarint(v) && n < |v|
    ensures Parse(v[..n]) == TooShort
  {
    ContinuedIs(v[..n], n);
  }

  /** The digits written for x are digits of x. */
  lemma {:induction false} VarintValue(x: nat)
    ensures ValueOf(Varint(x)) == x
    ensures forall k :: 0 <= k < |Varint(x)| - 1 ==> Varint(x)[k] >= 0x80
    ensures Varint(x)[|Varint(x)| - 1] < 0x80
  {
    if x >= 0x80 {
      VarintValue(x / 0x80);
    }
  }

  lemma VarintIsVarint(x: nat)
    requires x <= MAX_SLICE
    ensures IsVarint(Varint(x)) && ValueOf(Varint(x)) == x
  {
    VarintValue(x);
    SliceFits(x);
  }

  /** Of all varints of a number the one written is the shortest. */
  lemma {:induction false} VarintShortest(v: Bytes)
    requires v != [] && forall k :: 0 <= k < |v| - 1 ==> v[k] >= 0x80
    ensures |Varint(ValueOf(v))| <= |v|
  {
    if |v| > 1 {
      VarintShortest(v[1..]);
      assert ValueOf(v) / 0x80 == ValueOf(v[1..]);
    } else {
      assert v[1..] == [];
    }
  }

  lemma FrameParts(v: Bytes, rest: Bytes, n: nat)
    ensures var b := Frame(v, rest);
      && |b| == 2 + |v| + |rest| && b[0] == FRAME_MAGIC && b[1] == FRAME_VERSION && b[2..] == v + rest
      && (n <= |rest| ==> b[2 + |v|..2 + |v| + n] == rest[..n])
  {
  }

  /** What a frame with any varint, minimal or not, decodes to; `rest` is all that follows the varint. */
  lemma DecodedFrame(v: Bytes, rest: Bytes)
    requires IsVarint(v)
    ensures Decoded(Frame(v, rest)) ==
      if ValueOf(v) > MAX_FRAME_PAYLOAD then Err(ErrFrameInvalid)
      else if |rest| < ValueOf(v) then Err(ErrUnexpectedEOF)
      else Ok(rest[..ValueOf(v)])
  {
    FrameParts(v, rest, ValueOf(v));
    ParseVarint(v, rest);
  }

  /** The header byte by byte: magic, version, and up to three length bytes for the lengths that decode. */
  lemma FrameBytes(payload: Bytes)
    requires |payload| <= 65536
    ensures var n, b := |payload|, Encoded(payload);
      b == [0xD1, 0x01]
           + (if n < 128 then [n] else if n < 16384 then [n % 128 + 128, n / 128]
              else [n % 128 + 128, n / 128 % 128 + 128, n / 16384])
           + payload
  {
    var n := |payload|;
    if n >= 128 {
      assert Varint(n) == [n % 0x80 + 0x80] + Varint(n / 0x80);
      if n >= 16384 {
        assert n / 0x80 / 0x80 == n / 16384;
        assert Varint(n / 0x80) == [n / 0x80 % 0x80 + 0x80] + Varint(n / 0x80 / 0x80);
      }
    }
  }

  /** Anything that does not start with the two header bytes is invalid. */
  lemma HeaderRequired(b: Bytes)
    requires |b| < 3 || b[0] != 0xD1 || b[1] != 0x01
    ensures Decoded(b) == Err(ErrFrameInvalid)
  {
  }

  /** Decoding an encoded payload returns it, whatever follows. */
  lemma RoundTrip(payload: Bytes, trailing: Bytes)
    requires |payload| <= 65536
    ensures Decoded(Encoded(payload) + trailing) == Ok(payload)
  {
    var v := Varint(|payload|);
    VarintIsVarint(|payload|);
    assert Encoded(payload) + trailing == Frame(v, payload + trailing);
    DecodedFrame(v, payload + trailing);
    assert (payload + trailing)[..|payload|] == payload;
  }

  /** A payload above the cap can be framed but never decodes, whatever follows. */
  lemma OversizeRejected(payload: Bytes, trailing: Bytes)
    requires 65536 < |payload| <= MAX_SLICE
    ensures Decoded(Encoded(payload) + trailing) == Err(ErrFrameInvalid)
  {
    var v := Varint(|payload|);
    VarintIsVarint(|payload|);
    assert Encoded(payload) + trailing == Frame(v, payload + trailing);
    DecodedFrame(v, payload + trailing);
  }

  lemma CutInVarint(v: Bytes, rest: Bytes, n: nat)
    requires IsVarint(v) && 3 <= n < 2 + |v|
    ensures Decoded(Frame(v, rest)[..n]) == Err(ErrFrameInvalid)
  {
    var b := Frame(v, rest)[..n];
    assert b[2..] == v[..n - 2];
    ParseCut(v, n - 2);
  }

  lemma CutInPayload(v: Bytes, rest: Bytes, n: nat)
    requires IsVarint(v) && ValueOf(v) <= MAX_FRAME_PAYLOAD && 2 + |v| <= n < 2 + |v| + ValueOf(v)
    requires n <= |Frame(v, rest)|
    ensures Decoded(Frame(v, rest)[..n]) == Err(ErrUnexpectedEOF)
  {
    assert Frame(v, rest)[..n] == Frame(v, rest[..n - 2 - |v|]);
    DecodedFrame(v, rest[..n - 2 - |v|]);
  }

  /** Every proper prefix of a frame is rejected: as invalid inside the header, as a short read after it. */
  lemma PrefixRejected(payload: Bytes, n: nat)
    requires |payload| <= MAX_FRAME_PAYLOAD && n < |Encoded(payload)|
    ensures Decoded(Encoded(payload)[..n]) ==
      Err(if n < 2 + |Varint(|payload|)| then ErrFrameInvalid else ErrUnexpectedEOF)
  {
    VarintIsVarint(|payload|);
    if n >= 3 {
      if n < 2 + |Varint(|payload|)| {
        CutInVarint(Varint(|payload|), payload, n);
      } else {
        CutInPayload(Varint(|payload|), payload, n);
      }
    }
  }

  /** The inputs accepted with result `payload`: a header, any varint of its length, the payload, anything. */
  ghost predicate Accepts(b: Bytes, payload: Bytes) {
    exists v: Bytes, trailing: Bytes :: IsFrame(b, v, payload + trailing) && ValueOf(v) == |payload| <= 65536
  }

  ghost predicate IsFrame(b: Bytes, v: Bytes, rest: Bytes) {
    IsVarint(v) && b == [0xD1, 0x01] + v + rest
  }

  /** The inputs with a good header whose payload is cut short: the one case that is not ErrFrameInvalid. */
  ghost predicate CutShort(b: Bytes) {
    exists v: Bytes, rest: Bytes :: IsFrame(b, v, rest) && |rest| < ValueOf(v) <= 65536
  }

  lemma ParsedFrame(b: Bytes)
    requires |b| >= 3 && b[0] == FRAME_MAGIC && b[1] == FRAME_VERSION && Parse(b[2..]).Value?
    ensures var size := Parse(b[2..]).size;
      IsFrame(b, b[2..2 + size], b[2 + size..]) && ValueOf(b[2..2 + size]) == Parse(b[2..]).value
  {
    ParsedIsVarint(b[2..]);
    var size := Parse(b[2..]).size;
    assert b[2..][..size] == b[2..2 + size];
    assert b == [b[0], b[1]] + b[2..] && b[2..] == b[2..2 + size] + b[2 + size..];
  }

  lemma AcceptedIsFrame(b: Bytes, payload: Bytes)
    requires Decoded(b) == Ok(payload)
    ensures Accepts(b, payload)
  {
    ParsedFrame(b);
    var size := Parse(b[2..]).size;
    var rest := b[2 + size..];
    assert rest == payload + rest[|payload|..];
    assert IsFrame(b, b[2..2 + size], payload + rest[|payload|..]);
  }

  lemma FrameIsAccepted(v: Bytes, payload: Bytes, trailing: Bytes)
    requires IsVarint(v) && ValueOf(v) == |payload| <= MAX_FRAME_PAYLOAD
    ensures Decoded(Frame(v, payload + trailing)) == Ok(payload)
  {
    DecodedFrame(v, payload + trailing);
    assert (payload + trailing)[..|payload|] == payload;
  }

  /** DecodeFrame accepts exactly those inputs, non-minimal varints included. */
  lemma AcceptedExactly(b: Bytes, payload: Bytes)
    ensures Decoded(b) == Ok(payload) <==> Accepts(b, payload)
  {
    if Decoded(b) == Ok(payload) {
      AcceptedIsFrame(b, payload);
    }
    if Accepts(b, payload) {
      var v: Bytes, trailing: Bytes :| IsFrame(b, v, payload + trailing) && ValueOf(v) == |payload| <= MAX_FRAME_PAYLOAD;
      FrameIsAccepted(v, payload, trailing);
      assert b == Frame(v, payload + trailing);
    }
  }

  lemma ShortIsCut(b: Bytes)
    requires Decoded(b) == Err(ErrUnexpectedEOF)
    ensures CutShort(b)
  {
    ParsedFrame(b);
    var size := Parse(b[2..]).size;
    assert IsFrame(b, b[2..2 + size], b[2 + size..]);
  }

  lemma CutIsShort(v: Bytes, rest: Bytes)
    requires IsVarint(v) && |rest| < ValueOf(v) <= MAX_FRAME_PAYLOAD
    ensures Decoded(Frame(v, rest)) == Err(ErrUnexpectedEOF)
  {
    DecodedFrame(v, rest);
  }

  /** A short read is reported as an unexpected end exactly when only payload bytes are missing. */
  lemma ShortReadExactly(b: Bytes)
    ensures Decoded(b) == Err(ErrUnexpectedEOF) <==> CutShort(b)
  {
    if Decoded(b) == Err(ErrUnexpectedEOF) {
      ShortIsCut(b);
    }
    if CutShort(b) {
      var v: Bytes, rest: Bytes :| IsFrame(b, v, rest) && |rest| < ValueOf(v) <= MAX_FRAME_PAYLOAD;
      CutIsShort(v, rest);
      assert b == Frame(v, rest);
    }
  }

  /** Re-encoding what was accepted gives a frame no longer than the input, with the same payload. */
  lemma ReencodeNoLonger(b: Bytes, payload: Bytes)
    requires Decoded(b) == Ok(payload)
    ensures |Encoded(payload)| <= |b|
    ensures Decoded(Encoded(payload)) == Ok(payload)
  {
    AcceptedExactly(b, payload);
    var v: Bytes, trailing: Bytes :| IsFrame(b, v, payload + trailing) && ValueOf(v) == |payload| <= MAX_FRAME_PAYLOAD;
    VarintShortest(v);
    RoundTrip(payload, []);
    assert Encoded(payload) + [] == Encoded(payload);
  }
}
