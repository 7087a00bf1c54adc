/**
 * The primitive wire codec of the Protocol Buffers encoding ("Base 128
 * Varints" and "Message Structure" of the Protocol Buffers Encoding
 * documentation): the readers and writers the walker relies on for tags,
 * varints, fixed-width and length-delimited values.
 *
 * In the original program these come from the `protowire` library, which is
 * not part of this model; they are restated here from the documented encoding
 * (including the library's limits: at most ten varint bytes, the tenth below
 * 2, field numbers from 1 to the largest 32-bit signed integer) and the
 * properties the walker needs are proved about this restatement.
 */
module Wire {

  type byte = x: int | 0 <= x < 256

  /** A wire type is the low three bits of a tag. */
  type WireType = t: nat | t < 8

  const VarintType: WireType := 0
  const Fixed64Type: WireType := 1
  const BytesType: WireType := 2
  const StartGroupType: WireType := 3
  const EndGroupType: WireType := 4
  const Fixed32Type: WireType := 5

  /** Varints carry unsigned 64-bit values. */
  const VarintLimit: nat := 0x1_0000_0000_0000_0000

  /** The largest field number a tag may carry (a 32-bit signed maximum). */
  const MaxFieldNumber: nat := 0x7FFF_FFFF

  datatype CodecError = Truncated | BadFieldNumber | Overflow | UnsupportedWireType

  /** A decoded value and the number of bytes it occupied, or the reason decoding failed. */
  datatype Decoded<T> = Decoded(value: T, n: nat) | Malformed(error: CodecError)

  datatype Tag = Tag(num: nat, wt: WireType)

  /** Exclusive bound on the value that the varint bytes from index k onwards
      can still contribute: seven bits per byte, one bit in the tenth byte. */
  function VarintCap(k: nat): (c: nat)
    requires k <= 9
    ensures c >= 2
    decreases 9 - k
  {
    if k == 9 then 2 else 128 * VarintCap(k + 1)
  }

  lemma VarintCapIsLimit()
    ensures VarintCap(0) == VarintLimit
  {
  }

  /** Decodes the varint whose byte k is b[k]; the value is that of bytes k.. only. */
  function VarintFrom(b: seq<byte>, k: nat): (r: Decoded<nat>)
    requires k <= 9
    ensures r.Decoded? ==> k < r.n <= |b| && r.n <= 10 && r.value < VarintCap(k)
    decreases 9 - k
  {
    if |b| <= k then Malformed(Truncated)
    else if k == 9 then (if b[k] < 2 then Decoded(b[k], 10) else Malformed(Overflow))
    else if b[k] < 128 then Decoded(b[k], k + 1)
    else
      match VarintFrom(b, k + 1)
      case Malformed(e) => Malformed(e)
      case Decoded(v, n) => Decoded(b[k] - 128 + 128 * v, n)
  }

  function ConsumeVarint(b: seq<byte>): (r: Decoded<nat>)
    ensures r.Decoded? ==> 1 <= r.n <= |b| && r.n <= 10 && r.value < VarintLimit
    ensures b == [] ==> r == Malformed(Truncated)
  {
    VarintCapIsLimit();
    VarintFrom(b, 0)
  }

  /** A tag is the varint field_number << 3 | wire_type. */
  function ConsumeTag(b: seq<byte>): (r: Decoded<Tag>)
    ensures r.Decoded? ==> 1 <= r.n <= |b| && 1 <= r.value.num <= MaxFieldNumber
    ensures ConsumeVarint(b).Malformed? ==> r == Malformed(ConsumeVarint(b).error)
  {
    match ConsumeVarint(b)
    case Malformed(e) => Malformed(e)
    case Decoded(v, n) =>
      if v / 8 < 1 || v / 8 > MaxFieldNumber then Malformed(BadFieldNumber)
      else Decoded(Tag(v / 8, v % 8), n)
  }

  /** A length-delimited value: a varint length m, then m bytes. */
  function ConsumeBytes(b: seq<byte>): (r: Decoded<seq<byte>>)
    ensures r.Decoded? ==> 1 <= r.n <= |b| && |r.value| < r.n && r.value == b[r.n - |r.value| .. r.n]
    ensures ConsumeVarint(b).Malformed? ==> r == Malformed(ConsumeVarint(b).error)
    ensures ConsumeVarint(b).Decoded? && ConsumeVarint(b).value > |b| - ConsumeVarint(b).n ==> r == Malformed(Truncated)
  {
    match ConsumeVarint(b)
    case Malformed(e) => Malformed(e)
    case Decoded(m, n) =>
      if m > |b| - n then Malformed(Truncated) else Decoded(b[n .. n + m], n + m)
  }

  /** Fixed-width values; the walker never looks at the value itself. */
  function ConsumeFixed32(b: seq<byte>): (r: Decoded<()>)
    ensures r.Decoded? <==> |b| >= 4
    ensures r.Decoded? ==> r.n == 4
  {
    if |b| < 4 then Malformed(Truncated) else Decoded((), 4)
  }

  function ConsumeFixed64(b: seq<byte>): (r: Decoded<()>)
    ensures r.Decoded? <==> |b| >= 8
    ensures r.Decoded? ==> r.n == 8
  {
    if |b| < 8 then Malformed(Truncated) else Decoded((), 8)
  }

  /** Base-128 little-endian encoding, continuation bit set on all but the last byte. */
  function EncodeVarint(x: nat): (e: seq<byte>)
    ensures 1 <= |e|
    decreases x
  {
    if x < 128 then [x] else [x % 128 + 128] + EncodeVarint(x / 128)
  }

  lemma EncodeVarintSmall(x: nat)
    requires x < 128
    ensures EncodeVarint(x) == [x]
  {
  }

  function AppendVarint(buf: seq<byte>, x: nat): seq<byte>
  {
    buf + EncodeVarint(x)
  }

  lemma AppendVarintToNothing(x: nat)
    ensures AppendVarint([], x) == EncodeVarint(x)
  {
    assert [] + EncodeVarint(x) == EncodeVarint(x);
  }

  function AppendTag(buf: seq<byte>, num: nat, wt: WireType): seq<byte>
  {
    AppendVarint(buf, num * 8 + wt)
  }

  function AppendBytes(buf: seq<byte>, v: seq<byte>): seq<byte>
  {
    AppendVarint(buf, |v|) + v
  }

  lemma {:induction false} EncodeVarintShort(x: nat)
    ensures |EncodeVarint(x)| <= x + 1
    decreases x
  {
    if x >= 128 {
      EncodeVarintShort(x / 128);
    }
  }

  /** Bytes that all carry the continuation bit, fewer than ten of them, end
      before the varint does. */
  lemma {:induction false} VarintFromUnterminated(b: seq<byte>, k: nat)
    requires k <= |b| < 10
    requires forall i | k <= i < |b| :: b[i] >= 128
    ensures VarintFrom(b, k) == Malformed(Truncated)
    decreases |b| - k
  {
    if k < |b| {
      VarintFromUnterminated(b, k + 1);
    }
  }

  lemma VarintUnterminated(b: seq<byte>)
    requires |b| < 10
    requires forall i | 0 <= i < |b| :: b[i] >= 128
    ensures ConsumeVarint(b) == Malformed(Truncated)
  {
    VarintFromUnterminated(b, 0);
  }

  /** Decoding the encoding of x, placed after k arbitrary bytes, gives x back
      and consumes exactly the encoding. */
  lemma {:induction false} VarintFromEncoded(p: seq<byte>, x: nat, rest: seq<byte>)
    requires |p| <= 9 && x < VarintCap(|p|)
    ensures VarintFrom(p + EncodeVarint(x) + rest, |p|) == Decoded(x, |p| + |EncodeVarint(x)|)
    decreases x
  {
    var b := p + EncodeVarint(x) + rest;
    var k := |p|;
    assert b[k] == EncodeVarint(x)[0];
    if x >= 128 {
      assert k < 9;
      var p' := p + [x % 128 + 128];
      assert b == p' + EncodeVarint(x / 128) + rest;
      assert x / 128 < VarintCap(k + 1);
      VarintFromEncoded(p', x / 128, rest);
    }
  }

  lemma ConsumeVarintEncoded(x: nat, rest: seq<byte>)
    requires x < VarintLimit
    ensures ConsumeVarint(EncodeVarint(x) + rest) == Decoded(x, |EncodeVarint(x)|)
  {
    VarintCapIsLimit();
    VarintFromEncoded([], x, rest);
    assert [] + EncodeVarint(x) + rest == EncodeVarint(x) + rest;
  }

  lemma ConsumeTagEncoded(num: nat, wt: WireType, rest: seq<byte>)
    requires 1 <= num <= MaxFieldNumber
    ensures ConsumeTag(AppendTag([], num, wt) + rest) == Decoded(Tag(num, wt), |AppendTag([], num, wt)|)
  {
    var v := num * 8 + wt;
    assert v / 8 == num && v % 8 == wt;
    assert AppendTag([], num, wt) == EncodeVarint(v);
    ConsumeVarintEncoded(v, rest);
  }

  /** A length prefix larger than what follows it is truncated input. */
  lemma ConsumeBytesTruncated(m: nat, rest: seq<byte>)
    requires m < VarintLimit && m > |rest|
    ensures ConsumeBytes(EncodeVarint(m) + rest) == Malformed(Truncated)
  {
    ConsumeVarintEncoded(m, rest);
  }

  lemma ConsumeBytesEncoded(v: seq<byte>, rest: seq<byte>)
    requires |v| < VarintLimit
    ensures ConsumeBytes(AppendBytes([], v) + rest) == Decoded(v, |AppendBytes([], v)|)
  {
    var e := EncodeVarint(|v|);
    assert AppendBytes([], v) + rest == e + (v + rest);
    ConsumeVarintEncoded(|v|, v + rest);
    assert (e + (v + rest))[|e| .. |e| + |v|] == v;
  }
}
