/**
 * The walker against the reference encoder: on any well-formed message, each
 * step reads exactly one encoded field, the splitter lists exactly the
 * matched payloads in encoding order, the counters count exactly the matched
 * fields, and the resource extractor stops at the first field 1.
 */
module Conformance {
  import opened Wire
  import opened Schema
  import opened Walker
  import opened Encoding

  /** Skipping consumes exactly one encoded body, whatever follows it. */
  lemma SkipEncodedBody(f: WireField, rest: seq<byte>)
    requires Valid(f)
    ensures SkipField(Body(f) + rest, TypeOf(f)) == Decoded((), |Body(f)|)
  {
    match f
    case VarintField(_, v) => ConsumeVarintEncoded(v, rest);
    case Fixed64Field(_, _) =>
    case BytesField(_, p) => ConsumeBytesEncoded(p, rest);
    case Fixed32Field(_, _) =>
  }

  /** One step reads exactly one encoded field, and takes its payload exactly
      when the field is length-delimited and its number is looked for. */
  lemma NextOfEncoded(level: Level, nums: set<nat>, f: WireField, rest: seq<byte>)
    requires Valid(f)
    ensures EncodeField(f) + rest != []
    ensures Next(level, nums, EncodeField(f) + rest)
         == Ok(Field(f.num, |EncodeField(f)|, if f.BytesField? && f.num in nums then Some(f.payload) else None))
  {
    hide Next, SkipField, ConsumeTag, ConsumeBytes, ConsumeVarint, VarintFrom, EncodeVarint;
    var tag := AppendTag([], f.num, TypeOf(f));
    var b := EncodeField(f) + rest;
    assert b == tag + (Body(f) + rest);
    ConsumeTagEncoded(f.num, TypeOf(f), Body(f) + rest);
    assert b[|tag|..] == Body(f) + rest;
    assert |EncodeField(f)| == |tag| + |Body(f)|;
    if f.BytesField? && f.num in nums {
      ConsumeBytesEncoded(f.payload, rest);
      NextTakes(level, nums, b, Tag(f.num, BytesType), |tag|, f.payload, |Body(f)|);
      assert Next(level, nums, b) == Ok(Field(f.num, |EncodeField(f)|, Some(f.payload)));
    } else {
      SkipEncodedBody(f, rest);
      NextSkips(level, nums, b, Tag(f.num, TypeOf(f)), |tag|, |Body(f)|);
      assert Next(level, nums, b) == Ok(Field(f.num, |EncodeField(f)|, None));
    }
  }

  /** A length-delimited field whose length prefix runs past the end of the
      input fails the step: as a looked-for field it is invalid bytes, as any
      other field it cannot be skipped. */
  lemma NextOfTruncatedBytes(level: Level, nums: set<nat>, num: nat, m: nat, rest: seq<byte>)
    requires 1 <= num <= MaxFieldNumber && m < VarintLimit && m > |rest|
    ensures AppendTag([], num, BytesType) + EncodeVarint(m) + rest != []
    ensures Next(level, nums, AppendTag([], num, BytesType) + EncodeVarint(m) + rest)
         == Err(if num in nums then InvalidBytes(level.message, num) else SkipFailed(level.message))
  {
    hide Next, ConsumeTag, ConsumeBytes, SkipField;
    var tag := AppendTag([], num, BytesType);
    var b := tag + EncodeVarint(m) + rest;
    assert b == tag + (EncodeVarint(m) + rest);
    ConsumeTagEncoded(num, BytesType, EncodeVarint(m) + rest);
    assert b[|tag|..] == EncodeVarint(m) + rest;
    ConsumeBytesTruncated(m, rest);
    NextFails(level, nums, b);
  }

  /** A varint field whose value has no terminating byte cannot be skipped,
      and a tag with no terminating byte is malformed. */
  lemma NextOfUnterminated(level: Level, nums: set<nat>, num: nat, tail: seq<byte>)
    requires 1 <= num <= MaxFieldNumber
    requires |tail| < 10 && forall i | 0 <= i < |tail| :: tail[i] >= 128
    ensures Next(level, nums, AppendTag([], num, VarintType) + tail) == Err(SkipFailed(level.message))
    ensures tail != [] ==> Next(level, nums, tail) == Err(MalformedTag(level.message))
  {
    hide Next, ConsumeTag, ConsumeVarint, ConsumeBytes, SkipField;
    var tag := AppendTag([], num, VarintType);
    var b := tag + tail;
    ConsumeTagEncoded(num, VarintType, tail);
    assert b[|tag|..] == tail;
    VarintUnterminated(tail);
    NextFails(level, nums, b);
    if tail != [] {
      NextFails(level, nums, tail);
    }
  }

  /** ... and so fails the whole count, whatever follows. */
  lemma CountOfTruncatedBytes(level: Level, num: nat, m: nat, rest: seq<byte>)
    requires 1 <= num <= MaxFieldNumber && m < VarintLimit && m > |rest|
    ensures Count(level, AppendTag([], num, BytesType) + EncodeVarint(m) + rest)
         == Err(if num in level.fields then InvalidBytes(level.message, num) else SkipFailed(level.message))
  {
    hide Count, Next;
    NextOfTruncatedBytes(level, level.fields, num, m, rest);
    CountStepFails(level, AppendTag([], num, BytesType) + EncodeVarint(m) + rest);
  }

  lemma EncodeMessageCons(fs: seq<WireField>)
    requires fs != []
    ensures EncodeMessage(fs) == EncodeField(fs[0]) + EncodeMessage(fs[1..])
    ensures EncodeMessage(fs) != []
  {
    assert |EncodeField(fs[0])| >= 1;
  }

  /** The splitter inverts the encoder: it lists exactly the selected payloads, in order. */
  lemma {:induction false} PayloadsOfEncoded(level: Level, nums: set<nat>, fs: seq<WireField>)
    requires forall f <- fs :: Valid(f)
    ensures Payloads(level, nums, EncodeMessage(fs)) == Ok(Selected(nums, fs))
  {
    if fs != [] {
      var f := fs[0];
      var rest := EncodeMessage(fs[1..]);
      EncodeMessageCons(fs);
      NextOfEncoded(level, nums, f, rest);
      assert (EncodeField(f) + rest)[|EncodeField(f)|..] == rest;
      PayloadsOfEncoded(level, nums, fs[1..]);
    }
  }

  /** A leaf counter counts the length-delimited occurrences of its leaf field
      and nothing else: a leaf field number with another wire type is skipped. */
  lemma LeafCountOfEncoded(level: Level, fs: seq<WireField>)
    requires level.inner.None?
    requires forall f <- fs :: Valid(f)
    ensures Count(level, EncodeMessage(fs)) == Ok(|Selected(level.fields, fs)|)
  {
    LeafCountIsPayloadCount(level, EncodeMessage(fs));
    PayloadsOfEncoded(level, level.fields, fs);
  }

  /** Above the leaves, the count of an encoded message is the sum of the
      counts of its selected payloads one level down. */
  lemma CountOfEncoded(level: Level, fs: seq<WireField>)
    requires level.inner.Some?
    requires forall f <- fs :: Valid(f)
    ensures Count(level, EncodeMessage(fs)) == SumCount(level.inner.value, Selected(level.fields, fs))
  {
    CountIsSumOverPayloads(level, EncodeMessage(fs));
    PayloadsOfEncoded(level, level.fields, fs);
  }

  /** The resource extractor returns the first field-1 payload of the encoded
      fields and never reads past it; with none, it carries on into what follows. */
  lemma {:induction false} FirstPayloadOfEncoded(level: Level, fs: seq<WireField>, tail: seq<byte>)
    requires forall f <- fs :: Valid(f)
    ensures FirstPayload(level, EncodeMessage(fs) + tail)
         == if Selected({1}, fs) != [] then Ok(Selected({1}, fs)[0]) else FirstPayload(level, tail)
  {
    if fs == [] {
      assert EncodeMessage(fs) + tail == tail;
    } else {
      var f := fs[0];
      var rest := EncodeMessage(fs[1..]) + tail;
      EncodeMessageCons(fs);
      assert EncodeMessage(fs) + tail == EncodeField(f) + rest;
      NextOfEncoded(level, {1}, f, rest);
      assert (EncodeField(f) + rest)[|EncodeField(f)|..] == rest;
      FirstPayloadOfEncoded(level, fs[1..], tail);
    }
  }

  lemma EncodeMessageOfOne(a: WireField)
    ensures EncodeMessage([a]) == EncodeField(a)
  {
    EncodeMessageCons([a]);
    assert [a][1..] == [];
  }

  lemma EncodeMessageOfTwo(a: WireField, b: WireField)
    ensures EncodeMessage([a, b]) == EncodeField(a) + EncodeField(b)
  {
    EncodeMessageCons([a, b]);
    assert [a, b][1..] == [b];
    EncodeMessageOfOne(b);
  }

  lemma EncodeMessageOfThree(a: WireField, b: WireField, c: WireField)
    ensures EncodeMessage([a, b, c]) == EncodeField(a) + EncodeField(b) + EncodeField(c)
  {
    EncodeMessageCons([a, b, c]);
    assert [a, b, c][1..] == [b, c];
    EncodeMessageOfTwo(b, c);
  }

  lemma BytesFieldShort(n: nat, p: seq<byte>)
    ensures |EncodeField(BytesField(n, p))| <= 8 * n + 4 + 2 * |p|
  {
    EncodeVarintShort(n * 8 + 2);
    EncodeVarintShort(|p|);
  }

  lemma SelectedCons(nums: set<nat>, f: WireField, fs: seq<WireField>)
    ensures Selected(nums, [f] + fs) == (if f.BytesField? && f.num in nums then [f.payload] else []) + Selected(nums, fs)
  {
    assert ([f] + fs)[1..] == fs;
  }

  lemma SelectedOfOne(nums: set<nat>, r: seq<byte>)
    requires 1 in nums
    ensures Selected(nums, [BytesField(1, r)]) == [r]
  {
    var fs := [BytesField(1, r)];
    assert fs[1..] == [];
    assert Selected(nums, fs[1..]) == [];
  }

  /** Wrapping a payload as field 1 and splitting gives back exactly that payload. */
  lemma WrapRoundTrip(level: Level, nums: set<nat>, r: seq<byte>)
    requires 1 in nums && |r| < VarintLimit
    ensures Payloads(level, nums, EncodeMessage([BytesField(1, r)])) == Ok([r])
  {
    PayloadsOfEncoded(level, nums, [BytesField(1, r)]);
    SelectedOfOne(nums, r);
  }

  lemma SumCountOfOne(level: Level, p: seq<byte>)
    ensures SumCount(level, [p]) == Count(level, p)
  {
    hide Count;
    assert [p][1..] == [];
    assert SumCount(level, [p][1..]) == Ok(0);
  }

  lemma SumCountOfTwo(level: Level, p: seq<byte>, q: seq<byte>)
    requires Count(level, p).Ok? && Count(level, q).Ok?
    ensures SumCount(level, [p, q]) == Ok(Count(level, p).value + Count(level, q).value)
  {
    hide Count;
    assert [p, q][1..] == [q];
    SumCountOfOne(level, q);
  }

  /** Counting a wrapped payload at a request level is counting it one level down. */
  lemma CountOfWrapped(level: Level, r: seq<byte>)
    requires level.inner.Some? && 1 in level.fields && |r| < VarintLimit
    ensures Count(level, EncodeMessage([BytesField(1, r)])) == Count(level.inner.value, r)
  {
    CountOfEncoded(level, [BytesField(1, r)]);
    SelectedOfOne(level.fields, r);
    SumCountOfOne(level.inner.value, r);
  }
}
