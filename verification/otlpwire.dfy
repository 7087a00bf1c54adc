/**
 * The public surface of the library: for each signal, the count of its leaf
 * items in an export request, the split of a request into its resource
 * messages, the Resource of one resource message, and the wrapping of a
 * resource message back into a request of its own. Every one of them
 * swallows a walk's error: a malformed request counts 0 and splits into
 * nothing, a malformed resource message has the empty Resource.
 *
 * The signal selects one of the three request types; the three copies of
 * each operation in the original program differ only in the schema level
 * they start from.
 */
module OtlpWire {
  import opened Wire
  import opened Schema
  import opened Walker
  import opened Encoding
  import opened Conformance

  /** DataPointCount, LogRecordCount and SpanCount: the count of the batch, and
      0 when the walk fails. */
  function BatchCount(s: Signal, batch: seq<byte>): (r: nat)
    ensures Count(RequestLevel(s), batch).Ok? ==> r == Count(RequestLevel(s), batch).value
    ensures Count(RequestLevel(s), batch).Err? ==> r == 0
  {
    match Count(RequestLevel(s), batch)
    case Ok(c) => c
    case Err(_) => 0
  }

  /** SplitByResource, for each of the three request types: the resource
      messages, in order, each a range of the batch; nothing when the walk
      fails. */
  function SplitByResource(s: Signal, batch: seq<byte>): (r: seq<seq<byte>>)
    ensures Payloads(RequestLevel(s), {1}, batch).Ok? ==> r == Payloads(RequestLevel(s), {1}, batch).value
    ensures Payloads(RequestLevel(s), {1}, batch).Err? ==> r == []
    ensures forall p <- r :: SubRange(p, batch)
  {
    match Payloads(RequestLevel(s), {1}, batch)
    case Ok(resources) =>
      PayloadsAreSubRanges(RequestLevel(s), {1}, batch);
      resources
    case Err(_) => []
  }

  /** Resource, for each of the three resource message types: the first
      length-delimited field 1, and empty bytes when the walk fails. */
  function Resource(s: Signal, resource: seq<byte>): (r: seq<byte>)
    ensures FirstPayload(ResourceLevel(s), resource).Ok? ==> r == FirstPayload(ResourceLevel(s), resource).value
    ensures FirstPayload(ResourceLevel(s), resource).Err? ==> r == []
  {
    match FirstPayload(ResourceLevel(s), resource)
    case Ok(r) => r
    case Err(_) => []
  }

  /** AsExportRequest, the same for the three signals: the byte 0x0A (field 1,
      length-delimited), the varint length of the resource message, then the
      message itself. */
  function AsExportRequest(resource: seq<byte>): (r: seq<byte>)
    ensures r == [0x0A] + EncodeVarint(|resource|) + resource
  {
    SingleFieldBytes(resource);
    EncodeMessage([BytesField(1, resource)])
  }

  lemma SingleFieldBytes(resource: seq<byte>)
    ensures EncodeMessage([BytesField(1, resource)]) == [0x0A] + EncodeVarint(|resource|) + resource
  {
    hide EncodeVarint, EncodeMessage, AppendTag, Body, EncodeField;
    var f := BytesField(1, resource);
    EncodeMessageOfOne(f);
    FieldOneTag();
    BytesBody(1, resource);
    FieldParts(f);
  }

  lemma FieldParts(f: WireField)
    ensures EncodeField(f) == AppendTag([], f.num, TypeOf(f)) + Body(f)
  {
  }

  lemma FieldOneTag()
    ensures AppendTag([], 1, BytesType) == [0x0A]
  {
    EncodeVarintSmall(1 * 8 + BytesType);
  }

  lemma BytesBody(num: nat, p: seq<byte>)
    ensures Body(BytesField(num, p)) == EncodeVarint(|p|) + p
  {
    AppendVarintToNothing(|p|);
  }

  /** The batch counts of each resource, wrapped as a request of its own, added up. */
  function CountEach(s: Signal, resources: seq<seq<byte>>): nat
  {
    if resources == [] then 0
    else BatchCount(s, AsExportRequest(resources[0])) + CountEach(s, resources[1..])
  }

  /** Wrapping a resource message and counting the request it makes counts the
      resource message itself. */
  lemma CountOfExportRequest(s: Signal, resource: seq<byte>)
    requires |resource| < VarintLimit
    ensures Count(RequestLevel(s), AsExportRequest(resource)) == Count(ResourceLevel(s), resource)
  {
    CountOfWrapped(RequestLevel(s), resource);
  }

  lemma {:induction false} SumCountIsCountEach(s: Signal, resources: seq<seq<byte>>, total: nat)
    requires forall r <- resources :: |r| < VarintLimit
    requires SumCount(ResourceLevel(s), resources) == Ok(total)
    ensures CountEach(s, resources) == total
    decreases |resources|
  {
    hide Count, AsExportRequest;
    if resources != [] {
      var r := resources[0];
      CountOfExportRequest(s, r);
      var c := Count(ResourceLevel(s), r).value;
      assert SumCount(ResourceLevel(s), resources) == Plus(c, SumCount(ResourceLevel(s), resources[1..]));
      assert SumCount(ResourceLevel(s), resources[1..]) == Ok(total - c);
      SumCountIsCountEach(s, resources[1..], total - c);
    }
  }

  /** Splitting preserves the count: on a well-formed request, the count of the
      whole batch is the sum of the counts of its resources, each wrapped back
      into a request of its own. (A request is a Go slice, far shorter than
      2^64 bytes.) */
  lemma SplitPreservesCount(s: Signal, batch: seq<byte>)
    requires |batch| < VarintLimit
    requires Count(RequestLevel(s), batch).Ok?
    ensures Payloads(RequestLevel(s), {1}, batch).Ok?
    ensures BatchCount(s, batch) == CountEach(s, SplitByResource(s, batch))
  {
    var level := RequestLevel(s);
    CountIsSumOverPayloads(level, batch);
    PayloadsAreSubRanges(level, {1}, batch);
    var resources := Payloads(level, {1}, batch).value;
    forall r <- resources
      ensures |r| < VarintLimit
    {
      var i :| 0 <= i <= |batch| && r <= batch[i..];
    }
    SumCountIsCountEach(s, resources, Count(level, batch).value);
  }

  /** An empty request has nothing to count and nothing to split. */
  lemma EmptyBatch(s: Signal)
    ensures BatchCount(s, []) == 0
    ensures SplitByResource(s, []) == []
  {
    CountEmpty(RequestLevel(s));
    PayloadsEmpty(RequestLevel(s), {1});
  }

  /** Wrapping then splitting gives the resource message back, alone; the
      wrapped request counts what the resource message holds. */
  lemma ExportRequestRoundTrip(s: Signal, resource: seq<byte>)
    requires |resource| < VarintLimit
    ensures SplitByResource(s, AsExportRequest(resource)) == [resource]
    ensures Count(RequestLevel(s), AsExportRequest(resource)) == Count(ResourceLevel(s), resource)
  {
    WrapRoundTrip(RequestLevel(s), {1}, resource);
    CountOfExportRequest(s, resource);
  }

  /** On any well-formed encoding, the split lists the length-delimited
      field-1 payloads, in order, and nothing else. */
  lemma SplitOfEncoded(s: Signal, fs: seq<WireField>)
    requires forall f <- fs :: Valid(f)
    ensures SplitByResource(s, EncodeMessage(fs)) == Selected({1}, fs)
  {
    PayloadsOfEncoded(RequestLevel(s), {1}, fs);
  }

  /** The Resource of a well-formed resource message is its first
      length-delimited field 1; a field 1 of another wire type is skipped, and
      a message without one has the empty Resource. Neither is an error: the
      resource walk itself succeeds. */
  lemma ResourceOfEncoded(s: Signal, fs: seq<WireField>)
    requires forall f <- fs :: Valid(f)
    ensures var listed := Selected({1}, fs);
            FirstPayload(ResourceLevel(s), EncodeMessage(fs)) == Ok(if listed == [] then [] else listed[0])
    ensures var listed := Selected({1}, fs);
            Resource(s, EncodeMessage(fs)) == if listed == [] then [] else listed[0]
  {
    FirstPayloadOfEncoded(ResourceLevel(s), fs, []);
    assert EncodeMessage(fs) + [] == EncodeMessage(fs);
    FirstPayloadEmpty(ResourceLevel(s));
  }

  /** A Resource written as a varint field 1 is skipped, not an error: the
      walk finds no Resource. */
  lemma ResourceOfWrongWireType(s: Signal)
    ensures FirstPayload(ResourceLevel(s), EncodeMessage([VarintField(1, 12345)])) == Ok([])
    ensures Resource(s, EncodeMessage([VarintField(1, 12345)])) == []
  {
    ResourceOfEncoded(s, [VarintField(1, 12345)]);
    assert Selected({1}, [VarintField(1, 12345)][1..]) == [];
  }

  /** A resource message with only an empty ScopeMetrics has no Resource, and
      that is not an error. */
  lemma ResourceMissing(s: Signal)
    ensures FirstPayload(ResourceLevel(s), EncodeMessage([BytesField(2, [])])) == Ok([])
    ensures Resource(s, EncodeMessage([BytesField(2, [])])) == []
  {
    ResourceOfEncoded(s, [BytesField(2, [])]);
    assert Selected({1}, [BytesField(2, [])][1..]) == [];
  }

  /** A ScopeMetrics whose length prefix claims 16 bytes where 2 remain fails
      the count of its ResourceMetrics, and the public count of the request
      made from it is 0. */
  lemma TruncatedScopeFails()
    ensures Count(ResourceMetricsLevel, [0x12, 16, 0, 0]) == Err(InvalidBytes(ResourceMetrics, 2))
    ensures BatchCount(Metrics, AsExportRequest([0x12, 16, 0, 0])) == 0
  {
    hide Count, EncodeVarint;
    EncodeVarintSmall(2 * 8 + BytesType);
    EncodeVarintSmall(16);
    assert AppendTag([], 2, BytesType) + EncodeVarint(16) + [0, 0] == [0x12, 16, 0, 0];
    CountOfTruncatedBytes(ResourceMetricsLevel, 2, 16, [0, 0]);
    CountOfExportRequest(Metrics, [0x12, 16, 0, 0]);
  }

  /** A metric counts the data points of its variant, and its name none. */
  lemma MetricCountsItsVariant(name: seq<byte>, num: nat, variant: seq<byte>, k: nat)
    requires num in {5, 7, 9, 10, 11}
    requires |name| < VarintLimit && |variant| < VarintLimit
    requires Count(MetricVariantLevel, variant) == Ok(k)
    ensures Count(MetricLevel, EncodeMessage([BytesField(1, name), BytesField(num, variant)])) == Ok(k)
  {
    hide Count, SumCount, EncodeMessage;
    var fs := [BytesField(1, name), BytesField(num, variant)];
    assert Valid(fs[0]) && Valid(fs[1]);
    CountOfEncoded(MetricLevel, fs);
    SelectedCons(MetricLevel.fields, BytesField(1, name), [BytesField(num, variant)]);
    SelectedCons(MetricLevel.fields, BytesField(num, variant), []);
    assert [BytesField(1, name)] + [BytesField(num, variant)] == fs;
    assert Selected(MetricLevel.fields, fs) == [variant];
    SumCountOfOne(MetricVariantLevel, variant);
  }

  /** A scope counts the data points of its two metrics. */
  lemma ScopeCountsItsMetrics(first: seq<byte>, second: seq<byte>, a: nat, b: nat)
    requires |first| < VarintLimit && |second| < VarintLimit
    requires Count(MetricLevel, first) == Ok(a) && Count(MetricLevel, second) == Ok(b)
    ensures Count(ScopeMetricsLevel, EncodeMessage([BytesField(2, first), BytesField(2, second)])) == Ok(a + b)
  {
    hide Count, SumCount, EncodeMessage;
    var fs := [BytesField(2, first), BytesField(2, second)];
    assert Valid(fs[0]) && Valid(fs[1]);
    CountOfEncoded(ScopeMetricsLevel, fs);
    SelectedCons(ScopeMetricsLevel.fields, BytesField(2, first), [BytesField(2, second)]);
    SelectedCons(ScopeMetricsLevel.fields, BytesField(2, second), []);
    assert [BytesField(2, first)] + [BytesField(2, second)] == fs;
    assert Selected(ScopeMetricsLevel.fields, fs) == [first, second];
    SumCountOfTwo(MetricLevel, first, second);
  }

  /** A resource counts the data points of its one scope. */
  lemma ResourceCountsItsScope(scope: seq<byte>, k: nat)
    requires |scope| < VarintLimit
    requires Count(ScopeMetricsLevel, scope) == Ok(k)
    ensures Count(ResourceMetricsLevel, EncodeMessage([BytesField(2, scope)])) == Ok(k)
  {
    hide Count, SumCount, EncodeMessage;
    var fs := [BytesField(2, scope)];
    CountOfEncoded(ResourceMetricsLevel, fs);
    SelectedCons(ResourceMetricsLevel.fields, BytesField(2, scope), []);
    assert [BytesField(2, scope)] + [] == fs;
    assert Selected(ResourceMetricsLevel.fields, fs) == [scope];
    SumCountOfOne(ScopeMetricsLevel, scope);
  }

  /** A metric variant counts its data points, whatever they hold: three
      points count three and two count two. */
  lemma PointsCount(a: seq<byte>, b: seq<byte>, c: seq<byte>)
    requires |a| < VarintLimit && |b| < VarintLimit && |c| < VarintLimit
    ensures Count(MetricVariantLevel, EncodeMessage([BytesField(1, a), BytesField(1, b), BytesField(1, c)])) == Ok(3)
    ensures Count(MetricVariantLevel, EncodeMessage([BytesField(1, a), BytesField(1, b)])) == Ok(2)
  {
    hide Count, EncodeMessage;
    var fa, fb, fc := BytesField(1, a), BytesField(1, b), BytesField(1, c);
    assert Valid(fa) && Valid(fb) && Valid(fc);
    LeafCountOfEncoded(MetricVariantLevel, [fa, fb, fc]);
    LeafCountOfEncoded(MetricVariantLevel, [fa, fb]);
    SelectedCons({1}, fc, []);
    SelectedCons({1}, fb, [fc]);
    SelectedCons({1}, fb, []);
    SelectedCons({1}, fa, [fb, fc]);
    SelectedCons({1}, fa, [fb]);
    assert [fc] + [] == [fc] && [fb] + [] == [fb];
    assert [fb] + [fc] == [fb, fc] && [fa] + [fb] == [fa, fb] && [fa] + [fb, fc] == [fa, fb, fc];
  }

  /** A log record field (number 2) written as a varint is skipped, not
      counted: only its length-delimited occurrences are log records. */
  lemma OtherWireTypeNotCounted(v: nat, record: seq<byte>)
    requires v < VarintLimit && |record| < VarintLimit
    ensures Count(ScopeLogsLevel, EncodeMessage([VarintField(2, v), BytesField(2, record)])) == Ok(1)
  {
    hide Count, EncodeMessage;
    var fs := [VarintField(2, v), BytesField(2, record)];
    assert forall f <- fs :: Valid(f);
    LeafCountOfEncoded(ScopeLogsLevel, fs);
    SelectedCons(ScopeLogsLevel.fields, BytesField(2, record), []);
    SelectedCons(ScopeLogsLevel.fields, VarintField(2, v), [BytesField(2, record)]);
    assert [BytesField(2, record)] + [] == [BytesField(2, record)];
    assert [VarintField(2, v)] + [BytesField(2, record)] == fs;
  }

  /** One metric of a single scope of a single resource holds a gauge with
      three data points, another a sum with two: the request counts five. The
      metrics' names (their field 1) and what the data points hold are not
      counted. */
  lemma GaugeAndSumCountFive(gaugeName: seq<byte>, sumName: seq<byte>,
                             g1: seq<byte>, g2: seq<byte>, g3: seq<byte>, s1: seq<byte>, s2: seq<byte>)
    requires |gaugeName| < 128 && |sumName| < 128
    requires |g1| < 128 && |g2| < 128 && |g3| < 128 && |s1| < 128 && |s2| < 128
    ensures var gauge := EncodeMessage([BytesField(1, g1), BytesField(1, g2), BytesField(1, g3)]);
            var sum := EncodeMessage([BytesField(1, s1), BytesField(1, s2)]);
            var first := EncodeMessage([BytesField(1, gaugeName), BytesField(5, gauge)]);
            var second := EncodeMessage([BytesField(1, sumName), BytesField(7, sum)]);
            var scope := EncodeMessage([BytesField(2, first), BytesField(2, second)]);
            var resource := EncodeMessage([BytesField(2, scope)]);
            BatchCount(Metrics, AsExportRequest(resource)) == 5
  {
    hide Count, EncodeMessage, EncodeField, AsExportRequest;
    var gauge := EncodeMessage([BytesField(1, g1), BytesField(1, g2), BytesField(1, g3)]);
    var sum := EncodeMessage([BytesField(1, s1), BytesField(1, s2)]);
    PointsCount(g1, g2, g3);
    PointsCount(s1, s2, []);
    EncodeMessageOfThree(BytesField(1, g1), BytesField(1, g2), BytesField(1, g3));
    EncodeMessageOfTwo(BytesField(1, s1), BytesField(1, s2));
    BytesFieldShort(1, g1);
    BytesFieldShort(1, g2);
    BytesFieldShort(1, g3);
    BytesFieldShort(1, s1);
    BytesFieldShort(1, s2);
    assert |gauge| <= 1000 && |sum| <= 1000;

    var first := EncodeMessage([BytesField(1, gaugeName), BytesField(5, gauge)]);
    var second := EncodeMessage([BytesField(1, sumName), BytesField(7, sum)]);
    MetricCountsItsVariant(gaugeName, 5, gauge, 3);
    MetricCountsItsVariant(sumName, 7, sum, 2);
    EncodeMessageOfTwo(BytesField(1, gaugeName), BytesField(5, gauge));
    EncodeMessageOfTwo(BytesField(1, sumName), BytesField(7, sum));
    BytesFieldShort(1, gaugeName);
    BytesFieldShort(1, sumName);
    BytesFieldShort(5, gauge);
    BytesFieldShort(7, sum);
    assert |first| <= 10000 && |second| <= 10000;

    var scope := EncodeMessage([BytesField(2, first), BytesField(2, second)]);
    ScopeCountsItsMetrics(first, second, 3, 2);
    EncodeMessageOfTwo(BytesField(2, first), BytesField(2, second));
    BytesFieldShort(2, first);
    BytesFieldShort(2, second);
    assert |scope| <= 100000;

    var resource := EncodeMessage([BytesField(2, scope)]);
    ResourceCountsItsScope(scope, 5);
    EncodeMessageOfOne(BytesField(2, scope));
    BytesFieldShort(2, scope);
    assert |resource| <= 1000000;
    CountOfExportRequest(Metrics, resource);
  }
}
