# otlp-wire: a verified model of the wire-format walker

otlp-wire counts and splits OpenTelemetry (OTLP) export requests without
unmarshalling them. It walks the Protocol Buffers wire format directly. A
walk reads a tag, then one of two things happens:

- the field number is one that the fixed OTLP schema descends into, and its
  wire type is length-delimited, so the walk takes the payload;
- anything else, so the walk skips the field by its wire type.

Every walk stops at the first failure.

On top of the walker, the library offers the following operations for each
of the three signals (metrics, logs, traces):

- a leaf count of the batch (data points, log records, spans);
- a split of the batch into its resource messages;
- the Resource bytes of one resource message;
- the re-wrapping of one resource message as a request of its own.

The model has eight modules:

- `Wire` restates the primitive codec the walker calls: varints, tags,
  fixed-width and length-delimited values, and the writers. It proves that
  the readers invert the writers.
- `Schema` holds the field-number schema, as a chain of `Level` values from
  each request down to its counted leaf. It also holds the walk results and
  the error kinds.
- `Walker` defines the walks as recursive specification functions over the
  remaining bytes. `Next` is one step. `Count`, `Payloads` and `FirstPayload`
  are the counting, splitting and resource walks. `Walker` also proves what
  they mean: a count above the leaves is the sum over the payloads, a leaf
  count is the number of taken payloads, payloads are ranges of the input,
  and the resource is the first payload the splitter would list.
- `Encoding` is an independent reference encoder for sequences of wire
  fields.
- `Conformance` proves the walker against that encoder. On any well-formed
  encoding, the splitter lists exactly the selected payloads in order, and
  the counters count exactly the selected fields.
- `Engine` holds the loops as the program runs them. Each is a method over a
  cursor `pos` whose loop invariants tie it to the specification walk. The
  module also holds the re-wrapping by successive appends.
- `Messages` holds the eleven counting functions, the three splitters and
  the three resource extractors of the program, each as the generic loop at
  its own schema level.
- `OtlpWire` holds the public surface, which swallows errors as the program
  does. It also holds the properties the program's tests assert: splitting
  preserves the count, wrapping then splitting round-trips, an empty batch
  counts 0, and a gauge with three points plus a sum with two counts five.

## Model

| member | source | states |
|---|---|---|
| Wire.ConsumeTag | otlpwire.go:230-234 | a decoded tag has field number 1..2^31-1 and occupies between 1 and all of the remaining bytes; a tag whose varint does not decode is malformed |
| Wire.ConsumeBytes | otlpwire.go:238-242 | a decoded length-delimited value is the range of the input just before its end, shorter than what it consumed; a length prefix larger than the bytes after it is truncated input, and a prefix that does not decode fails |
| Wire.ConsumeBytesTruncated | otlpwire.go:238-242 | a length-delimited value whose length prefix exceeds the bytes that follow it fails as truncated |
| Wire.VarintUnterminated | otlpwire.go:355-357 | fewer than ten bytes that all carry the continuation bit are a truncated varint |
| Wire.VarintFromEncoded | otlpwire.go:767-770 | decoding the varint encoding of x, whatever precedes or follows it, gives x and consumes exactly the encoding |
| Wire.ConsumeTagEncoded | otlpwire.go:767 | reading back a written tag gives its field number and wire type and consumes exactly the tag |
| Wire.ConsumeBytesEncoded | otlpwire.go:770 | reading back written length-delimited bytes gives the same bytes and consumes exactly the encoding |
| Walker.SkipField | otlpwire.go:353-370 | a varint or length-delimited body is skipped exactly when the codec reads it, consuming what the codec consumes (so truncated input fails); fixed64 consumes 8 bytes and fixed32 4, or fails on shorter input; groups and wire types 6 and 7 fail as unsupported; a success consumes at least 1 byte and at most the input |
| Walker.Next | otlpwire.go:229-257 | one loop step consumes at least 1 byte and at most what remains; it takes a payload only for a looked-for field number, and the payload is shorter than the step |
| Walker.LeafCountIsPayloadCount | otlpwire.go:480-511 | at a leaf level the count is the number of length-delimited occurrences of the counted field, and it fails exactly when the split fails |
| Walker.CountIsSumOverPayloads | otlpwire.go:225-259 | above the leaves, a count succeeds exactly when the split succeeds and every payload counts; it is then the sum of the payloads' counts one level down |
| Walker.PayloadsAreSubRanges | otlpwire.go:653-682 | every payload the splitter lists is a contiguous range of the input |
| Walker.FirstPayloadIsFirstListed | otlpwire.go:840-869 | the resource extractor returns the first payload the field-1 splitter lists, or empty bytes with no error when it lists none |
| Conformance.SkipEncodedBody | otlpwire.go:353-370 | skipping an encoded field body of any supported wire type consumes exactly that body |
| Conformance.NextOfEncoded | otlpwire.go:229-257 | on an encoded field, one step consumes exactly that field; it takes the payload exactly when the field is length-delimited and looked for, so a looked-for number with another wire type is skipped |
| Conformance.NextOfTruncatedBytes | otlpwire.go:237-255 | a length-delimited field whose length prefix runs past the end fails the step: invalid bytes when the number is looked for, a failed skip otherwise |
| Conformance.CountOfTruncatedBytes | otlpwire.go:229-258 | such a field fails the whole count with that error, whatever follows it |
| Conformance.NextOfUnterminated | otlpwire.go:230-251 | a varint field with no terminating byte cannot be skipped, and a tag with no terminating byte is malformed |
| Conformance.PayloadsOfEncoded | otlpwire.go:653-682 | the splitter inverts the encoder: it lists exactly the length-delimited payloads of the selected numbers, in encoding order |
| Conformance.LeafCountOfEncoded | otlpwire.go:480-511 | a leaf counter counts exactly the length-delimited occurrences of its field in an encoding |
| Conformance.CountOfEncoded | otlpwire.go:444-478 | above the leaves, the count of an encoding is the sum of the counts of its selected payloads |
| Conformance.FirstPayloadOfEncoded | otlpwire.go:840-869 | the resource extractor returns the first length-delimited field 1 and reads nothing after it |
| Conformance.WrapRoundTrip | otlpwire.go:757-773 | splitting a wrapped payload gives exactly that payload, alone |
| Conformance.CountOfWrapped | otlpwire.go:757-773 | counting a wrapped payload at a request level is counting the payload one level down |
| Engine.CountMessage | otlpwire.go:225-259 | the counting loop returns the specification count, or the walk's first error with count 0 |
| Engine.CountField | otlpwire.go:229-257 | one pass of the loop body consumes exactly the step's field and adds 0 for a skipped field, 1 for a taken field at a leaf level, and the payload's count one level down otherwise; or it reports the error that ends the walk |
| Engine.ExtractPayloads | otlpwire.go:653-682 | the splitting loop returns the specification list of payloads, or the first error with an empty list |
| Engine.ExtractResourceMessage | otlpwire.go:840-869 | the resource loop returns the first length-delimited field-1 payload, empty bytes when there is none, or the first error with empty bytes |
| Engine.WrapResource | otlpwire.go:757-773 | the wrapped request is the reference encoding of one length-delimited field 1 holding the resource message |
| Messages.CountMetricDataPoints | otlpwire.go:225-259 | the request's count is the specification count; on success the split succeeds and the count is the sum over its ResourceMetrics |
| Messages.CountLogRecords | otlpwire.go:270-304 | the same for an export logs request and its ResourceLogs |
| Messages.CountSpans | otlpwire.go:315-349 | the same for an export traces request and its ResourceSpans |
| Messages.CountInResourceMetrics | otlpwire.go:372-406 | a ResourceMetrics counts the sum over its ScopeMetrics, or fails with 0 |
| Messages.CountInScopeMetrics | otlpwire.go:408-442 | a ScopeMetrics counts the sum over its Metrics, or fails with 0 |
| Messages.CountInMetric | otlpwire.go:444-478 | a Metric counts the sum over its length-delimited fields 5, 7, 9, 10 and 11, or fails with 0 |
| Messages.CountDataPoints | otlpwire.go:480-511 | a metric variant counts its length-delimited field-1 occurrences, or fails with 0 |
| Messages.CountInResourceLogs | otlpwire.go:513-547 | a ResourceLogs counts the sum over its ScopeLogs, or fails with 0 |
| Messages.CountInScopeLogs | otlpwire.go:549-580 | a ScopeLogs counts its length-delimited field-2 occurrences, or fails with 0 |
| Messages.CountInResourceSpans | otlpwire.go:582-616 | a ResourceSpans counts the sum over its ScopeSpans, or fails with 0 |
| Messages.CountInScopeSpans | otlpwire.go:618-649 | a ScopeSpans counts its length-delimited field-2 occurrences, or fails with 0 |
| Messages.ExtractResourceMetrics | otlpwire.go:653-682 | the ResourceMetrics of a request, in order, each a range of the request, or an error with none; on success the request's count is the sum of their counts |
| Messages.ExtractResourceLogs | otlpwire.go:686-715 | the same for the ResourceLogs of a logs request |
| Messages.ExtractResourceSpans | otlpwire.go:719-748 | the same for the ResourceSpans of a traces request |
| Messages.ExtractResourceFromResourceMetrics | otlpwire.go:822-824 | the Resource of a ResourceMetrics is its first length-delimited field 1, empty when absent, or an error with empty bytes |
| Messages.ExtractResourceFromResourceLogs | otlpwire.go:828-830 | the same for a ResourceLogs |
| Messages.ExtractResourceFromResourceSpans | otlpwire.go:834-836 | the same for a ResourceSpans |
| OtlpWire.BatchCount | otlpwire.go:66-69 | DataPointCount (and LogRecordCount, otlpwire.go:132-135, and SpanCount, otlpwire.go:175-178) is the count of the walk, and 0 when the walk fails |
| OtlpWire.SplitByResource | otlpwire.go:83-94 | SplitByResource (the same at otlpwire.go:141-152 and 184-195) lists the resource messages, each a range of the batch, and nothing when the walk fails |
| OtlpWire.Resource | otlpwire.go:105-108 | Resource (the same at otlpwire.go:158-161 and 201-204) is the first length-delimited field 1, and empty bytes when the walk fails |
| OtlpWire.AsExportRequest | otlpwire.go:757-773 | AsExportRequest (otlpwire.go:124-126, 167-169, 210-212) is the byte 0x0A, the varint length of the resource message, then the message |
| OtlpWire.CountOfExportRequest | otlpwire.go:124-126 | counting the request that AsExportRequest makes counts the resource message itself |
| OtlpWire.SplitPreservesCount | wireformat_test.go:173-205 | on a well-formed batch, the batch count equals the sum of the counts of each split resource wrapped back as a request |
| OtlpWire.EmptyBatch | wireformat_test.go:210-220 | an empty batch counts 0 and splits into nothing |
| OtlpWire.ExportRequestRoundTrip | wireformat_test.go:189-198 | splitting a wrapped resource gives it back alone, and the wrapped request counts what the resource holds |
| OtlpWire.SplitOfEncoded | otlpwire.go:83-94 | SplitByResource of a well-formed encoding lists exactly its length-delimited field-1 payloads, in order |
| OtlpWire.ResourceOfEncoded | otlpwire.go:840-869 | on a well-formed encoding the resource walk succeeds, with its first length-delimited field 1, or empty bytes when it has none; so does the public Resource |
| OtlpWire.ResourceOfWrongWireType | otlpwire.go:851 | a field 1 written as a varint is skipped: the resource walk succeeds with empty bytes, not an error |
| OtlpWire.ResourceMissing | otlpwire.go:867-868 | for a resource message without field 1 the resource walk succeeds with empty bytes, not an error |
| OtlpWire.TruncatedScopeFails | otlpwire.go:384-388 | a ScopeMetrics whose length prefix claims more bytes than remain fails its ResourceMetrics' count as invalid bytes, and the public count of the request made from it is 0 |
| OtlpWire.OtherWireTypeNotCounted | otlpwire.go:561-577 | in a ScopeLogs message, a field 2 written as a varint is skipped and only the length-delimited field 2 counts, for any varint value and any log record bytes |
| OtlpWire.MetricCountsItsVariant | otlpwire.go:455-467 | a metric with a name and one variant in field 5, 7, 9, 10 or 11 counts the variant's data points and its name none |
| OtlpWire.ScopeCountsItsMetrics | otlpwire.go:408-442 | a ScopeMetrics with two metrics counts the sum of their counts |
| OtlpWire.ResourceCountsItsScope | otlpwire.go:372-406 | a ResourceMetrics with one ScopeMetrics counts that scope's count |
| OtlpWire.PointsCount | otlpwire.go:480-511 | a metric variant with three data points counts three and one with two counts two, whatever the points hold |
| OtlpWire.GaugeAndSumCountFive | wireformat_test.go:45-66 | for any two metric names and any data point contents, each shorter than 128 bytes, a request holding a gauge with three data points and a sum with two has DataPointCount 5 |

## Left out

- The `protowire` library is not part of this model. Its readers and writers
  (`ConsumeTag`, `ConsumeVarint`, `ConsumeBytes`, `ConsumeFixed32/64`,
  `AppendTag`, `AppendBytes`) are restated in `Wire` from the documented
  encoding, including its limits: at most ten varint bytes, the tenth below
  2, and field numbers from 1 to 2^31-1. They are not a transcription of the
  library.
- The values of varint and fixed-width fields are not modelled: the walker
  only skips them. Fixed-width fields in the reference encoder carry raw
  bytes of the right length.
- Error messages are modelled as kinds (`MalformedTag`, `InvalidBytes`,
  `SkipFailed`), tagged with the message being walked. The program's
  strings are not modelled.
- Go's machine `int` is modelled as `nat`: counts and positions cannot
  overflow here.
- A nil slice and an empty slice are both the empty sequence. So "split
  failed" (nil) and "no resources" (empty) are the same value, as are a nil
  and an empty Resource.
- Sub-slices are modelled as values (`seq<byte>`). Aliasing of the input
  buffer, and the capacity pre-sizing in `wrapResource*`
  (otlpwire.go:758-764), are not modelled.
- `wrapResourceMetrics`, `wrapResourceLogs` and `wrapResourceSpans` are
  identical, so they are modelled once, by `Engine.WrapResource`. Likewise,
  `extractResourceFrom*` differ only in the message name of their errors,
  which is the level passed to `Engine.ExtractResourceMessage`.
- The public methods (`DataPointCount`, `LogRecordCount`, `SpanCount`,
  `SplitByResource`, `Resource`, `AsExportRequest`, otlpwire.go:66-212)
  are modelled once each, as functions of the signal (`OtlpWire.BatchCount`,
  `SplitByResource`, `Resource`, `AsExportRequest`), since the three copies
  differ only in the schema level.
- OtlpWire.SplitPreservesCount: requires the batch to be shorter than 2^64
  bytes, so that every resource message can be re-wrapped with a 64-bit
  varint length. Every Go slice meets this.
- The iterators with deferred errors, `WriteTo`, span accessors, and
  error-returning counts exercised by otlpwire_test.go are not part of
  otlpwire.go, so they are not modelled.
- The same goes for the test fixtures built with the pdata marshaller,
  benchmarks, and example_test.go (hashing, printing).
- The tests of a later API (otlpwire_test.go:1128-1198) expect "wrong wire
  type" and "not found" errors from Resource. otlpwire.go does not raise
  them, and the model follows otlpwire.go:
  - a looked-for field number with another wire type is skipped, not an
    error (otlpwire.go:237, 851);
  - a missing Resource gives empty bytes and no error
    (otlpwire.go:867-868).
