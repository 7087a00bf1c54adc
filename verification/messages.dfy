/**
 * The per-message functions of the original program. Each is the counting,
 * splitting or resource loop of Engine run at one fixed level of the schema,
 * and each states, besides agreeing with the specification walk at that
 * level, what the walk means there: above the leaves a count is the sum of the
 * counts of the payloads one level down, at a leaf level it is the number of
 * length-delimited occurrences of the counted field.
 */
module Messages {
  import opened Wire
  import opened Schema
  import opened Walker
  import opened Engine

  /** An export metrics request: the data points of all its ResourceMetrics. */
  method CountMetricDataPoints(data: seq<byte>) returns (count: nat, err: Option<Error>)
    ensures Count(MetricsRequestLevel, data) == Outcome(count, err)
    ensures err.Some? ==> count == 0
    ensures err.None? ==> Payloads(MetricsRequestLevel, MetricsRequestLevel.fields, data).Ok?
    ensures err.None? ==> SumCount(ResourceMetricsLevel, Payloads(MetricsRequestLevel, MetricsRequestLevel.fields, data).value) == Ok(count)
  {
    count, err := CountMessage(MetricsRequestLevel, data);
    CountIsSumOverPayloads(MetricsRequestLevel, data);
  }

  /** A ResourceMetrics message: the data points of all its ScopeMetrics. */
  method CountInResourceMetrics(data: seq<byte>) returns (count: nat, err: Option<Error>)
    ensures Count(ResourceMetricsLevel, data) == Outcome(count, err)
    ensures err.Some? ==> count == 0
    ensures err.None? ==> Payloads(ResourceMetricsLevel, ResourceMetricsLevel.fields, data).Ok?
    ensures err.None? ==> SumCount(ScopeMetricsLevel, Payloads(ResourceMetricsLevel, ResourceMetricsLevel.fields, data).value) == Ok(count)
  {
    count, err := CountMessage(ResourceMetricsLevel, data);
    CountIsSumOverPayloads(ResourceMetricsLevel, data);
  }

  /** A ScopeMetrics message: the data points of all its Metrics. */
  method CountInScopeMetrics(data: seq<byte>) returns (count: nat, err: Option<Error>)
    ensures Count(ScopeMetricsLevel, data) == Outcome(count, err)
    ensures err.Some? ==> count == 0
    ensures err.None? ==> Payloads(ScopeMetricsLevel, ScopeMetricsLevel.fields, data).Ok?
    ensures err.None? ==> SumCount(MetricLevel, Payloads(ScopeMetricsLevel, ScopeMetricsLevel.fields, data).value) == Ok(count)
  {
    count, err := CountMessage(ScopeMetricsLevel, data);
    CountIsSumOverPayloads(ScopeMetricsLevel, data);
  }

  /** A Metric message: the data points of its gauge, sum, histogram,
      exponential histogram and summary fields, whichever are present. */
  method CountInMetric(data: seq<byte>) returns (count: nat, err: Option<Error>)
    ensures Count(MetricLevel, data) == Outcome(count, err)
    ensures err.Some? ==> count == 0
    ensures err.None? ==> Payloads(MetricLevel, MetricLevel.fields, data).Ok?
    ensures err.None? ==> SumCount(MetricVariantLevel, Payloads(MetricLevel, MetricLevel.fields, data).value) == Ok(count)
  {
    count, err := CountMessage(MetricLevel, data);
    CountIsSumOverPayloads(MetricLevel, data);
  }

  /** An export logs request: the log records of all its ResourceLogs. */
  method CountLogRecords(data: seq<byte>) returns (count: nat, err: Option<Error>)
    ensures Count(LogsRequestLevel, data) == Outcome(count, err)
    ensures err.Some? ==> count == 0
    ensures err.None? ==> Payloads(LogsRequestLevel, LogsRequestLevel.fields, data).Ok?
    ensures err.None? ==> SumCount(ResourceLogsLevel, Payloads(LogsRequestLevel, LogsRequestLevel.fields, data).value) == Ok(count)
  {
    count, err := CountMessage(LogsRequestLevel, data);
    CountIsSumOverPayloads(LogsRequestLevel, data);
  }

  /** A ResourceLogs message: the log records of all its ScopeLogs. */
  method CountInResourceLogs(data: seq<byte>) returns (count: nat, err: Option<Error>)
    ensures Count(ResourceLogsLevel, data) == Outcome(count, err)
    ensures err.Some? ==> count == 0
    ensures err.None? ==> Payloads(ResourceLogsLevel, ResourceLogsLevel.fields, data).Ok?
    ensures err.None? ==> SumCount(ScopeLogsLevel, Payloads(ResourceLogsLevel, ResourceLogsLevel.fields, data).value) == Ok(count)
  {
    count, err := CountMessage(ResourceLogsLevel, data);
    CountIsSumOverPayloads(ResourceLogsLevel, data);
  }

  /** An export traces request: the spans of all its ResourceSpans. */
  method CountSpans(data: seq<byte>) returns (count: nat, err: Option<Error>)
    ensures Count(TracesRequestLevel, data) == Outcome(count, err)
    ensures err.Some? ==> count == 0
    ensures err.None? ==> Payloads(TracesRequestLevel, TracesRequestLevel.fields, data).Ok?
    ensures err.None? ==> SumCount(ResourceSpansLevel, Payloads(TracesRequestLevel, TracesRequestLevel.fields, data).value) == Ok(count)
  {
    count, err := CountMessage(TracesRequestLevel, data);
    CountIsSumOverPayloads(TracesRequestLevel, data);
  }

  /** A ResourceSpans message: the spans of all its ScopeSpans. */
  method CountInResourceSpans(data: seq<byte>) returns (count: nat, err: Option<Error>)
    ensures Count(ResourceSpansLevel, data) == Outcome(count, err)
    ensures err.Some? ==> count == 0
    ensures err.None? ==> Payloads(ResourceSpansLevel, ResourceSpansLevel.fields, data).Ok?
    ensures err.None? ==> SumCount(ScopeSpansLevel, Payloads(ResourceSpansLevel, ResourceSpansLevel.fields, data).value) == Ok(count)
  {
    count, err := CountMessage(ResourceSpansLevel, data);
    CountIsSumOverPayloads(ResourceSpansLevel, data);
  }

  /** A metric variant (gauge, sum, ...): its data points, field 1. */
  method CountDataPoints(data: seq<byte>) returns (count: nat, err: Option<Error>)
    ensures Count(MetricVariantLevel, data) == Outcome(count, err)
    ensures Size(Payloads(MetricVariantLevel, MetricVariantLevel.fields, data)) == Outcome(count, err)
    ensures err.Some? ==> count == 0
  {
    count, err := CountMessage(MetricVariantLevel, data);
    LeafCountIsPayloadCount(MetricVariantLevel, data);
  }

  /** A ScopeLogs message: its log records, field 2. */
  method CountInScopeLogs(data: seq<byte>) returns (count: nat, err: Option<Error>)
    ensures Count(ScopeLogsLevel, data) == Outcome(count, err)
    ensures Size(Payloads(ScopeLogsLevel, ScopeLogsLevel.fields, data)) == Outcome(count, err)
    ensures err.Some? ==> count == 0
  {
    count, err := CountMessage(ScopeLogsLevel, data);
    LeafCountIsPayloadCount(ScopeLogsLevel, data);
  }

  /** A ScopeSpans message: its spans, field 2. */
  method CountInScopeSpans(data: seq<byte>) returns (count: nat, err: Option<Error>)
    ensures Count(ScopeSpansLevel, data) == Outcome(count, err)
    ensures Size(Payloads(ScopeSpansLevel, ScopeSpansLevel.fields, data)) == Outcome(count, err)
    ensures err.Some? ==> count == 0
  {
    count, err := CountMessage(ScopeSpansLevel, data);
    LeafCountIsPayloadCount(ScopeSpansLevel, data);
  }

  /** The ResourceMetrics messages of an export request, in order, each a range of the
      request's own bytes; counting the request is counting them one by one. */
  method ExtractResourceMetrics(data: seq<byte>) returns (resources: seq<seq<byte>>, err: Option<Error>)
    ensures Payloads(MetricsRequestLevel, {1}, data) == Outcome(resources, err)
    ensures err.Some? ==> resources == []
    ensures forall p <- resources :: SubRange(p, data)
    ensures err.None? ==> Count(MetricsRequestLevel, data) == SumCount(ResourceMetricsLevel, resources)
  {
    resources, err := ExtractPayloads(MetricsRequestLevel, data);
    if err.None? {
      PayloadsAreSubRanges(MetricsRequestLevel, {1}, data);
      CountIsSumOverPayloads(MetricsRequestLevel, data);
    }
  }

  /** The ResourceLogs messages of an export request, in order, each a range of the
      request's own bytes; counting the request is counting them one by one. */
  method ExtractResourceLogs(data: seq<byte>) returns (resources: seq<seq<byte>>, err: Option<Error>)
    ensures Payloads(LogsRequestLevel, {1}, data) == Outcome(resources, err)
    ensures err.Some? ==> resources == []
    ensures forall p <- resources :: SubRange(p, data)
    ensures err.None? ==> Count(LogsRequestLevel, data) == SumCount(ResourceLogsLevel, resources)
  {
    resources, err := ExtractPayloads(LogsRequestLevel, data);
    if err.None? {
      PayloadsAreSubRanges(LogsRequestLevel, {1}, data);
      CountIsSumOverPayloads(LogsRequestLevel, data);
    }
  }

  /** The ResourceSpans messages of an export request, in order, each a range of the
      request's own bytes; counting the request is counting them one by one. */
  method ExtractResourceSpans(data: seq<byte>) returns (resources: seq<seq<byte>>, err: Option<Error>)
    ensures Payloads(TracesRequestLevel, {1}, data) == Outcome(resources, err)
    ensures err.Some? ==> resources == []
    ensures forall p <- resources :: SubRange(p, data)
    ensures err.None? ==> Count(TracesRequestLevel, data) == SumCount(ResourceSpansLevel, resources)
  {
    resources, err := ExtractPayloads(TracesRequestLevel, data);
    if err.None? {
      PayloadsAreSubRanges(TracesRequestLevel, {1}, data);
      CountIsSumOverPayloads(TracesRequestLevel, data);
    }
  }

  /** The Resource of a ResourceMetrics message: its first length-delimited field 1,
      the first such payload the splitter would list; empty when it has none. */
  method ExtractResourceFromResourceMetrics(data: seq<byte>) returns (resource: seq<byte>, err: Option<Error>)
    ensures FirstPayload(ResourceMetricsLevel, data) == Outcome(resource, err)
    ensures err.Some? ==> resource == []
    ensures err.None? && Payloads(ResourceMetricsLevel, {1}, data).Ok? ==>
              var listed := Payloads(ResourceMetricsLevel, {1}, data).value;
              resource == if listed == [] then [] else listed[0]
  {
    resource, err := ExtractResourceMessage(ResourceMetricsLevel, data);
    if Payloads(ResourceMetricsLevel, {1}, data).Ok? {
      FirstPayloadIsFirstListed(ResourceMetricsLevel, data);
    }
  }

  /** The Resource of a ResourceLogs message: its first length-delimited field 1,
      the first such payload the splitter would list; empty when it has none. */
  method ExtractResourceFromResourceLogs(data: seq<byte>) returns (resource: seq<byte>, err: Option<Error>)
    ensures FirstPayload(ResourceLogsLevel, data) == Outcome(resource, err)
    ensures err.Some? ==> resource == []
    ensures err.None? && Payloads(ResourceLogsLevel, {1}, data).Ok? ==>
              var listed := Payloads(ResourceLogsLevel, {1}, data).value;
              resource == if listed == [] then [] else listed[0]
  {
    resource, err := ExtractResourceMessage(ResourceLogsLevel, data);
    if Payloads(ResourceLogsLevel, {1}, data).Ok? {
      FirstPayloadIsFirstListed(ResourceLogsLevel, data);
    }
  }

  /** The Resource of a ResourceSpans message: its first length-delimited field 1,
      the first such payload the splitter would list; empty when it has none. */
  method ExtractResourceFromResourceSpans(data: seq<byte>) returns (resource: seq<byte>, err: Option<Error>)
    ensures FirstPayload(ResourceSpansLevel, data) == Outcome(resource, err)
    ensures err.Some? ==> resource == []
    ensures err.None? && Payloads(ResourceSpansLevel, {1}, data).Ok? ==>
              var listed := Payloads(ResourceSpansLevel, {1}, data).value;
              resource == if listed == [] then [] else listed[0]
  {
    resource, err := ExtractResourceMessage(ResourceSpansLevel, data);
    if Payloads(ResourceSpansLevel, {1}, data).Ok? {
      FirstPayloadIsFirstListed(ResourceSpansLevel, data);
    }
  }
}
