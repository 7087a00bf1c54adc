/**
 * The fixed OTLP field-number schema the walker follows, the outcome types of
 * a walk, and the errors it reports.
 *
 *   ExportMetricsServiceRequest  field 1: ResourceMetrics (repeated)
 *   ResourceMetrics              field 1: Resource, field 2: ScopeMetrics (repeated)
 *   ScopeMetrics                 field 2: Metric (repeated)
 *   Metric                       fields 5, 7, 9, 10, 11: Gauge, Sum, Histogram,
 *                                ExponentialHistogram, Summary
 *   metric variant               field 1: data point (repeated)        <- counted
 *   ExportLogsServiceRequest     field 1: ResourceLogs (repeated)
 *   ResourceLogs                 field 1: Resource, field 2: ScopeLogs (repeated)
 *   ScopeLogs                    field 2: LogRecord (repeated)         <- counted
 *   ExportTracesServiceRequest   field 1: ResourceSpans (repeated)
 *   ResourceSpans                field 1: Resource, field 2: ScopeSpans (repeated)
 *   ScopeSpans                   field 2: Span (repeated)              <- counted
 */
module Schema {

  datatype Option<T> = None | Some(value: T)

  /** The message kinds the walker reads. */
  datatype Message =
    | ExportMetricsRequest | ResourceMetrics | ScopeMetrics | Metric | MetricVariant
    | ExportLogsRequest | ResourceLogs | ScopeLogs
    | ExportTracesRequest | ResourceSpans | ScopeSpans

  /** One level of a descent path: the message read there, the field numbers
      whose length-delimited occurrences the counting walk takes, and the level
      those payloads are counted at (None at a leaf level, where every taken
      occurrence counts one). */
  datatype Level = Level(message: Message, fields: set<nat>, inner: Option<Level>)

  const MetricVariantLevel: Level := Level(MetricVariant, {1}, None)
  const MetricLevel: Level := Level(Metric, {5, 7, 9, 10, 11}, Some(MetricVariantLevel))
  const ScopeMetricsLevel: Level := Level(ScopeMetrics, {2}, Some(MetricLevel))
  const ResourceMetricsLevel: Level := Level(ResourceMetrics, {2}, Some(ScopeMetricsLevel))
  const MetricsRequestLevel: Level := Level(ExportMetricsRequest, {1}, Some(ResourceMetricsLevel))

  const ScopeLogsLevel: Level := Level(ScopeLogs, {2}, None)
  const ResourceLogsLevel: Level := Level(ResourceLogs, {2}, Some(ScopeLogsLevel))
  const LogsRequestLevel: Level := Level(ExportLogsRequest, {1}, Some(ResourceLogsLevel))

  const ScopeSpansLevel: Level := Level(ScopeSpans, {2}, None)
  const ResourceSpansLevel: Level := Level(ResourceSpans, {2}, Some(ScopeSpansLevel))
  const TracesRequestLevel: Level := Level(ExportTracesRequest, {1}, Some(ResourceSpansLevel))

  datatype Signal = Metrics | Logs | Traces

  function RequestLevel(s: Signal): Level
  {
    match s
    case Metrics => MetricsRequestLevel
    case Logs => LogsRequestLevel
    case Traces => TracesRequestLevel
  }

  function ResourceLevel(s: Signal): Level
  {
    match s
    case Metrics => ResourceMetricsLevel
    case Logs => ResourceLogsLevel
    case Traces => ResourceSpansLevel
  }

  /** Why a walk reading message `at` stopped:
      a tag did not decode; a matched length-delimited field (number `field`)
      ran past the end; or an unmatched field could not be skipped. */
  datatype Error =
    | MalformedTag(at: Message)
    | InvalidBytes(at: Message, field: nat)
    | SkipFailed(at: Message)

  datatype Result<T> = Ok(value: T) | Err(error: Error)

  /** c added to a count that may have failed. */
  function Plus(c: nat, r: Result<nat>): Result<nat>
  {
    match r
    case Ok(v) => Ok(c + v)
    case Err(e) => Err(e)
  }

  lemma PlusZero(r: Result<nat>)
    ensures Plus(0, r) == r
  {
  }

  lemma PlusPlus(c: nat, d: nat, r: Result<nat>)
    ensures Plus(c, Plus(d, r)) == Plus(c + d, r)
  {
  }

  /** xs put in front of a list that may have failed. */
  function Prepend<T>(xs: seq<T>, r: Result<seq<T>>): Result<seq<T>>
  {
    match r
    case Ok(ys) => Ok(xs + ys)
    case Err(e) => Err(e)
  }

  lemma PrependNil<T>(r: Result<seq<T>>)
    ensures Prepend([], r) == r
  {
    match r
    case Ok(zs) => assert [] + zs == zs;
    case Err(_) =>
  }

  lemma PrependPrepend<T>(xs: seq<T>, ys: seq<T>, r: Result<seq<T>>)
    ensures Prepend(xs, Prepend(ys, r)) == Prepend(xs + ys, r)
  {
    match r
    case Ok(zs) => assert xs + (ys + zs) == (xs + ys) + zs;
    case Err(_) =>
  }

  /** The length of a list that may have failed. */
  function Size<T>(r: Result<seq<T>>): Result<nat>
  {
    match r
    case Ok(ys) => Ok(|ys|)
    case Err(e) => Err(e)
  }
}
