/** Values shared by the collector and the processor: the log envelope, the
    metric point and the errors of internal/domain. */
module Domain {

  datatype Option<+T> = None | Some(value: T)

  type byte = x: int | 0 <= x < 256
  type Bytes = seq<byte>

  /** Time stamps are instants, counted in nanoseconds. */
  datatype LogEvent = LogEvent(
    timestamp: int, source: string, tenant: string, apiName: string,
    latencyMs: real, statusCode: int, rawMeta: map<string, string>)

  datatype FieldValue = FloatField(f: real) | IntField(n: int)

  datatype MetricPoint = MetricPoint(
    measurement: string, tags: map<string, string>,
    fields: map<string, FieldValue>, time: int)

  datatype Error = NonRetryable | QueueSaturated | External(reason: string)
}
