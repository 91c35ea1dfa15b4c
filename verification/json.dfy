/** The shapes of data the connector handles: JSON scalars from the
    provider, flat documents written to the store, and the provider's
    columnar `hourly` block. */
module Json {
  import opened Results
  import Calendar

  /** A field value of a record. `Instant` is a `datetime` (the BSON date
      stamped as `ingested_at`); the rest are JSON scalars. */
  datatype Value =
    | Null
    | Num(x: real)
    | Str(s: string)
    | Bool(b: bool)
    | Instant(t: Calendar.DateTime)

  /** A flat record: field name to value. */
  type Document = map<string, Value>

  /** The `hourly` object of the response: one array per key, `time` among them. */
  type Hourly = map<string, seq<Value>>

  /** The decoded response body, reduced to the part the connector reads. */
  datatype Payload = Payload(hourly: Option<Hourly>)

  const TimeKey := "time"

  /** The identity fields of a flattened record, which together form the
      store's natural key. */
  const SourceField := "source"
  const LatField := "lat"
  const LonField := "lon"
  const TimestampField := "timestamp"

  /** The payload carries `hourly.time`, the shape the extractor insists on. */
  predicate HasHourlyTime(p: Payload) {
    p.hourly.Some? && TimeKey in p.hourly.value
  }
}
