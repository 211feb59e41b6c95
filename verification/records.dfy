/**
 * The record shapes: `DataRecord`, `ProcessingResult`, `ProcessedData` and
 * `IngestDataRequest`. A processed record is a `DataRecord` whose optional
 * processing fields are filled in, rather than a separate subtype.
 */
module Records {
  import opened Wrappers
  import opened Json

  /** A clock reading, supplied by the caller; the store never inspects it. */
  datatype Timestamp = Timestamp(epochMillis: int)

  /** The two literals a processing result's `status` may take. */
  datatype ProcessingStatus = StatusSuccess | StatusError {
    function Literal(): string {
      match this
      case StatusSuccess => "success"
      case StatusError => "error"
    }
  }

  datatype ProcessingResult = ProcessingResult(status: ProcessingStatus, message: Option<string>)

  /**
   * A stored record. `processingTimestamp` and `processingResult` are the two
   * fields a `ProcessedData` adds to a `DataRecord`.
   */
  datatype DataRecord = DataRecord(
    id: string,
    timestamp: Timestamp,
    data: Json,
    processed: bool,
    metadata: Option<Json>,
    processingTimestamp: Option<Timestamp>,
    processingResult: Option<ProcessingResult>)

  const ProcessedMessage := "Data processed successfully"

  /** The canned result every processing step attaches. */
  const SuccessResult := ProcessingResult(StatusSuccess, Some(ProcessedMessage))

  /** A record is a `ProcessedData` exactly when `processed` holds, and then it carries its processing time. */
  predicate IsProcessedData(r: DataRecord) {
    r.processed && r.processingTimestamp.Some?
  }

  /** The shape either type admits: processing fields only on processed records. */
  predicate WellFormed(r: DataRecord) {
    && (r.processed <==> r.processingTimestamp.Some?)
    && (r.processingResult.Some? ==> r.processed)
  }

  /** A freshly ingested record: `processed` defaults to false and `metadata` to None. */
  function NewRecord(id: string, timestamp: Timestamp, data: Json, metadata: Option<Json> := None): (r: DataRecord)
    ensures WellFormed(r) && !IsProcessedData(r)
    ensures r.id == id && r.timestamp == timestamp && r.data == data && r.metadata == metadata
  {
    DataRecord(id, timestamp, data, false, metadata, None, None)
  }

  /**
   * The processed copy of a record: every original field is kept, `processed`
   * becomes true, the processing time is stamped and the success result attached.
   */
  function MarkProcessed(r: DataRecord, now: Timestamp): (p: DataRecord)
    ensures IsProcessedData(p) && WellFormed(p)
    ensures p.id == r.id && p.timestamp == r.timestamp && p.data == r.data && p.metadata == r.metadata
    ensures p.processingTimestamp == Some(now)
    ensures p.processingResult == Some(SuccessResult) && p.processingResult.value.status.Literal() == "success"
  {
    r.(processed := true, processingTimestamp := Some(now), processingResult := Some(SuccessResult))
  }

  /** The body of an ingest request once parsed: `data` a JSON object, `metadata` an optional one. */
  datatype IngestDataRequest = IngestDataRequest(data: JsonObject, metadata: Option<JsonObject>)

  /**
   * Request-model parsing of an ingest body: `data` must be present and an
   * object; `metadata` may be absent or null, and otherwise must be an object.
   * None is the framework's rejection, which it answers with 422.
   */
  function ParseIngestRequest(body: JsonObject): (r: Option<IngestDataRequest>)
    ensures r.Some? <==> ("data" in body && body["data"].JObject?
                          && ("metadata" !in body || body["metadata"].JNull? || body["metadata"].JObject?))
    ensures r.Some? ==> JObject(r.value.data) == body["data"]
    ensures r.Some? ==> (r.value.metadata.None? <==> "metadata" !in body || body["metadata"].JNull?)
    ensures r.Some? && r.value.metadata.Some? ==> body["metadata"] == JObject(r.value.metadata.value)
  {
    match Field(body, "data")
    case Some(JObject(data)) =>
      (match Field(body, "metadata")
       case None => Some(IngestDataRequest(data, None))
       case Some(JNull) => Some(IngestDataRequest(data, None))
       case Some(JObject(m)) => Some(IngestDataRequest(data, Some(m)))
       case Some(_) => None)
    case _ => None
  }
}
