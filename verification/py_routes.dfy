/**
 * The Python data routes: each handler runs one store operation and either
 * returns a response or raises. Raised exceptions are answered by the error
 * middleware (`PyErrorMiddleware`).
 */
module PyRoutes {
  import opened Wrappers
  import opened Json
  import opened Records
  import opened DataStore
  import opened Http
  import Text

  /** What a Python handler may raise: the application error, a `ValueError`, or any other exception. */
  datatype PyException =
    | RaisedAppError(app: AppError)
    | RaisedValueError(message: string)
    | RaisedOther(message: string)

  /** A handler either returns a response or raises. */
  datatype PyOutcome = Returned(response: Response) | Raised(exception: PyException)

  function MetadataJson(m: Option<JsonObject>): Option<Json> {
    match m
    case None => None
    case Some(o) => Some(JObject(o))
  }

  /**
   * POST /data. A falsy `data` (the empty dict, since the request model already
   * guarantees a dict) raises AppError 400; otherwise the record is stored under
   * the fresh id and returned with 201.
   */
  function IngestData(s: Store, request: IngestDataRequest, id: string, now: Timestamp): (r: (Store, PyOutcome))
    requires Valid(s) && id !in s.records
    ensures Valid(r.0)
    ensures r.1.Raised? <==> !PyTruthy(JObject(request.data))
    ensures r.1.Raised? <==> |request.data| == 0
    ensures r.1.Raised? ==> r.0 == s && r.1.exception == RaisedAppError(AppError(400, InvalidDataMessage, None))
    ensures r.1.Returned? ==>
              && r.1.response.status == 201
              && r.1.response.body.RecordBody?
              && var rec := r.1.response.body.record;
              && rec.id == id && rec.timestamp == now && !rec.processed
              && rec.data == JObject(request.data) && rec.metadata == MetadataJson(request.metadata)
              && Get(r.0, id) == Some(rec)
              && r.0.records.Keys == s.records.Keys + {id}
    ensures r.1.Returned? ==> r.0 == Ingest(s, id, now, JObject(request.data), MetadataJson(request.metadata)).0
  {
    var data := JObject(request.data);
    if !PyTruthy(data) then
      (s, Raised(RaisedAppError(AppError(400, InvalidDataMessage, None))))
    else
      var (s1, rec) := Ingest(s, id, now, data, MetadataJson(request.metadata));
      (s1, Returned(Response(201, RecordBody(rec))))
  }

  /**
   * POST /data as bound by the framework: the JSON body is first parsed into the
   * request model, and a body without an object `data` (or with a non-object
   * `metadata`) is answered 422 before the handler runs.
   */
  function IngestEndpoint(s: Store, body: JsonObject, id: string, now: Timestamp): (r: (Store, PyOutcome))
    requires Valid(s) && id !in s.records
    ensures Valid(r.0)
    ensures ParseIngestRequest(body).None? ==> r == (s, Returned(Response(422, FrameworkValidationBody)))
    ensures ParseIngestRequest(body).Some? ==> r == IngestData(s, ParseIngestRequest(body).value, id, now)
  {
    match ParseIngestRequest(body)
    case None => (s, Returned(Response(422, FrameworkValidationBody)))
    case Some(request) => IngestData(s, request, id, now)
  }

  /** The `except ValueError` clause of the process route: a "not found" message becomes AppError 404, anything else is re-raised. */
  function TranslateProcessError(e: LookupError): (x: PyException)
    ensures Text.Contains(e.message, "not found") ==> x == RaisedAppError(AppError(404, e.message, None))
    ensures !Text.Contains(e.message, "not found") ==> x == RaisedValueError(e.message)
  {
    if Text.Contains(e.message, "not found") then RaisedAppError(AppError(404, e.message, None))
    else RaisedValueError(e.message)
  }

  /**
   * POST /data/{id}/process. A known id answers 200 with the processed record;
   * an unknown one raises AppError 404 with the store's message and changes nothing.
   */
  function ProcessData(s: Store, id: string, now: Timestamp): (r: (Store, PyOutcome))
    requires Valid(s)
    ensures Valid(r.0)
    ensures r.1.Returned? <==> id in s.records
    ensures r.1.Returned? ==>
              && r.1.response.status == 200
              && r.1.response.body.RecordBody?
              && r.1.response.body.record.processed
              && Get(r.0, id) == Some(r.1.response.body.record)
    ensures r.0 == Process(s, id, now).0
    ensures r.1.Returned? ==> r.1.response.body.record == Process(s, id, now).1.value
    ensures r.1.Raised? ==>
              r.0 == s && r.1.exception == RaisedAppError(AppError(404, NotFoundMessage(id), None))
  {
    var (s1, result) := Process(s, id, now);
    match result
    case Ok(rec) => (s1, Returned(Response(200, RecordBody(rec))))
    case Err(e) =>
      NotFoundMessageSaysNotFound(id);
      (s1, Raised(TranslateProcessError(e)))
  }

  /** GET /data/{id}: 200 with the stored record, or AppError 404 "Record with id {id} not found". */
  function GetData(s: Store, id: string): (r: PyOutcome)
    requires Valid(s)
    ensures r.Returned? <==> id in s.records
    ensures r.Returned? ==> r.response == Response(200, RecordBody(s.records[id])) && s.records[id].id == id
    ensures r.Raised? ==> r.exception == RaisedAppError(AppError(404, NotFoundMessage(id), None))
  {
    match Get(s, id)
    case Some(rec) => Returned(Response(200, RecordBody(rec)))
    case None => Raised(RaisedAppError(AppError(404, NotFoundMessage(id), None)))
  }

  /**
   * GET /data?limit&offset. The declared query parameters default to 100 and 0
   * and must satisfy 1 <= limit <= 1000 and offset >= 0, or the framework
   * answers 422. Otherwise the page is returned with the limit and offset it
   * was asked for, the store's counts, and `pagination.total == stats.total`.
   */
  function GetAllData(s: Store, limit: Option<int>, offset: Option<int>): (r: PyOutcome)
    requires Valid(s)
    ensures r.Returned?
    ensures var l := limit.GetOr(100);
            var o := offset.GetOr(0);
            (r.response.status == 200 <==> 1 <= l <= 1000 && 0 <= o)
    ensures r.response.status != 200 ==> r.response == Response(422, FrameworkValidationBody)
    ensures r.response.status == 200 ==>
              && r.response.body.ListBody?
              && var b := r.response.body;
              && b.pagination.limit == limit.GetOr(100)
              && b.pagination.offset == offset.GetOr(0)
              && b.pagination.total == b.stats.total == |s.records|
              && b.stats.processed + b.stats.unprocessed == b.stats.total
              && b.stats == GetStats(s)
              && IsWindow(s, b.records, b.pagination.limit, b.pagination.offset)
  {
    var l := limit.GetOr(100);
    var o := offset.GetOr(0);
    if !(1 <= l <= 1000) || o < 0 then Returned(Response(422, FrameworkValidationBody))
    else
      Returned(Response(200, ListPage(s, l, o)))
  }

  /** DELETE /data/{id}: 200 with "Record with id {id} deleted successfully", or AppError 404 for an unknown id. */
  function DeleteData(s: Store, id: string): (r: (Store, PyOutcome))
    requires Valid(s)
    ensures Valid(r.0)
    ensures r.1.Returned? <==> id in s.records
    ensures r.1.Returned? ==> r.1.response == Response(200, MessageBody(DeletedMessage(id))) && id !in r.0.records
    ensures r.0 == Delete(s, id).0
    ensures r.1.Raised? ==> r.0 == s && r.1.exception == RaisedAppError(AppError(404, NotFoundMessage(id), None))
  {
    var (s1, deleted) := Delete(s, id);
    if !deleted then (s1, Raised(RaisedAppError(AppError(404, NotFoundMessage(id), None))))
    else (s1, Returned(Response(200, MessageBody(DeletedMessage(id)))))
  }
}
