/**
 * The Express data controller: each handler runs one store operation and
 * either sends a response or passes an error to `next`, which the error
 * handler (`TsErrorHandler`) answers.
 */
module TsController {
  import opened Wrappers
  import opened Json
  import opened Records
  import opened DataStore
  import opened Http
  import opened TsErrorHandler
  import opened JsParseInt
  import Slicing
  import Text

  /** The ingest check as written: `data` must be truthy and of `typeof` "object". */
  predicate AcceptsData(data: Option<Json>) {
    data.Some? && JsTruthy(data.value) && TypeOf(data.value) == "object"
  }

  /**
   * POST /data. Any truthy `data` whose `typeof` is "object" is stored, which
   * admits every object, the empty one included, and every array; anything
   * else is AppError 400. `metadata` is stored as sent, absent meaning none.
   */
  function IngestData(s: Store, body: JsonObject, id: string, now: Timestamp): (r: (Store, TsOutcome))
    requires Valid(s) && id !in s.records
    ensures Valid(r.0)
    ensures r.1.Sent? <==> "data" in body && (body["data"].JObject? || body["data"].JArray?)
    ensures r.1.Next? ==> r.0 == s && r.1.error == ThrownAppError(AppError(400, InvalidDataMessage, None))
    ensures r.1.Sent? ==>
              && r.1.response.status == 201
              && r.1.response.body.RecordBody?
              && var rec := r.1.response.body.record;
              && rec.id == id && rec.timestamp == now && !rec.processed
              && rec.data == body["data"] && rec.metadata == Field(body, "metadata")
              && Get(r.0, id) == Some(rec)
              && r.0.records.Keys == s.records.Keys + {id}
    ensures r.1.Sent? ==> r.0 == Ingest(s, id, now, body["data"], Field(body, "metadata")).0
  {
    var data := Field(body, "data");
    if !AcceptsData(data) then
      (s, Next(ThrownAppError(AppError(400, InvalidDataMessage, None))))
    else
      var (s1, rec) := Ingest(s, id, now, data.value, Field(body, "metadata"));
      (s1, Sent(Response(201, RecordBody(rec))))
  }

  /**
   * As written, an array passes the ingest check (`typeof []` is "object") and
   * is stored as the record's data, although the check's message says data
   * must be an object.
   */
  lemma ArrayDataIsStored(s: Store, id: string, now: Timestamp, items: seq<Json>)
    requires Valid(s) && id !in s.records
    ensures var (s1, out) := IngestData(s, map["data" := JArray(items)], id, now);
            && out.Sent? && out.response.status == 201
            && Get(s1, id).Some? && Get(s1, id).value.data == JArray(items)
  {
  }

  /** The ingest endpoint as evidently intended: only a JSON object is accepted as data. */
  function IngestObjectData(s: Store, body: JsonObject, id: string, now: Timestamp): (r: (Store, TsOutcome))
    requires Valid(s) && id !in s.records
    ensures Valid(r.0)
    ensures r.1.Sent? <==> "data" in body && body["data"].JObject?
    ensures r.1.Next? ==> r.0 == s && r.1.error == ThrownAppError(AppError(400, InvalidDataMessage, None))
    ensures r.1.Sent? ==> r.1.response.body.RecordBody? && r.1.response.body.record.data.JObject?
    ensures r.1.Sent? ==> r.1.response.status == 201 && Get(r.0, id) == Some(r.1.response.body.record)
    ensures r.1.Sent? ==> r == IngestData(s, body, id, now)
  {
    if "data" in body && body["data"].JObject? then IngestData(s, body, id, now)
    else (s, Next(ThrownAppError(AppError(400, InvalidDataMessage, None))))
  }

  /** The catch clause of the process handler: an error mentioning "not found" becomes AppError 404, any other is forwarded as it is. */
  function TranslateProcessError(e: LookupError): (x: TsError)
    ensures Text.Contains(e.message, "not found") ==> x == ThrownAppError(AppError(404, e.message, None))
    ensures !Text.Contains(e.message, "not found") ==> x == ThrownError(e.message)
  {
    if Text.Contains(e.message, "not found") then ThrownAppError(AppError(404, e.message, None))
    else ThrownError(e.message)
  }

  /** POST /data/:id/process: 200 with the processed record, or AppError 404 for an unknown id, the store unchanged. */
  function ProcessData(s: Store, id: string, now: Timestamp): (r: (Store, TsOutcome))
    requires Valid(s)
    ensures Valid(r.0)
    ensures r.1.Sent? <==> id in s.records
    ensures r.1.Sent? ==>
              && r.1.response.status == 200
              && r.1.response.body.RecordBody?
              && IsProcessedData(r.1.response.body.record)
              && Get(r.0, id) == Some(r.1.response.body.record)
    ensures r.0 == Process(s, id, now).0
    ensures r.1.Sent? ==> r.1.response.body.record == Process(s, id, now).1.value
    ensures r.1.Next? ==> r.0 == s && r.1.error == ThrownAppError(AppError(404, NotFoundMessage(id), None))
  {
    var (s1, result) := Process(s, id, now);
    match result
    case Ok(rec) => (s1, Sent(Response(200, RecordBody(rec))))
    case Err(e) =>
      NotFoundMessageSaysNotFound(id);
      (s1, Next(TranslateProcessError(e)))
  }

  /** GET /data/:id: 200 with the stored record, or AppError 404 "Record with id {id} not found". */
  function GetData(s: Store, id: string): (r: TsOutcome)
    requires Valid(s)
    ensures r.Sent? <==> id in s.records
    ensures r.Sent? ==> r.response == Response(200, RecordBody(s.records[id])) && s.records[id].id == id
    ensures r.Next? ==> r.error == ThrownAppError(AppError(404, NotFoundMessage(id), None))
  {
    match Get(s, id)
    case Some(rec) => Sent(Response(200, RecordBody(rec)))
    case None => Next(ThrownAppError(AppError(404, NotFoundMessage(id), None)))
  }

  /**
   * GET /data?limit&offset. The limit is `parseInt(limit) || 100` and the offset
   * `parseInt(offset) || 0`, with no bounds; the page is the slice
   * `[offset, offset + limit)` of the records in insertion order, and the
   * pagination echoes the limit and offset with `total == stats.total`.
   */
  function GetAllData(s: Store, limitQuery: Option<string>, offsetQuery: Option<string>): (r: TsOutcome)
    requires Valid(s)
    ensures r.Sent? && r.response.status == 200 && r.response.body.ListBody?
    ensures var b := r.response.body;
            && b.pagination.limit == ParseIntOr(limitQuery, 100)
            && b.pagination.offset == ParseIntOr(offsetQuery, 0)
            && b.pagination.total == b.stats.total == |s.records|
            && b.stats.processed + b.stats.unprocessed == b.stats.total
            && b.stats == GetStats(s)
    ensures var b := r.response.body;
            0 <= b.pagination.offset && 0 <= b.pagination.limit ==>
              IsWindow(s, b.records, b.pagination.limit, b.pagination.offset)
    ensures var b := r.response.body;
            IsSlice(s, b.records, b.pagination.offset, b.pagination.offset + b.pagination.limit)
  {
    var limit := ParseIntOr(limitQuery, 100);
    var offset := ParseIntOr(offsetQuery, 0);
    Sent(Response(200, ListPage(s, limit, offset)))
  }

  /** A decimal limit is taken as written unless it is 0, which falls back to 100; an absent one is 100. */
  lemma {:induction false} LimitDefaulting(s: Store, n: int)
    requires Valid(s)
    ensures GetAllData(s, Some(Text.IntToString(n)), None).response.body.pagination.limit == (if n == 0 then 100 else n)
    ensures GetAllData(s, None, None).response.body.pagination == Pagination(100, 0, |s.records|)
  {
    ParseIntOfIntToString(n);
  }

  /**
   * As written, a negative limit is not rejected: a limit parameter that parses
   * to -1 makes the slice end one before the last record, so the page holds
   * every record but the last, more than any limit would allow.
   */
  lemma {:induction false} NegativeLimitListsAllButLast(s: Store, limitQuery: Option<string>)
    requires Valid(s) && |s.order| >= 2 && ParseIntOr(limitQuery, 100) == -1
    ensures var b := GetAllData(s, limitQuery, None).response.body;
            && b.pagination.limit == -1
            && b.records == Values(s)[..|s.order| - 1]
            && |b.records| == |s.order| - 1
  {
    var b := GetAllData(s, limitQuery, None).response.body;
    assert b.records == List(s, -1, 0);
    ListAllButLast(s);
  }

  /** `?limit=-1` is such a parameter. */
  lemma {:induction false} MinusOneListsAllButLast(s: Store)
    requires Valid(s) && |s.order| >= 2
    ensures GetAllData(s, Some("-1"), None).response.body.records == Values(s)[..|s.order| - 1]
  {
    MinusOneParses();
    NegativeLimitListsAllButLast(s, Some("-1"));
  }

  lemma MinusOneParses()
    ensures ParseIntOr(Some("-1"), 100) == -1
  {
    assert TrimStart("-1") == "-1";
    assert "-1"[1..] == "1";
    assert LeadingDigits("1", 10) == "1" by {
      assert LeadingDigits("", 10) == "";
    }
    assert DigitsValue("1", 10) == 1 by {
      assert "1"[..0] == "";
    }
    assert ParseMagnitude("1") == Some(1);
  }

  /** A page of limit -1 from offset 0 is every record but the last. */
  lemma {:induction false} ListAllButLast(s: Store)
    requires Valid(s) && |s.order| >= 1
    ensures List(s, -1, 0) == Values(s)[..|s.order| - 1]
  {
    var vs := Values(s);
    assert Slicing.ClampIndex(-1, |vs|) == |vs| - 1;
    assert Slicing.ClampIndex(0, |vs|) == 0;
  }

  const InvalidPaginationMessage := "Invalid pagination: limit must be between 1 and 1000 and offset at least 0"

  /**
   * The list endpoint as evidently intended: after defaulting, a limit outside
   * [1, 1000] or a negative offset is AppError 400; every page sent is a window
   * of at most `limit` consecutive records starting at `offset`.
   */
  function GetAllDataBounded(s: Store, limitQuery: Option<string>, offsetQuery: Option<string>): (r: TsOutcome)
    requires Valid(s)
    ensures var limit := ParseIntOr(limitQuery, 100);
            var offset := ParseIntOr(offsetQuery, 0);
            r.Sent? <==> 1 <= limit <= 1000 && 0 <= offset
    ensures r.Next? ==> r.error == ThrownAppError(AppError(400, InvalidPaginationMessage, None))
    ensures r.Sent? ==>
              && r.response.status == 200 && r.response.body.ListBody?
              && var b := r.response.body;
              && 1 <= b.pagination.limit <= 1000 && 0 <= b.pagination.offset
              && IsWindow(s, b.records, b.pagination.limit, b.pagination.offset)
              && b.pagination.limit == ParseIntOr(limitQuery, 100)
              && b.pagination.offset == ParseIntOr(offsetQuery, 0)
              && b.stats == GetStats(s)
    ensures r.Sent? ==> r == GetAllData(s, limitQuery, offsetQuery)
  {
    var limit := ParseIntOr(limitQuery, 100);
    var offset := ParseIntOr(offsetQuery, 0);
    if 1 <= limit <= 1000 && 0 <= offset then GetAllData(s, limitQuery, offsetQuery)
    else Next(ThrownAppError(AppError(400, InvalidPaginationMessage, None)))
  }

  /** DELETE /data/:id: 200 with "Record with id {id} deleted successfully", or AppError 404 when nothing was deleted. */
  function DeleteData(s: Store, id: string): (r: (Store, TsOutcome))
    requires Valid(s)
    ensures Valid(r.0)
    ensures r.1.Sent? <==> id in s.records
    ensures r.1.Sent? ==> r.1.response == Response(200, MessageBody(DeletedMessage(id))) && Get(r.0, id).None?
    ensures r.0 == Delete(s, id).0
    ensures r.1.Next? ==> r.0 == s && r.1.error == ThrownAppError(AppError(404, NotFoundMessage(id), None))
  {
    var (s1, deleted) := Delete(s, id);
    if !deleted then (s1, Next(ThrownAppError(AppError(404, NotFoundMessage(id), None))))
    else (s1, Sent(Response(200, MessageBody(DeletedMessage(id)))))
  }
}
