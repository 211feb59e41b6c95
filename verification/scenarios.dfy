/**
 * Whole requests, from handler to the response the client sees, for both
 * implementations, and the places where the two implementations answer the
 * same request differently.
 */
module Scenarios {
  import opened Wrappers
  import opened Json
  import opened Records
  import opened DataStore
  import opened Http
  import PyRoutes
  import PyErrorMiddleware
  import TsErrorHandler
  import TsController
  import Validator
  import JsParseInt
  import Text

  /** The rule list the ingest route runs before the controller. */
  const IngestRules := [Validator.ValidationRule("data", true, Some(Validator.TypeObject), None, None, None)]

  /** POST /data in the Express application: the validator, then the controller, then the error handler. */
  function TsIngestRoute(s: Store, body: JsonObject, id: string, now: Timestamp): (r: (Store, Response))
    requires Valid(s) && id !in s.records
    ensures Valid(r.0)
    ensures Validator.ValidateRequest(IngestRules, body).Reject? ==>
              r.0 == s && r.1 == TsErrorHandler.ErrorHandler(TsErrorHandler.ThrownAppError(Validator.ValidateRequest(IngestRules, body).error))
    ensures Validator.ValidateRequest(IngestRules, body).CallNext? ==>
              var (s1, out) := TsController.IngestData(s, body, id, now);
              r == (s1, TsErrorHandler.Respond(out))
  {
    match Validator.ValidateRequest(IngestRules, body)
    case Reject(err) => (s, TsErrorHandler.ErrorHandler(TsErrorHandler.ThrownAppError(err)))
    case CallNext =>
      var (s1, out) := TsController.IngestData(s, body, id, now);
      (s1, TsErrorHandler.Respond(out))
  }

  /**
   * For a limit in [1, 1000] and a non-negative offset, the two list endpoints
   * answer the same request with the same response: the same page, the same
   * pagination and the same counts.
   */
  lemma {:induction false} ListingsAgreeInRange(s: Store, limit: int, offset: int)
    requires Valid(s) && 1 <= limit <= 1000 && 0 <= offset
    ensures PyRoutes.GetAllData(s, Some(limit), Some(offset)).response
            == TsController.GetAllData(s, Some(Text.IntToString(limit)), Some(Text.IntToString(offset))).response
  {
    JsParseInt.ParseIntOfIntToString(limit);
    JsParseInt.ParseIntOfIntToString(offset);
  }

  /** The ingest route's rule admits exactly the bodies the controller's own check admits, so that check never fires behind it. */
  lemma IngestRuleMatchesController(body: JsonObject)
    ensures Validator.ValidateRequest(IngestRules, body).CallNext? <==> TsController.AcceptsData(Field(body, "data"))
  {
  }

  /**
   * A body whose `data` is missing or null, or is a string, is rejected by the
   * validator with 400 "Validation failed" and the message explaining why; the
   * store is unchanged.
   */
  lemma TsInvalidIngestBodies(s: Store, body: JsonObject, id: string, now: Timestamp)
    requires Valid(s) && id !in s.records
    ensures ("data" !in body || body["data"].JNull?) ==>
              var (s1, r) := TsIngestRoute(s, body, id, now);
              && s1 == s && r.status == 400 && IsErrorEnvelope(r)
              && r.body.error.message == "Validation failed"
              && r.body.error.details == Some(Validator.ErrorsDetail([Validator.RequiredMessage("data")]))
    ensures "data" in body && body["data"].JString? ==>
              var (s1, r) := TsIngestRoute(s, body, id, now);
              && s1 == s && r.status == 400 && IsErrorEnvelope(r)
              && r.body.error.message == "Validation failed"
              && r.body.error.details == Some(Validator.ErrorsDetail([Validator.TypeMessage("data", Validator.TypeObject)]))
  {
    Validator.SingleRule(IngestRules[0], body);
  }

  /** An unknown id is answered 404 with the uniform envelope by GET, process and DELETE, in Python. */
  lemma PyUnknownIdIs404(s: Store, id: string, now: Timestamp)
    requires Valid(s) && id !in s.records
    ensures var expected := Response(404, ErrorBody(ApiError(NotFoundMessage(id), 404, None)));
            && PyErrorMiddleware.ErrorHandler(PyRoutes.GetData(s, id)) == expected
            && PyErrorMiddleware.ErrorHandler(PyRoutes.ProcessData(s, id, now).1) == expected
            && PyErrorMiddleware.ErrorHandler(PyRoutes.DeleteData(s, id).1) == expected
  {
  }

  /** An unknown id is answered 404 with the uniform envelope by GET, process and DELETE, in TypeScript. */
  lemma TsUnknownIdIs404(s: Store, id: string, now: Timestamp)
    requires Valid(s) && id !in s.records
    ensures var expected := Response(404, ErrorBody(ApiError(NotFoundMessage(id), 404, None)));
            && TsErrorHandler.Respond(TsController.GetData(s, id)) == expected
            && TsErrorHandler.Respond(TsController.ProcessData(s, id, now).1) == expected
            && TsErrorHandler.Respond(TsController.DeleteData(s, id).1) == expected
  {
    assert NotFoundMessage(id) != "";
  }

  /** A body whose `data` is missing or not an object never reaches the Python handler: the framework answers 422 and nothing is stored. */
  lemma PyMalformedIngestIs422(s: Store, body: JsonObject, id: string, now: Timestamp)
    requires Valid(s) && id !in s.records
    requires !("data" in body && body["data"].JObject?)
    ensures var (s1, r) := PyRoutes.IngestEndpoint(s, body, id, now);
            s1 == s && r.Returned? && r.response.status == 422
  {
  }

  /** The empty object as `data`: Python answers 400, since an empty dict is falsy; TypeScript stores it and answers 201. */
  lemma EmptyObjectDivergence(s: Store, id: string, now: Timestamp)
    requires Valid(s) && id !in s.records
    ensures PyErrorMiddleware.ErrorHandler(PyRoutes.IngestEndpoint(s, map["data" := JObject(map[])], id, now).1)
              == Response(400, ErrorBody(ApiError(InvalidDataMessage, 400, None)))
    ensures TsIngestRoute(s, map["data" := JObject(map[])], id, now).1.status == 201
  {
  }

  /** An unexpected error: Python answers 500 with the fixed text; TypeScript answers 500 with the error's own message. */
  lemma InternalErrorDivergence(message: string)
    requires message != "" && message != PyErrorMiddleware.InternalErrorMessage
    ensures var py := PyErrorMiddleware.ErrorHandler(PyRoutes.Raised(PyRoutes.RaisedOther(message)));
            py.status == 500 && py.body.error.message == PyErrorMiddleware.InternalErrorMessage
    ensures var ts := TsErrorHandler.ErrorHandler(TsErrorHandler.ThrownError(message));
            ts.status == 500 && ts.body.error.message == message
  {
  }

  /**
   * A record's life through the Python API: ingest answers 201 unprocessed;
   * process answers 200 processed with status "success"; processing again
   * answers the same record; delete answers 200; a second delete answers 404.
   */
  lemma PyLifecycle(s: Store, id: string, t1: Timestamp, t2: Timestamp, t3: Timestamp, data: JsonObject)
    requires Valid(s) && id !in s.records && |data| > 0
    ensures var (s1, created) := PyRoutes.IngestEndpoint(s, map["data" := JObject(data)], id, t1);
            var (s2, processed) := PyRoutes.ProcessData(s1, id, t2);
            var (s3, again) := PyRoutes.ProcessData(s2, id, t3);
            var (s4, deleted) := PyRoutes.DeleteData(s3, id);
            var (s5, deletedAgain) := PyRoutes.DeleteData(s4, id);
            && created.response.status == 201 && !created.response.body.record.processed
            && processed.response.status == 200 && processed.response.body.record.processed
            && processed.response.body.record.processingResult.value.status.Literal() == "success"
            && again == processed && s3 == s2
            && deleted.response.status == 200
            && PyErrorMiddleware.ErrorHandler(deletedAgain).status == 404
  {
    var body := map["data" := JObject(data)];
    assert ParseIngestRequest(body) == Some(IngestDataRequest(data, None));
  }
}
