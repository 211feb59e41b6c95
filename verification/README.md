# Data record service: a Dafny model

The service keeps data records in memory and offers them over HTTP. A client
ingests a JSON object as a new record, processes a record once, reads one
record, pages through all of them, and deletes one. The service exists twice:

- a FastAPI application: `DataService` in `src/data_service.py`, the routes in
  `src/data_routes.py` and the `error_handler` middleware in `src/middleware.py`;
- an Express application: `DataService` in `src/services/dataService.ts`, the
  controller in `src/controllers/dataController.ts`, the field-rule validator in
  `src/middleware/validator.ts` and the error handler in
  `src/middleware/errorHandler.ts`.

This project models both. Every module verifies with no assumptions.

- **The store** (`DataStore`, `store.dfy`) is an immutable value. It holds a map
  from id to record and the ids in insertion order. Python's `dict` and
  JavaScript's `Map` both keep insertion order, and both overwrite in place, so
  one model serves both services.
- **The store invariant** is `Valid`, which every operation preserves:
  - ids are distinct;
  - the order and the map hold the same ids;
  - every record sits under its own id;
  - the processing fields are present exactly on processed records.
- **Records** (`Records`) follow `src/types.py`. A `ProcessedData` is a
  `DataRecord` whose processing fields are filled in.
- **Handlers** (`PyRoutes`, `TsController`) map a store outcome to a response,
  or to a raised or forwarded error:
  - Python handlers return `Returned(response)` or `Raised(exception)`;
  - Express controllers return `Sent(response)` or `Next(error)`.
- **Error mappers** (`PyErrorMiddleware`, `TsErrorHandler`) turn those errors
  into the uniform envelope `{error: {message, statusCode, details?}}`.
- **Host-language behaviour** the code relies on is written out:
  - JavaScript `typeof` and truthiness, and Python truthiness (`Json`);
  - list slicing and `Array.prototype.slice` (`Slicing`);
  - `parseInt` (`JsParseInt`);
  - substring search and number formatting (`Text`).
- **Whole requests** (`Scenarios`) join handler and error mapper. The same
  module records where the two services answer the same request differently:
  - an empty object as `data` gets 400 from Python and 201 from Express;
  - an unexpected error's text is hidden by Python and shown by Express;
  - a malformed ingest body gets 422 from FastAPI before the Python handler runs.

Ids and clock readings are parameters. An ingest takes an id that is not yet
stored, in place of `uuid4()`, and a timestamp `now`, in place of the clock.

## Model

| member | source | states |
|---|---|---|
| DataStore.Ingest | src/data_service.py:18-44 | the new record is unprocessed, carries the given id, time, data and metadata, and `Get` returns it; exactly one key is added, at the end of the order; every other record is unchanged; the TypeScript service (src/services/dataService.ts:8-21) behaves the same |
| DataStore.Process | src/data_service.py:46-83 | an unknown id fails with "Record with id {id} not found" and leaves the store unchanged; a processed record is returned as is, store unchanged; otherwise id, timestamp, data and metadata are kept, the processing time is stamped and the result is status success; the order, the key set and every other record are unchanged; the TypeScript service (src/services/dataService.ts:23-48) behaves the same |
| DataStore.Get | src/data_service.py:85-95 | the result is present exactly when the id is stored, and it is that record, stored under its own id; the TypeScript service (src/services/dataService.ts:50-52) behaves the same |
| DataStore.List | src/data_service.py:97-113 | for non-negative limit and offset: at most `limit` records, consecutive in insertion order from position `offset`; empty once the offset reaches the size; exactly `min(limit, size - offset)` records otherwise; for any limit and offset, negative ones included, the page is the slice between the normalised bounds `offset` and `offset + limit`, a negative bound counting back from the end; the TypeScript service (src/services/dataService.ts:54-57) behaves the same |
| DataStore.Delete | src/data_service.py:115-129 | reports true exactly when the id was present; afterwards the id is gone, the key set lost exactly that id, every remaining record is unchanged, the order is the old order with exactly that id's position cut out, and a miss leaves the store as it was; the TypeScript service (src/services/dataService.ts:59-65) behaves the same |
| DataStore.WithoutSplicesOut | src/data_service.py:125-129 | in an order without repeats, taking an id out removes just its position: the ids before and after it keep their places and relative order |
| DataStore.GetStats | src/data_service.py:131-146 | total is the number of records; processed is the number of processed ids; unprocessed is the number of unprocessed ids; processed + unprocessed == total; the TypeScript service (src/services/dataService.ts:67-77) behaves the same |
| DataStore.CountProcessedAt | src/data_service.py:138-139 | counting processed records along the insertion order gives the size of the set of processed ids |
| DataStore.NotFoundMessageSaysNotFound | src/data_service.py:62 | the lookup error's message contains "not found", which the handlers test for |
| StoreProperties.ProcessIdempotent | src/data_service.py:64-65 | processing a second time returns the first call's record and leaves the store as the first call left it |
| StoreProperties.ProcessNeverReorders | src/data_service.py:80 | processing changes no page's length or the ids it lists, in order |
| StoreProperties.ProcessedStaysProcessed | src/services/dataService.ts:30-32 | a processed record stays exactly as it is, whatever is processed next |
| StoreProperties.StatsAfterIngest | src/data_service.py:41 | ingest raises total and unprocessed by one and keeps processed |
| StoreProperties.StatsAfterProcess | src/data_service.py:64-80 | processing an unprocessed record moves one count from unprocessed to processed; any other call keeps the counts |
| StoreProperties.StatsAfterDelete | src/data_service.py:125-129 | deleting a present record lowers total by one, and processed by one exactly when that record was processed; a miss keeps the counts |
| StoreProperties.StatsScenario | src/__tests__/dataService.test.ts:96-107 | two ingests and one processing step give `{total: 2, processed: 1, unprocessed: 1}` |
| StoreProperties.PaginationScenario | src/__tests__/dataService.test.ts:70-77 | with five records, limit 2 at offset 1 gives the second and third records |
| StoreProperties.DeleteScenario | src/__tests__/dataService.test.ts:80-93 | delete of a just-ingested record succeeds, hides it from `Get`, lowers the total, and a second delete reports false |
| Records.NewRecord | src/types.py:10-17 | a new record is unprocessed with no processing fields, and `metadata` defaults to None |
| Records.MarkProcessed | src/types.py:27-32 | the processed copy keeps id, timestamp, data and metadata, is `processed`, carries its processing time and the result with status "success" |
| Records.ParseIngestRequest | src/types.py:35-39 | a body is accepted exactly when `data` is an object and `metadata` is absent, null or an object; the accepted `data` is the body's, `metadata` is None exactly when absent or null, and otherwise it is the body's object |
| Json.TruthinessDisagreement | src/data_routes.py:24 | Python and JavaScript truthiness disagree exactly on the empty array and the empty object |
| PyRoutes.IngestData | src/data_routes.py:13-29 | empty `data` raises AppError 400 "Invalid data: data must be an object" and stores nothing; otherwise 201 with the new unprocessed record holding the request's data and metadata, now stored under the fresh id, and the rest of the store is exactly what the store's `Ingest` leaves: every other record unchanged, the new id appended to the order |
| PyRoutes.IngestEndpoint | src/types.py:35-39 | a body the request model rejects is answered 422 before the handler; an accepted one goes to the handler |
| PyRoutes.TranslateProcessError | src/data_routes.py:47-50 | a ValueError mentioning "not found" becomes AppError 404 with its message; any other is raised again |
| PyRoutes.ProcessData | src/data_routes.py:32-50 | 200 exactly when the id is known, answering the record the store's `Process` returns, so an already-processed record comes back as it was; the store afterwards is exactly `Process`'s; otherwise AppError 404 "Record with id {id} not found", store unchanged |
| PyRoutes.GetData | src/data_routes.py:53-69 | 200 with the stored record exactly when the id is known; otherwise AppError 404 |
| PyRoutes.GetAllData | src/data_routes.py:72-94 | 200 exactly when 1 <= limit <= 1000 and offset >= 0 after the defaults 100 and 0, otherwise 422; limit and offset are echoed, `stats` is the store's `GetStats` (total, processed and unprocessed counts), `pagination.total` is its total, and the page is the window at `offset` |
| PyRoutes.DeleteData | src/data_routes.py:97-113 | 200 "Record with id {id} deleted successfully" exactly when the id was present; the store afterwards is exactly the store's `Delete`, which removes that one id and nothing else; otherwise AppError 404, store unchanged |
| PyErrorMiddleware.AppErrorResponse | src/middleware.py:26-49 | an AppError is answered with its own status and message; `details` is present exactly when the error's details are truthy |
| PyErrorMiddleware.ErrorHandler | src/middleware.py:12-93 | a returned response passes unchanged; a ValueError is 404 when its text contains "not found" and 400 otherwise, with its text as message; any other exception is 500 "Internal Server Error" |
| PyErrorMiddleware.InternalErrorsAreRedacted | src/middleware.py:75-93 | an unexpected exception's text appears in the body only if it is the fixed message itself |
| TsErrorHandler.ErrorHandler | src/middleware/errorHandler.ts:16-40 | the status is the AppError's code and 500 for anything else; the message is the error's own, or "Internal Server Error" when it is empty; `details` is present exactly for an AppError with truthy details |
| TsErrorHandler.NotFoundHandler | src/middleware/errorHandler.ts:42-49 | an unmatched route is 404 in the error envelope without details, and the message is exactly `Route <method> <path> not found`, so it names the method and the path and contains "not found" |
| TsErrorHandler.Respond | src/controllers/dataController.ts:19-21 | a sent response reaches the client as is; an error passed to `next` is answered by the error handler |
| TsController.IngestData | src/controllers/dataController.ts:5-22 | stores and answers 201 exactly when `data` is an object or an array; otherwise AppError 400, store unchanged; the record holds the body's data and metadata under the fresh id, and the rest of the store is exactly what the store's `Ingest` leaves: every other record unchanged, the new id appended to the order |
| TsController.TranslateProcessError | src/controllers/dataController.ts:35-39 | an error mentioning "not found" becomes AppError 404 with its message; any other is forwarded as it is |
| TsController.ProcessData | src/controllers/dataController.ts:24-41 | 200 exactly when the id is known, answering the record the store's `Process` (the service's `processData`) returns, so an already-processed record comes back as it was; the store afterwards is exactly that call's; otherwise AppError 404, store unchanged |
| TsController.GetData | src/controllers/dataController.ts:43-60 | 200 with the stored record exactly when the id is known; otherwise AppError 404 |
| TsController.GetAllData | src/controllers/dataController.ts:62-83 | always 200; limit and offset are `parseInt(q) \|\| 100` and `parseInt(q) \|\| 0`, echoed; `stats` is the store's `GetStats` and `pagination.total` its total; for non-negative values the page is the window at `offset`; for any values, negative ones included, the page is the slice between the normalised bounds `offset` and `offset + limit` |
| TsController.LimitDefaulting | src/controllers/dataController.ts:64 | a decimal limit is taken as written except 0, which becomes 100, and an absent one is 100 |
| TsController.DeleteData | src/controllers/dataController.ts:85-102 | 200 "Record with id {id} deleted successfully" exactly when the id was present; the store afterwards is exactly the store's `Delete`, which removes that one id and nothing else; otherwise AppError 404, store unchanged |
| JsParseInt.ParseIntOr | src/controllers/dataController.ts:64-65 | an absent, non-numeric or zero parameter gives the fallback; a parameter that parses to a non-zero number gives that number, and nothing else gives anything but the fallback |
| JsParseInt.ParseIntOfIntToString | src/controllers/dataController.ts:64 | `parseInt` reads every decimal integer back as itself |
| JsParseInt.TrimStartIsSuffix | src/controllers/dataController.ts:64 | `parseInt` skips exactly a prefix of white space |
| Slicing.Slice | src/data_service.py:113 | the slice is `xs[lo..hi]` for the normalised bounds, and the window from `start` for non-negative bounds |
| Slicing.ClampIndex | src/services/dataService.ts:56 | a negative bound counts back from the end; every bound is clamped into [0, length] |
| Text.ContainsIffOccurs | src/middleware.py:52 | substring search holds exactly when the text occurs at some position |
| Validator.StringErrors | src/middleware/validator.ts:30-39 | a string value gets the minimum-length message, then the maximum-length message, then the format message, each exactly when that check fails, and nothing else |
| Validator.RuleErrorsWith | src/middleware/validator.ts:18-41 | a missing required field adds only the required message; a missing optional field adds nothing; a present value of the wrong type adds the type message first; a string rule on a string value adds the type message when the type test fails and then exactly the length and pattern messages; any other present value adds at most the type message |
| Validator.ErrorsInRuleOrder | src/middleware/validator.ts:15-17 | every rule's messages form one block after those of the rules before it, so a failure does not stop later rules |
| Validator.NoErrorsIffEveryRulePasses | src/middleware/validator.ts:44 | no message is collected exactly when every rule passes |
| Validator.ValidateRequest | src/middleware/validator.ts:13-50 | `next` is called exactly when every rule passes; otherwise AppError 400 "Validation failed" whose details list every collected message in order |
| Scenarios.TsIngestRoute | src/routes/dataRoutes.ts:13-19 | POST /data runs the validator first: a rejection is answered by the error handler with the store unchanged; otherwise the controller runs and its outcome is answered |
| Scenarios.IngestRuleMatchesController | src/routes/dataRoutes.ts:15-17 | a required "object" rule on `data` admits exactly the bodies the controller's own check admits |
| Scenarios.TsInvalidIngestBodies | src/__tests__/data.test.ts:34-49 | every body whose `data` is missing or null gets 400 "Validation failed" in the error envelope with exactly the required message, and every body whose `data` is a string gets the same with exactly the type message; the store is unchanged in both cases |
| Scenarios.PyUnknownIdIs404 | src/data_routes.py:47-111 | GET, process and DELETE of an unknown id all answer 404 with "Record with id {id} not found" |
| Scenarios.TsUnknownIdIs404 | src/controllers/dataController.ts:35-92 | the same three answers in the Express service |
| Scenarios.PyMalformedIngestIs422 | tests/test_data.py:40-51 | every body whose `data` is missing or not an object is answered 422 before the handler runs, and nothing is stored |
| Scenarios.EmptyObjectDivergence | src/data_routes.py:24-25 | `{"data": {}}` is 400 in Python and 201 in Express |
| Scenarios.InternalErrorDivergence | src/middleware.py:85-93 | an unexpected error is 500 in both; Python hides its text, Express shows it |
| Scenarios.PyLifecycle | tests/test_data.py:108-188 | ingest 201 unprocessed, process 200 with status "success", a second process returns the same record, delete 200, a second delete 404 |
| Validator.ArrayRuleRejectsEveryValue | src/middleware/validator.ts:26 | as written, a rule of type 'array' rejects every present value, arrays included |
| Validator.IntendedArrayRule | src/middleware/validator.ts:26 | with the intended type test, an 'array' rule accepts exactly the arrays |
| TsController.ArrayDataIsStored | src/controllers/dataController.ts:9 | as written, an array as `data` is stored and answered 201 |
| TsController.IngestObjectData | src/controllers/dataController.ts:9-11 | as intended, an object `data` is stored and answered 201 with the stored record, exactly as the handler as written does for it; anything else, arrays included, is AppError 400 with the store unchanged |
| TsController.NegativeLimitListsAllButLast | src/controllers/dataController.ts:64-67 | as written, a limit that parses to -1 is echoed and the page holds every record but the last, `size - 1` records for a limit of -1 |
| TsController.MinusOneListsAllButLast | src/controllers/dataController.ts:64-67 | `?limit=-1` is such a limit |
| TsController.GetAllDataBounded | src/controllers/dataController.ts:62-83 | as intended, a limit outside [1, 1000] or a negative offset is AppError 400, and every page sent is a window of at most `limit` records; an in-range request is answered exactly as the handler as written answers it, echoing the parsed limit and offset with the store's counts |
| Scenarios.ListingsAgreeInRange | src/data_routes.py:72-94 | for a limit in [1, 1000] and an offset of at least 0, the Python route and the Express handler (src/controllers/dataController.ts:62-83) send the same list response: the same page, pagination and counts |

## Left out

- Logging is left out, including the `request_logger` middleware: it is output only and changes no response.
- Framework wiring is left out: application setup, routers, CORS, security headers, configuration and process signals.
- The health and readiness endpoints are left out: they read the wall clock and the process uptime.
- Ids and clocks are parameters. `uuid4()` becomes a caller-supplied id that is not yet stored. The clock becomes a `Timestamp`.
- Serialisation is left out: `model_dump(mode="json")` and Express's JSON encoding. Records and bodies stay structured values.
- The body of FastAPI's 422 answer is left out. The model keeps only the status, as `FrameworkValidationBody`.
- The validator's `pattern` is a caller-supplied predicate on strings. The regular-expression engine is not part of this model.
- Validator.StringErrors: lengths are counted in characters, not in UTF-16 code units as JavaScript's `length` counts them.
- JsParseInt.ParseIntOr: `ParseInt` yields an unbounded integer where `parseInt` yields a double, so a digit string long enough to round, or to overflow to `Infinity`, reads as its exact value here. The strings `"Infinity"` and `"NaN"` themselves have no leading digits and give NaN, as in JavaScript.
- TsController.GetAllData: a query parameter given more than once, which Express delivers as an array, is not modelled. Each parameter is a single string or absent.
- Request bodies are JSON objects (`JsonObject`), so a body that is a JSON array cannot be given; Express's JSON parser accepts one and the validator then answers 400, while FastAPI answers 422.
- Validator.ValidationRule: `minLength` and `maxLength` are integers, while the TypeScript interface allows any number, fractional ones included.
- Validator.RuleErrorsWith: a rule's field is looked up among the body's own keys only. JavaScript's `req.body[rule.field]` also finds names every object inherits from `Object.prototype`, such as `constructor`, `toString` or `__proto__`, so a rule on such a name sees a value (a function) where the model sees an absent field. The only rule in the routes reads `data`.
- TsErrorHandler.ErrorHandler: values thrown that are not `Error` objects are not modelled.
- Concurrency is left out. The store methods contain no suspension point between reading and writing, so each is one atomic step.
- PyRoutes.GetAllData: out-of-range `limit` or `offset` is answered 422 by the framework, as the code declares with `Query(ge=1, le=1000)` and `ge=0`. The model follows the code, not a 400 answer.
- PyRoutes.GetAllData: the parameters are integers or absent, so a query value that is not an integer, such as `?limit=abc`, `?limit=1.5` or an empty `?limit=`, cannot be given; the framework answers those with 422 before the route runs.
- TsController.GetAllDataBounded: the 400 message text is the model's own wording; the source has no such check to take it from.

## Findings

| source | as written | input that shows it | evidently intended | confidence | as-written member | corrected member |
|---|---|---|---|---|---|---|
| src/middleware/validator.ts:26 | the type test is `typeof value !== rule.type`, and `typeof` never yields "array" | any rule `{type: 'array'}` with a present value such as `[1, 2]` | an 'array' rule accepts arrays (`Array.isArray`) | not executed | Validator.ArrayRuleRejectsEveryValue | Validator.IntendedArrayRule |
| src/controllers/dataController.ts:9 | `typeof data !== 'object'` lets arrays through, because `typeof []` is "object" | `{"data": [1, 2]}` is stored and answered 201 | only an object is accepted as data, as the error message says | not executed | TsController.ArrayDataIsStored | TsController.IngestObjectData |
| src/controllers/dataController.ts:64-67 | `parseInt(limit) \|\| 100` accepts a negative limit, and `slice` counts a negative end back from the end | `GET /data?limit=-1` with two or more records returns every record but the last | the limit is bounded to [1, 1000] and the offset is at least 0, as in the Python route | not executed | TsController.NegativeLimitListsAllButLast | TsController.GetAllDataBounded |
