/**
 * The HTTP-facing shapes both implementations share: the application error
 * carrying its own status code, the uniform error envelope
 * `{error: {message, statusCode, details?}}`, the success envelopes
 * `{success: true, ...}` and a response as a status code plus a body.
 */
module Http {
  import opened Wrappers
  import opened Json
  import opened Records
  import opened DataStore

  /** An error raised with the HTTP status it should be answered with (`AppError`). */
  datatype AppError = AppError(statusCode: int, message: string, details: Option<Json>)

  /** The object under `error` in every error response. */
  datatype ApiError = ApiError(message: string, statusCode: int, details: Option<Json>)

  datatype Pagination = Pagination(limit: int, offset: int, total: int)

  /**
   * A response body. The first three are the success envelopes and carry
   * `success: true`; `ErrorBody` is the uniform error envelope; the last is the
   * framework's own answer to a request that fails its declared parameter types.
   */
  datatype Body =
    | RecordBody(record: DataRecord)
    | ListBody(records: seq<DataRecord>, pagination: Pagination, stats: Stats)
    | MessageBody(message: string)
    | ErrorBody(error: ApiError)
    | FrameworkValidationBody

  datatype Response = Response(status: int, body: Body)

  const InvalidDataMessage := "Invalid data: data must be an object"

  function DeletedMessage(id: string): string {
    "Record with id " + id + " deleted successfully"
  }

  /** A response is an error envelope whose `statusCode` repeats the HTTP status. */
  predicate IsErrorEnvelope(r: Response) {
    r.body.ErrorBody? && r.body.error.statusCode == r.status
  }

  /**
   * The list envelope both implementations send: at most `limit` records from
   * position `offset` in insertion order, the limit and offset echoed with the
   * total, and counts computed afresh.
   */
  function ListPage(s: Store, limit: int, offset: int): (b: Body)
    requires Valid(s)
    ensures b.ListBody? && b.pagination == Pagination(limit, offset, |s.records|)
    ensures b.stats.total == |s.records| && b.stats.processed + b.stats.unprocessed == b.stats.total
    ensures 0 <= offset && 0 <= limit ==> IsWindow(s, b.records, limit, offset)
    ensures IsSlice(s, b.records, offset, offset + limit)
    ensures b.stats == GetStats(s)
  {
    ListBody(List(s, limit, offset), Pagination(limit, offset, |s.records|), GetStats(s))
  }
}
