/**
 * The JSON envelopes every endpoint answers with. The ISO time stamp is read
 * from the clock by the source; here it is a parameter.
 */
module Response {
  import opened Wrappers
  import opened Errors
  import Paging

  /** `{success, message, data?, errors?, timestamp, path?}`; an absent field is `None`. */
  datatype ApiResponse<T> = ApiResponse(
    success: bool,
    message: string,
    data: Option<T>,
    errors: Option<seq<FieldError>>,
    timestamp: string,
    path: Option<string>)

  datatype Pagination = Pagination(page: int, limit: int, total: nat, totalPages: nat)

  datatype PaginatedData<T> = PaginatedData(data: seq<T>, pagination: Pagination)

  function SuccessResponse<T>(message: string, data: Option<T>, path: Option<string>, timestamp: string): (r: ApiResponse<T>)
    ensures r.success && r.message == message && r.data == data && r.path == path
    ensures r.errors.None? && r.timestamp == timestamp
  {
    ApiResponse(true, message, data, None, timestamp, path)
  }

  function ErrorResponse(message: string, errors: Option<seq<FieldError>>, path: Option<string>, timestamp: string): (r: ApiResponse<()>)
    ensures !r.success && r.message == message && r.errors == errors && r.path == path
    ensures r.data.None? && r.timestamp == timestamp
  {
    ApiResponse(false, message, None, errors, timestamp, path)
  }

  const DefaultPageMessage := "Data retrieved successfully"

  /** The pagination block of a list answer: the inputs echoed, plus the page count. */
  function PaginationOf(page: int, limit: nat, total: nat): (p: Pagination)
    requires limit > 0
    ensures p.page == page && p.limit == limit && p.total == total
    ensures (p.totalPages - 1) * limit < total <= p.totalPages * limit || (total == 0 && p.totalPages == 0)
  {
    Pagination(page, limit, total, Paging.CeilDiv(total, limit))
  }

  function PaginatedResponse<T>(data: seq<T>, page: int, limit: nat, total: nat, message: Option<string>, timestamp: string)
    : (r: ApiResponse<PaginatedData<T>>)
    requires limit > 0
    ensures r.success && r.errors.None? && r.path.None? && r.timestamp == timestamp
    ensures r.message == (if message.Some? then message.value else "Data retrieved successfully")
    ensures r.data.Some? && r.data.value.data == data
    ensures r.data.value.pagination == Pagination(page, limit, total, Paging.CeilDiv(total, limit))
  {
    ApiResponse(true, message.GetOr(DefaultPageMessage),
      Some(PaginatedData(data, PaginationOf(page, limit, total))), None, timestamp, None)
  }
}
