/**
 * The envelope `{success, statusCode, message, data, error}` that every
 * endpoint and middleware of the back end answers with.
 */
module ResponseModel {
  import opened Wrappers

  datatype Response<D> = Response(
    success: bool,
    statusCode: int,
    message: string,
    data: Option<D>,
    error: Option<string>)

  /** `createResponse(success, statusCode, message, data = null, error = null)`. */
  function CreateResponse<D>(success: bool, statusCode: int, message: string,
                             data: Option<D> := None, error: Option<string> := None): (r: Response<D>)
    ensures r.success == success && r.statusCode == statusCode && r.message == message
    ensures r.data == data && r.error == error
  {
    Response(success, statusCode, message, data, error)
  }

  /** Leaving out `data` and `error` yields null for both. */
  lemma OmittedFieldsAreNull<D>(success: bool, statusCode: int, message: string)
    ensures CreateResponse<D>(success, statusCode, message).data == None
    ensures CreateResponse<D>(success, statusCode, message).error == None
  {
  }

  /** Nothing ties `success` to `statusCode`: a successful 500 can be built. */
  lemma SuccessIsIndependentOfStatus<D>(message: string)
    ensures CreateResponse<D>(true, 500, message).success
    ensures CreateResponse<D>(true, 500, message).statusCode == 500
    ensures !CreateResponse<D>(false, 200, message).success
  {
  }

  /**
   * What an Express middleware does with a request: hand it on with `next()`,
   * or answer it itself with a status and an envelope (and not call `next`).
   */
  datatype MiddlewareResult =
    | CallNext
    | Respond(status: int, body: Response<()>)
}
