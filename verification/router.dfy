/** `APIFlask.handle_user_exception` and `handle_api_exception`: classify an
    exception raised by a view and turn it into a JSON envelope response, a
    registered handler's result, or a re-raise of the same exception. */
module Router {
  import opened Wrappers
  import opened Responses
  import Normalizer

  /** What the hook does with the exception. */
  datatype Handling =
    | Respond(response: Response)
    | Handled(result: ReturnValue)
    | Reraise(exception: Exception)

  /** The exceptions turned into a `{code, message}` envelope: every
      `APIError`, and an `HTTPException` the application does not trap. */
  predicate Enveloped(fw: Framework, e: Exception) {
    e.ApiError? || (e.HttpException? && !fw.trapHttpException(e))
  }

  /** `handle_api_exception(e)`: an `APIResponse` whose content is
      `JSONRender(code=e.code, message=e.message)`. It reads `code` and
      `message`, which only the two classified kinds carry. The response is
      the one `make_response` builds for that `JSONRender` returned bare. */
  function HandleApiException(fw: Framework, e: Exception): (r: Response)
    requires e.ApiError? || e.HttpException?
    ensures Normalizer.MakeResponse(fw, Bare(Render(JsonRender(e.code, e.message)))) == Ok(r)
  {
    fw.construct(Render(JsonRender(e.code, e.message)), None, None)
  }

  /** `handle_user_exception(e)`: an `APIError` first, then an untrapped
      `HTTPException`, then a registered handler, else re-raise. */
  function HandleUserException(fw: Framework, e: Exception): (r: Handling)
    ensures r.Respond? <==> Enveloped(fw, e)
    ensures r.Respond? ==> r.response == fw.construct(Render(JsonRender(e.code, e.message)), None, None)
    ensures r.Handled? <==> !Enveloped(fw, e) && fw.findErrorHandler(e).Some?
    ensures r.Handled? ==> r.result == fw.findErrorHandler(e).value(e)
    ensures r.Reraise? <==> !Enveloped(fw, e) && fw.findErrorHandler(e).None?
    ensures r.Reraise? ==> r.exception == e
  {
    if e.ApiError? then
      Respond(HandleApiException(fw, e))
    else if e.HttpException? && !fw.trapHttpException(e) then
      Respond(HandleApiException(fw, e))
    else
      match fw.findErrorHandler(e)
      case None => Reraise(e)
      case Some(handler) => Handled(handler(e))
  }

  /** An `APIError` is decided before the trap test and the handler lookup:
      neither trap mode nor registered handlers change its outcome. */
  lemma ApiErrorIgnoresTrapAndHandlers(fw: Framework, e: Exception,
                                       trap: Exception -> bool,
                                       find: Exception -> Option<Exception -> ReturnValue>)
    requires e.ApiError?
    ensures HandleUserException(fw, e)
         == HandleUserException(fw.(trapHttpException := trap, findErrorHandler := find), e)
  {
  }

  /** An untrapped `HTTPException` gets the same envelope an `APIError`
      with its code and message gets. */
  lemma HttpExceptionLikeApiError(fw: Framework, code: int, message: string)
    requires !fw.trapHttpException(HttpException(code, message))
    ensures HandleUserException(fw, HttpException(code, message))
         == HandleUserException(fw, ApiError(code, message))
  {
  }
}
