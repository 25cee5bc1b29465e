/** The values the two `APIFlask` hooks work on: what a view function may
    return, the `APIResponse` they produce, the exceptions they classify, and
    the framework collaborators whose code is not part of this model. */
module Responses {
  import opened Wrappers

  /** One header as a (name, value) pair. */
  type Header = (string, string)

  /** The `JSONRender` wrapper, a carrier of a code and a message. */
  datatype JsonRender = JsonRender(code: int, message: string)

  /** A status as the view supplies it: a string is a full status line
      ("404 Not Found"), anything else is a numeric status code. */
  datatype StatusValue = StatusLine(line: string) | StatusCode(code: int)

  /** Headers as the view supplies them: a dict or a list of pairs. A dict's
      items are listed in its iteration order; the type does not rule out a
      repeated name, which only a list can actually hold. */
  datatype HeaderValue = HeaderDict(items: seq<Header>) | HeaderList(items: seq<Header>)
  {
    /** Python truthiness of the dict or list: it is non-empty. */
    predicate Truthy() {
      |items| > 0
    }
  }

  /** The first element of a view's return value, tagged by its Python type. */
  datatype Body =
    | NoneValue
    | Text(text: string)
    | Bytes(bytes: seq<bv8>)
    | ByteArray(bytes: seq<bv8>)
    | ListBody(elements: seq<Body>)
    | DictBody(entries: seq<(Body, Body)>)
    | Render(render: JsonRender)
    | ApiResponse(response: Response)
      /** An object of any other type (for example a plain werkzeug response),
          known only by its identity. */
    | Foreign(id: nat)
  {
    /** The types the response constructor is handed directly. */
    predicate Constructible() {
      Render? || Text? || Bytes? || ByteArray? || ListBody? || DictBody?
    }
  }

  /** An `APIResponse`: what it was built from, the status last assigned to
      it, and its header collection in insertion order. */
  datatype Response = Response(content: Body, status: StatusValue, headers: seq<Header>)

  /** The second element of a returned tuple: `None`, a status, or headers
      given in place of a status. */
  datatype Second = NoSecond | Status(status: StatusValue) | Headers(headers: HeaderValue)

  /** A view's return value: a bare value, or a Python tuple of up to three
      elements (body, status or headers, headers). */
  datatype ReturnValue =
    | Bare(body: Body)
    | Tuple0
    | Tuple1(body: Body)
    | Tuple2(body: Body, second: Second)
    | Tuple3(body: Body, second: Second, third: Option<HeaderValue>)

  /** An exception raised by a view. `HttpException` is werkzeug's
      `HTTPException`; `OtherException` is any other class, known by its
      class name and identity. */
  datatype Exception =
    | ApiError(code: int, message: string)
    | HttpException(code: int, message: string)
    | OtherException(className: string, id: nat)

  /** The Flask and werkzeug collaborators the hooks call but whose code is
      not part of this model:
      - `construct(body, headers, status)` is `APIResponse(body, headers=..., status=...)`;
      - `forceType(body)` is `APIResponse.force_type(body, request.environ)`
        for the current request;
      - `trapHttpException(e)` is `Flask.trap_http_exception(e)`;
      - `findErrorHandler(e)` is `Flask._find_error_handler(e)`, the handler
        registered for the exception's class, if any. */
  datatype Framework = Framework(
    construct: (Body, Option<HeaderValue>, Option<StatusValue>) -> Response,
    forceType: Body -> Response,
    trapHttpException: Exception -> bool,
    findErrorHandler: Exception -> Option<Exception -> ReturnValue>)

  /** `headers.extend(added)` on a werkzeug header collection: each pair is
      added in turn at the end, and every header already there is kept. */
  function Extend(existing: seq<Header>, added: seq<Header>): (r: seq<Header>)
    ensures r == existing + added
    decreases |added|
  {
    if |added| == 0 then existing
    else Extend(existing + [added[0]], added[1..])
  }
}
