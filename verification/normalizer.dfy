/** `APIFlask.make_response`: turns whatever a view returned into exactly one
    `APIResponse`, or raises `ValueError` when the view returned nothing. */
module Normalizer {
  import opened Wrappers
  import opened Responses

  const NoResponseMessage := "View function did not return a response"

  /** The one exception `make_response` raises itself. */
  datatype ViewError = ValueError(message: string)

  /** A return value after padding: always three positions. */
  datatype Unpacked = Unpacked(body: Body, statusOrHeaders: Second, headers: Option<HeaderValue>)

  // Reference reading of a return value, position by position.

  /** The body the view returned: the first element of a tuple. */
  function BodyOf(rv: ReturnValue): Body {
    if rv.Tuple0? then NoneValue else rv.body
  }

  /** The view returned nothing: a bare `None`, a tuple whose first element
      is `None`, or the empty tuple. */
  predicate ReturnsNothing(rv: ReturnValue) {
    rv.Tuple0? || rv.body.NoneValue?
  }

  /** The status the view supplied: the second element, when it is a status. */
  function StatusOf(rv: ReturnValue): Option<StatusValue> {
    if (rv.Tuple2? || rv.Tuple3?) && rv.second.Status? then Some(rv.second.status) else None
  }

  /** The headers the view supplied: the second element when it is a dict or
      a list, otherwise the third element. */
  function HeadersOf(rv: ReturnValue): Option<HeaderValue> {
    if (rv.Tuple2? || rv.Tuple3?) && rv.second.Headers? then Some(rv.second.headers)
    else if rv.Tuple3? then rv.third
    else None
  }

  // The steps of `make_response`, in the order the source takes them.

  /** Pads a tuple with `None` up to three positions; a bare value is the
      body with nothing pending. */
  function Unpack(rv: ReturnValue): (u: Unpacked)
    ensures u.body == BodyOf(rv)
    ensures u.statusOrHeaders == (if rv.Tuple2? || rv.Tuple3? then rv.second else NoSecond)
    ensures u.headers == (if rv.Tuple3? then rv.third else None)
  {
    match rv
    case Bare(b) => Unpacked(b, NoSecond, None)
    case Tuple0 => Unpacked(NoneValue, NoSecond, None)
    case Tuple1(b) => Unpacked(b, NoSecond, None)
    case Tuple2(b, s) => Unpacked(b, s, None)
    case Tuple3(b, s, h) => Unpacked(b, s, h)
  }

  /** A dict or list in the status position becomes the headers (dropping
      any third element) and leaves no status pending. */
  function Disambiguate(second: Second, third: Option<HeaderValue>): (r: (Option<StatusValue>, Option<HeaderValue>))
    ensures r.0.Some? <==> second.Status?
    ensures r.0.Some? ==> r.0.value == second.status
    ensures second.Headers? ==> r.1 == Some(second.headers)
    ensures !second.Headers? ==> r.1 == third
  {
    match second
    case NoSecond => (None, third)
    case Status(s) => (Some(s), third)
    case Headers(h) => (None, Some(h))
  }

  /** Assigns a pending status: a string sets `status`, anything else sets
      `status_code`. */
  function SetStatus(resp: Response, status: Option<StatusValue>): (r: Response)
    ensures r.content == resp.content && r.headers == resp.headers
    ensures r.status == (if status.Some? then status.value else resp.status)
  {
    match status
    case None => resp
    case Some(StatusLine(line)) => resp.(status := StatusLine(line))
    case Some(StatusCode(code)) => resp.(status := StatusCode(code))
  }

  /** Extends the header collection with pending headers when they are truthy. */
  function ExtendHeaders(resp: Response, headers: Option<HeaderValue>): (r: Response)
    ensures r.content == resp.content && r.status == resp.status
    ensures r.headers == resp.headers + (if headers.Some? then headers.value.items else [])
  {
    if headers.Some? && headers.value.Truthy() then resp.(headers := Extend(resp.headers, headers.value.items))
    else resp
  }

  /** The final pass: pending status first, then pending headers. The
      content is never touched, existing headers are kept, and an absent or
      empty header value changes nothing. */
  function Override(resp: Response, status: Option<StatusValue>, headers: Option<HeaderValue>): (r: Response)
    ensures r.content == resp.content
    ensures r.status == (if status.Some? then status.value else resp.status)
    ensures r.headers == resp.headers + (if headers.Some? then headers.value.items else [])
    ensures status.None? && headers.None? ==> r == resp
  {
    ExtendHeaders(SetStatus(resp, status), headers)
  }

  /** `make_response(rv)`. The pending status and headers are those the view
      supplied by position; a constructible body hands them to the response
      constructor and nothing is overridden afterwards; an existing
      `APIResponse` or a force-converted foreign object gets them applied on
      top. */
  function MakeResponse(fw: Framework, rv: ReturnValue): (r: Result<Response, ViewError>)
    ensures r.Err? <==> ReturnsNothing(rv)
    ensures r.Err? ==> r.error == ValueError(NoResponseMessage)
    ensures r.Ok? && BodyOf(rv).Constructible() ==>
              r.value == fw.construct(BodyOf(rv), HeadersOf(rv), StatusOf(rv))
    ensures r.Ok? && !BodyOf(rv).Constructible() ==>
              var base := if BodyOf(rv).ApiResponse? then BodyOf(rv).response else fw.forceType(BodyOf(rv));
              && r.value.content == base.content
              && r.value.status == (if StatusOf(rv).Some? then StatusOf(rv).value else base.status)
              && r.value.headers == base.headers + (if HeadersOf(rv).Some? then HeadersOf(rv).value.items else [])
  {
    var u := Unpack(rv);
    if u.body.NoneValue? then
      Err(ValueError(NoResponseMessage))
    else
      var (status, headers) := Disambiguate(u.statusOrHeaders, u.headers);
      var (resp, pendingStatus, pendingHeaders) :=
        if u.body.ApiResponse? then (u.body.response, status, headers)
        else if u.body.Constructible() then (fw.construct(u.body, headers, status), None, None)
        else (fw.forceType(u.body), status, headers);
      Ok(Override(resp, pendingStatus, pendingHeaders))
  }

  // Properties relating several calls.

  /** An `APIResponse` returned with nothing else comes back unchanged, and
      so does one returned in a one-element tuple. */
  lemma BareResponseUnchanged(fw: Framework, x: Response)
    ensures MakeResponse(fw, Bare(ApiResponse(x))) == Ok(x)
    ensures MakeResponse(fw, Tuple1(ApiResponse(x))) == Ok(x)
  {
  }

  /** Normalising is idempotent: feeding a produced response back as a bare
      return value yields the same response. */
  lemma Idempotent(fw: Framework, rv: ReturnValue)
    requires MakeResponse(fw, rv).Ok?
    ensures MakeResponse(fw, Bare(ApiResponse(MakeResponse(fw, rv).value))) == MakeResponse(fw, rv)
  {
  }

  /** Missing trailing elements behave exactly like explicit `None`s. */
  lemma PaddingIsNone(fw: Framework, b: Body, s: Second)
    ensures MakeResponse(fw, Tuple0) == MakeResponse(fw, Tuple3(NoneValue, NoSecond, None))
    ensures MakeResponse(fw, Tuple1(b)) == MakeResponse(fw, Tuple3(b, NoSecond, None))
    ensures MakeResponse(fw, Bare(b)) == MakeResponse(fw, Tuple3(b, NoSecond, None))
    ensures MakeResponse(fw, Tuple2(b, s)) == MakeResponse(fw, Tuple3(b, s, None))
  {
  }

  /** Headers in the status position are the headers: the result is that of
      `(body, None, headers)` whatever the third element was. */
  lemma HeadersInStatusPosition(fw: Framework, b: Body, h: HeaderValue, third: Option<HeaderValue>)
    ensures MakeResponse(fw, Tuple3(b, Headers(h), third)) == MakeResponse(fw, Tuple3(b, NoSecond, Some(h)))
    ensures MakeResponse(fw, Tuple2(b, Headers(h))) == MakeResponse(fw, Tuple3(b, NoSecond, Some(h)))
  {
  }

  /** The response constructor honours a status it is given. */
  ghost predicate ConstructorSetsStatus(fw: Framework) {
    forall b: Body, h: Option<HeaderValue>, s: Option<StatusValue> ::
      s.Some? ==> fw.construct(b, h, s).status == s.value
  }

  /** The response constructor ends its header collection with the headers
      it is given. */
  ghost predicate ConstructorAppendsHeaders(fw: Framework) {
    forall b: Body, h: Option<HeaderValue>, s: Option<StatusValue> ::
      h.Some? ==> EndsWith(fw.construct(b, h, s).headers, h.value.items)
  }

  /** `suffix` is the last part of `xs`. */
  predicate EndsWith(xs: seq<Header>, suffix: seq<Header>) {
    |suffix| <= |xs| && xs[|xs| - |suffix|..] == suffix
  }

  /** Whatever path the body takes, a status and headers supplied in the
      tuple win over the body's own: the response has that status, and its
      header collection ends with those headers, provided the constructor
      honours its arguments. */
  lemma TupleValuesWin(fw: Framework, rv: ReturnValue)
    requires ConstructorSetsStatus(fw) && ConstructorAppendsHeaders(fw)
    requires !ReturnsNothing(rv)
    ensures StatusOf(rv).Some? ==> MakeResponse(fw, rv).value.status == StatusOf(rv).value
    ensures HeadersOf(rv).Some? ==> EndsWith(MakeResponse(fw, rv).value.headers, HeadersOf(rv).value.items)
  {
  }
}
