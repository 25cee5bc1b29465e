# APIFlask response and exception hooks

A Dafny model of the two hooks that `APIFlask` (`flask_restapi/app.py`)
overrides on Flask:

- `make_response` turns a view function's return value into one
  `APIResponse`. The return value is either a bare value or a tuple of up to
  three elements (body, status or headers, headers). The tuple is padded with
  `None`. A `None` body is rejected with
  `ValueError('View function did not return a response')`. A dict or list in
  the status position is read as headers. A JSON-renderable, text, bytes,
  bytearray, list or dict body goes to the `APIResponse` constructor together
  with the pending status and headers. An existing `APIResponse` is used as it
  is; any other object is force-converted.
  A last pass then assigns a pending status and extends the header collection
  with pending headers.
- `handle_user_exception` routes an exception raised by a view:
  - an `APIError` becomes a `{code, message}` JSON envelope response;
  - so does an `HTTPException` that the application does not trap;
  - anything else goes to a registered error handler if there is one;
  - otherwise the same exception is raised again.

Modules:

- `Wrappers`: `Option` (Python's `None` or a value) and `Result` (a return or a raise).
- `Responses`: the data model. It holds the tagged body, status, header, return-value and
  exception types, the `Response` record, and header extension. It also holds `Framework`,
  a record of the Flask/werkzeug collaborators whose code is not part of this model:
  the `APIResponse` constructor, `force_type`, `trap_http_exception`, and
  `_find_error_handler` and the handler it returns. Each is a function-valued field. The properties hold for any
  behaviour of these collaborators that returns normally. The model takes them never to raise.
  It also models responses as values, not as objects changed in place.
- `Normalizer`: `make_response`, its steps, and a positional reference reading of a return
  value (`BodyOf`, `StatusOf`, `HeadersOf`) against which its contract is stated.
- `Router`: `handle_user_exception` and `handle_api_exception`.

Behaviour of `make_response` worth noting:

- The code rejects only `None`, and only after padding. So `()`, `(None,)` and `(None, 200)`
  are rejected, while a falsy body such as `""` or `[]` is accepted.
- A one-element tuple is accepted and behaves like its bare element.
- Only a `dict` or `list` in the second position is read as headers. A tuple there is not.

## Model

| member | source | states |
|---|---|---|
| Responses.Extend | flask_restapi/app.py:56-57 | Adding the pairs one at a time yields the existing headers followed by the added ones, in order; nothing already present is lost |
| Normalizer.Override | flask_restapi/app.py:51-57 | The final pass leaves the content alone, sets the status only when one is pending, and appends pending headers after the existing ones; with nothing pending the response is unchanged |
| Normalizer.MakeResponse | flask_restapi/app.py:29-59 | Fails exactly when the view returned nothing (bare `None`, empty tuple, `None` first element), always with the fixed `ValueError` message; a constructible body yields exactly the constructor's response for the status and headers supplied by position, with no later override; an existing or force-converted response keeps its content, takes the supplied status if any, and gets the supplied headers appended to its own |
| Normalizer.Unpack | flask_restapi/app.py:30-32 | Padding reads the first element as the body (`None` for the empty tuple), the second as status-or-headers and the third as headers, with missing positions `None`; its effect on results is stated by `Normalizer.MakeResponse` and `Normalizer.PaddingIsNone` |
| Normalizer.Disambiguate | flask_restapi/app.py:37-38 | A status is pending exactly when the second element is a status; a dict or list there becomes the headers and replaces the third element, otherwise the third element stays the headers; its effect on results is stated by `Normalizer.HeadersInStatusPosition` |
| Normalizer.SetStatus | flask_restapi/app.py:51-55 | A pending status replaces the response's status (a string as the status line, otherwise as the code); content and headers are untouched; with none pending nothing changes |
| Normalizer.ExtendHeaders | flask_restapi/app.py:56-57 | Pending headers are appended after the existing ones; content and status are untouched; absent or empty headers change nothing |
| Normalizer.BareResponseUnchanged | flask_restapi/app.py:29-59 | An `APIResponse` returned bare or as a one-element tuple comes back unchanged |
| Normalizer.Idempotent | flask_restapi/app.py:40-59 | Feeding a produced response back as a bare return value reproduces it |
| Normalizer.PaddingIsNone | flask_restapi/app.py:30-35 | Tuples of length 0, 1 and 2, and a bare value, behave exactly like the three-element tuple padded with `None` |
| Normalizer.HeadersInStatusPosition | flask_restapi/app.py:37-38 | A dict or list in the second position acts as the headers with no status, and any third element is ignored |
| Normalizer.TupleValuesWin | flask_restapi/app.py:45-57 | Take a constructor that honours its status and header arguments. Then a status and headers supplied in the tuple end up in the response on every body path: the status is the supplied one, and the headers end with the supplied ones |
| Router.HandleApiException | flask_restapi/app.py:61-63 | The envelope for an exception is the response `make_response` builds for a bare `JSONRender` of the exception's code and message |
| Router.HandleUserException | flask_restapi/app.py:65-84 | Responds with the envelope exactly for an `APIError` or an untrapped `HTTPException`; otherwise returns the registered handler's result exactly when a handler is found; otherwise re-raises the identical exception |
| Router.ApiErrorIgnoresTrapAndHandlers | flask_restapi/app.py:72-80 | The outcome for an `APIError` depends on neither trap mode nor registered handlers |
| Router.HttpExceptionLikeApiError | flask_restapi/app.py:72-78 | An untrapped `HTTPException` is handled exactly like an `APIError` with the same code and message |

## Left out

- Normalizer.MakeResponse: the response constructor, `force_type` and header extension are
  taken never to raise, so "fails exactly when the view returned nothing" covers only the
  hook's own `ValueError`. In the source, `force_type` (app.py:49) treats an object that is
  not a response as a WSGI application: for example, `return 5` raises a `TypeError` out of
  `make_response`. Also, `rv.headers.extend` (app.py:57) can raise on invalid header values.
- Responses are modelled as values, so the in-place mutation of a returned `APIResponse`
  and object identity are not modelled. At app.py:53, 55 and 57 the source assigns
  `status`/`status_code` and extends `headers` on the object the view returned. So a view
  that returns a shared `APIResponse` inside a tuple changes that shared object on every
  call. `Override` returns a new record instead. `Normalizer.BareResponseUnchanged` proves
  equality of values, not the identity the source gives.
- The `APIResponse` constructor, `APIResponse.force_type` and `JSONRender` internals
  (`responses.py` and `renders.py` are not part of this model). They are abstract
  `Framework` fields, so JSON serialisation and default content-type selection are not
  modelled. `handle_api_exception` calls the constructor with `content=` only. The model
  takes this to be the same call as a positional body with `headers=None, status=None`.
- `request.environ`, which `force_type` reads. It is folded into the abstract
  `Framework.forceType` for the current request.
- werkzeug's keeping of `status_code` and the status line in step. `Response.status`
  records the status last assigned: a line for a string, a code otherwise. Parsing one into
  the other is werkzeug code that is not modelled.
- Multi-valued dict headers, which werkzeug's `extend` expands. A header value is modelled
  as a sequence of (name, value) string pairs.
- Second or third tuple elements of other Python types, such as a tuple of headers or a
  bytes status. Such an element reaches werkzeug internals that are not modelled. The
  exception is a third element that follows a dict or list in the second position:
  app.py:38 discards it, whatever its type.
- Tuples longer than three elements. They fail inside Python's unpacking. The
  `ReturnValue` type has no constructor for them.
- The contents of list and dict bodies. They are only handed to the constructor, so their
  nested structure has no effect on the hooks.
- `sys.exc_info`, the `assert exc_value is e` check and `reraise` traceback mechanics
  (app.py:69-70, 83). The exception passed in is taken to be the current one. Re-raising is
  the outcome `Reraise` carrying that same exception value.
- `trap_http_exception` and the MRO lookup of `_find_error_handler`. They are abstract
  `Framework` fields. A registered handler is a total function, so an exception it
  raises, which would propagate out of `handle_user_exception` (app.py:84), is not modelled.
- The `code` and `message` of an `HTTPException` are modelled as data fields. Whether
  werkzeug's class actually provides a `message` attribute depends on werkzeug and the
  Python version, which are not part of this model.
- `APIFlask.__init__`: it sets two configuration defaults and contains no logic.
- `setup.py`: packaging metadata.
