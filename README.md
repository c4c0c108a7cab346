# Request dispatch of a static-file HTTP server

This project models the request handler of a small Node.js server that
serves static files (`server/routes.js`). For every request the handler does
three things. It picks one rule from an ordered, first-match-wins table over
the request's method and URL. It lets that rule drive the response object
(`writeHead`, `end`, or piping a file stream into it). If the file lookup
rejects, it turns the rejection into a 404 or a 500.

- `wrappers.dfy` (`Wrappers`): `Option`.
- `http.dfy` (`Http`): the status codes used (200, 302, 404 and 500, as in
  RFC 9110), the two headers that are written (`Location`, `Content-Type`),
  and the class `Response`. Its `log` records every `writeHead`, `end` and
  `pipe` in order.
- `file_layer.dfy` (`FileLayer`): the file layer as a parameter
  `files: string -> FileResult`. A lookup opens a stream, given by an
  identifier and the file's extension, or fails with an error message. The
  class `Controller` passes each path to `files` unchanged and records which
  paths it was asked for.
- `text.dfy` (`Text`): `String.prototype.includes` as a recursive function,
  proved equal to "there is an index where the substring occurs".
- `router.dfy` (`Router`): the pure parts are functions:
  - `SelectRoute`, the rule table.
  - `ContentTypeFor`, the `CONTENT_TYPE` lookup with JavaScript truthiness.
  - `ErrorStatus`, the ENOENT classification.
  - `Respond`, the specification of one request: the paths asked of the
    file layer and the calls made on the response.

  The effects are the methods `Routes`, `HandleError` and `Handler`. They
  are proved to follow `Respond`. `Routes` also proves that a rejection
  leaves the response untouched.
- `router_properties.dfy` (`RouterProperties`): what the handler promises,
  one rule at a time, and for all requests.

The awaits become sequential code. The only awaited call is the file lookup,
and it settles before any header is written (`server/routes.js:40-50`).

Three behaviours of the code that the model keeps as written:
- An error is classified by whether its message contains `ENOENT`. A
  message that mentions ENOENT for another reason is therefore still a 404
  (`EnoentAnywhereIsNotFound`).
- Every GET matches the generic file rule, so only non-GET methods reach the
  404 fallback.
- The Content-Type header is written only when the table's value is truthy.
  A type mapped to `""` is therefore treated as unknown.

## Model

| member | source | states |
|---|---|---|
| Router.SelectRoute | server/routes.js:10-56 | first match wins: `GET /` redirects to the configured home location; `GET /home` and `GET /controller` serve the configured page files; every other `GET` serves its own URL; every other method falls through to 404 — each as an if-and-only-if on method and URL |
| Router.ContentTypeFor | server/routes.js:45-46 | a Content-Type is used exactly when the extension is in the table with a truthy (non-empty) value, and it is that value |
| Text.Includes | server/routes.js:60 | `message.includes('ENOENT')` is true exactly when the substring occurs at some index of the message |
| Router.ErrorStatus | server/routes.js:59-67 | the error status is 404 exactly when the message contains ENOENT anywhere, and 500 exactly when it does not |
| Router.ErrorEvents | server/routes.js:59-68 | the calls handleError makes: exactly one writeHead without headers, 404 exactly when the message contains ENOENT and 500 exactly when it does not, then one end |
| Router.ServeEvents | server/routes.js:29-52 | the calls a served file makes: it always ends in the pipe of the opened stream, and a 200 with the table's Content-Type comes before it if and only if the rule is the generic file rule and the type has a truthy entry |
| Router.Rejection | server/routes.js:17-43 | `routes` rejects if and only if a file rule's lookup fails, and it rejects with the file layer's message |
| Router.Respond | server/routes.js:7-74 | the specification of `handler`: a rejection is answered by exactly the handleError calls; the file layer is asked for the rule's own path by a file rule and for nothing otherwise; the response always finishes with an end or a pipe, after at most one other call |
| Router.Routes | server/routes.js:7-57 | the response log grows by exactly the calls of the selected rule; the file layer is asked for exactly the rule's path; a rejected lookup is returned with its message and leaves the response untouched |
| Router.HandleError | server/routes.js:59-68 | appends exactly one status header (404 or 500, without headers) followed by one end |
| Router.Handler | server/routes.js:70-74 | the whole request, `routes` with its rejection caught, appends exactly the calls `Respond` gives and asks the file layer for exactly the paths `Respond` gives |
| FileLayer.Controller.GetFileStream | tests/unit/server/controller.test.js:23-30 | passes the path to the file layer unchanged, returns its result and records the path |
| FileLayer.Controller.constructor | server/routes.js:5 | a new controller over a given file layer has been asked for nothing |
| Http.Response.WriteHead | server/routes.js:11-13 | records one writeHead with its status and optional header |
| Http.Response.End | server/routes.js:14 | records one end |
| Http.Response.AcceptPipe | server/routes.js:29 | records that the file stream was piped into the response |
| RouterProperties.RedirectsToHome | server/routes.js:10-15 | `GET /` writes exactly 302 with `Location` set to the home location, then end, and never asks the file layer |
| RouterProperties.HomePageIsPiped | server/routes.js:17-30 | `GET /home` asks the file layer for exactly the home page and pipes its stream with no writeHead |
| RouterProperties.ControllerPageIsPiped | server/routes.js:31-37 | `GET /controller` asks the file layer for exactly the controller page and pipes its stream with no writeHead |
| RouterProperties.KnownAssetGetsContentType | server/routes.js:39-52 | any other `GET` asks for the raw URL; a known type is written as 200 with that Content-Type before the pipe |
| RouterProperties.UnknownAssetIsPipedBare | server/routes.js:45-52 | an extension that is absent, or mapped to the empty string, is piped with no writeHead at all |
| RouterProperties.OkOnlyForKnownAssets | server/routes.js:45-50 | a 200 is written if and only if the generic file rule opened a file whose type has a truthy Content-Type |
| RouterProperties.OtherMethodsAreNotFound | server/routes.js:55-56 | any non-GET method gets exactly 404 and end, and the file layer is never asked |
| RouterProperties.MissingFileIsNotFound | server/routes.js:59-64 | a lookup rejected with a message containing ENOENT gives exactly 404 and end, whichever file rule asked |
| RouterProperties.OtherFailureIsServerError | server/routes.js:65-67 | a lookup rejected with any other message gives exactly 500 and end |
| RouterProperties.EveryResponseCompletesOnce | server/routes.js:7-74 | on every path, error paths included, the response gets at most one writeHead, which comes first, and exactly one end or pipe, which comes last |
| RouterProperties.StatusesAreKnown | server/routes.js:7-74 | every status written is 200, 302, 404 or 500 |
| RouterProperties.FileLayerAskedOnlyByFileRules | server/routes.js:17-43 | the file layer is asked once, for the rule's own path, by the three file rules, and never by the redirect or the 404 fallback |
| RouterProperties.NoSuchFileMessageIsNotFound | tests/unit/server/routes.test.js:162-176 | the message `Error: ENOENT no such file or directory` is classified 404 |
| RouterProperties.BareErrorMessageIsServerError | tests/unit/server/routes.test.js:177-191 | the message `Error: ` is classified 500 |
| RouterProperties.EnoentAnywhereIsNotFound | server/routes.js:60 | any message with ENOENT anywhere in it is classified 404, whatever surrounds it |

## Left out

- The file layer (`server/service.js`): joining the public directory, probing existence with `fsPromises.access`, `path.extname` and `fs.createReadStream` are Node library calls. Only their outcome is modelled, as the parameter `files`. Path traversal through `..` is therefore not modelled either.
- The controller module is not part of this model. It is taken to be a pass-through to the file layer, as its unit test shows.
- Process start-up and port binding (`server/index.js`), and the configuration file, whose values are parameters (`Router.Config`).
- Logging in `handleError` (`logger.warn`, `logger.error`): a side channel with nothing to check.
- Streaming: the bytes, backpressure and completion of `stream.pipe(res)` are one recorded event. So is the response's own default status.
- Promise scheduling and concurrent requests: each request is one sequential call. Requests share no mutable state.
- Router.ErrorStatus: a rejection value without a `message` property would make `handleError` itself throw, leaving the response unwritten. The model gives every rejection a message string.
- Router.Routes: Node's `writeHead` can throw, for example on a Content-Type value with invalid header characters. The model assumes that `writeHead`, `end` and `pipe` always return normally.
- Router.ContentTypeFor: the table holds only strings, so truthiness means "present and non-empty". Keys inherited from `Object.prototype` are not modelled. An extension returned by `path.extname` is empty or starts with a dot, so it never names one of them.
