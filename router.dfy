/** Request dispatch: the ordered rule table of `routes`, the error
    classification of `handleError`, and `handler`, which runs the first and
    falls back to the second when the file lookup rejects.

    The asynchronous parts collapse to sequential code: the only awaited
    call is the file lookup, and it settles before any header is written. */
module Router {
  import opened Wrappers
  import opened Http
  import opened FileLayer
  import opened Text

  /** The request line the router reads: `req.method` (here `verb`, since
      `method` is a keyword) and `req.url`. */
  datatype Request = Request(verb: string, url: string)

  /** The configuration values the router reads. */
  datatype Config = Config(
    homeLocation: string,                 // location.home
    homeHTML: string,                     // pages.homeHTML
    controllerHTML: string,               // pages.controllerHTML
    contentTypes: map<string, string>)    // constants.CONTENT_TYPE

  /** Which rule of the table a request falls under. */
  datatype Route =
    | Redirect(location: string)   // 302 to the home location
    | ServePage(path: string)      // a fixed page, streamed without a header
    | ServeAsset(path: string)     // the URL itself, with a Content-Type when known
    | Unrouted                     // 404

  /** First match wins: `GET /`, `GET /home`, `GET /controller`, any other
      `GET`, anything else. */
  function SelectRoute(cfg: Config, req: Request): (r: Route)
    ensures r.Redirect? <==> req.verb == "GET" && req.url == "/"
    ensures r.ServePage? <==> req.verb == "GET" && (req.url == "/home" || req.url == "/controller")
    ensures r.ServeAsset? <==> req.verb == "GET" && req.url != "/" && req.url != "/home" && req.url != "/controller"
    ensures r.Unrouted? <==> req.verb != "GET"
    ensures r.Redirect? ==> r.location == cfg.homeLocation
    ensures r.ServePage? && req.url == "/home" ==> r.path == cfg.homeHTML
    ensures r.ServePage? && req.url == "/controller" ==> r.path == cfg.controllerHTML
    ensures r.ServeAsset? ==> r.path == req.url
  {
    if req.verb == "GET" && req.url == "/" then Redirect(cfg.homeLocation)
    else if req.verb == "GET" && req.url == "/home" then ServePage(cfg.homeHTML)
    else if req.verb == "GET" && req.url == "/controller" then ServePage(cfg.controllerHTML)
    else if req.verb == "GET" then ServeAsset(req.url)
    else Unrouted
  }

  /** The Content-Type header for a file type, when the table gives a truthy
      value for it: the key must be present and its value non-empty, since
      the empty string is falsy. */
  function ContentTypeFor(cfg: Config, fileType: string): (r: Option<string>)
    ensures r.Some? <==> fileType in cfg.contentTypes && cfg.contentTypes[fileType] != ""
    ensures r.Some? ==> r.value == cfg.contentTypes[fileType] && r.value != ""
  {
    if fileType in cfg.contentTypes && cfg.contentTypes[fileType] != "" then
      Some(cfg.contentTypes[fileType])
    else
      None
  }

  /** The status handleError writes: 404 when the message mentions ENOENT
      anywhere, 500 otherwise. */
  function ErrorStatus(message: string): (status: int)
    ensures status == NotFound <==> exists i :: OccursAt(message, "ENOENT", i)
    ensures status == InternalServerError <==> !exists i :: OccursAt(message, "ENOENT", i)
  {
    if Includes(message, "ENOENT") then NotFound else InternalServerError
  }

  /** A rule that asks the file layer for its path. */
  predicate IsFileRoute(route: Route)
  {
    route.ServePage? || route.ServeAsset?
  }

  /** What handleError does to the response: one status header without
      headers, 404 when the message mentions ENOENT and 500 otherwise, then
      end. */
  function ErrorEvents(message: string): (events: seq<Event>)
    ensures |events| == 2 && events[0].Head? && events[0].header.None? && events[1] == Ended
    ensures events[0].status == NotFound <==> exists i :: OccursAt(message, "ENOENT", i)
    ensures events[0].status == InternalServerError <==> !exists i :: OccursAt(message, "ENOENT", i)
  {
    [Head(ErrorStatus(message), None), Ended]
  }

  /** What a served file does to the response: a page is piped as is; an
      asset first gets a 200 with its Content-Type when the type is known. */
  function ServeEvents(cfg: Config, route: Route, info: FileInfo): (events: seq<Event>)
    requires IsFileRoute(route)
    ensures 1 <= |events| <= 2 && events[|events| - 1] == Piped(info.stream)
    ensures |events| == 2 <==> route.ServeAsset? && info.fileType in cfg.contentTypes && cfg.contentTypes[info.fileType] != ""
    ensures |events| == 2 ==> events[0] == Head(OK, Some(ContentType(cfg.contentTypes[info.fileType])))
  {
    if route.ServePage? then [Piped(info.stream)]
    else match ContentTypeFor(cfg, info.fileType)
      case Some(mime) => [Head(OK, Some(ContentType(mime))), Piped(info.stream)]
      case None => [Piped(info.stream)]
  }

  /** What one request does to the world: the paths asked of the file layer
      and the calls made on the response. */
  datatype Exchange = Exchange(requested: seq<string>, events: seq<Event>)

  /** The rejection reason of `routes`, if it rejects: only a file lookup can
      reject, and it rejects with the file layer's message. */
  function Rejection(cfg: Config, files: string -> FileResult, req: Request): (r: Option<string>)
    ensures r.Some? <==> IsFileRoute(SelectRoute(cfg, req)) && files(SelectRoute(cfg, req).path).Failed?
    ensures r.Some? ==> r.value == files(SelectRoute(cfg, req).path).message
  {
    match SelectRoute(cfg, req)
    case ServePage(path) => if files(path).Failed? then Some(files(path).message) else None
    case ServeAsset(path) => if files(path).Failed? then Some(files(path).message) else None
    case _ => None
  }

  /** The observable behaviour of `handler` for one request: a rejection of
      `routes` is answered by handleError alone; the file layer is asked
      only by a file rule, for that rule's path; and the response is always
      finished by an end or a pipe. */
  function Respond(cfg: Config, files: string -> FileResult, req: Request): (x: Exchange)
    ensures Rejection(cfg, files, req).Some? ==> x.events == ErrorEvents(Rejection(cfg, files, req).value)
    ensures x.requested == if IsFileRoute(SelectRoute(cfg, req)) then [SelectRoute(cfg, req).path] else []
    ensures 1 <= |x.events| <= 2 && x.events[|x.events| - 1].Finishes()
  {
    match SelectRoute(cfg, req)
    case Redirect(location) => Exchange([], [Head(Found, Some(Location(location))), Ended])
    case Unrouted => Exchange([], [Head(NotFound, None), Ended])
    case ServePage(path) =>
      Exchange([path], match files(path)
                       case Failed(message) => ErrorEvents(message)
                       case Opened(info) => ServeEvents(cfg, ServePage(path), info))
    case ServeAsset(path) =>
      Exchange([path], match files(path)
                       case Failed(message) => ErrorEvents(message)
                       case Opened(info) => ServeEvents(cfg, ServeAsset(path), info))
  }

  /** `routes(req, res)`: runs the rule table. On a rejection nothing has
      been written to the response yet. */
  method Routes(cfg: Config, controller: Controller, req: Request, res: Response)
    returns (rejected: Option<string>)
    modifies controller, res
    ensures rejected == Rejection(cfg, controller.files, req)
    ensures controller.requested == old(controller.requested) + Respond(cfg, controller.files, req).requested
    ensures rejected.None? ==> res.log == old(res.log) + Respond(cfg, controller.files, req).events
    ensures rejected.Some? ==> res.log == old(res.log)
  {
    rejected := None;
    if req.verb == "GET" && req.url == "/" {
      res.WriteHead(Found, Some(Location(cfg.homeLocation)));
      res.End();
      return;
    }
    if req.verb == "GET" && req.url == "/home" {
      var file := controller.GetFileStream(cfg.homeHTML);
      if file.Failed? {
        rejected := Some(file.message);
        return;
      }
      res.AcceptPipe(file.info.stream);
      return;
    }
    if req.verb == "GET" && req.url == "/controller" {
      var file := controller.GetFileStream(cfg.controllerHTML);
      if file.Failed? {
        rejected := Some(file.message);
        return;
      }
      res.AcceptPipe(file.info.stream);
      return;
    }
    if req.verb == "GET" {
      var file := controller.GetFileStream(req.url);
      if file.Failed? {
        rejected := Some(file.message);
        return;
      }
      var contentType := ContentTypeFor(cfg, file.info.fileType);
      if contentType.Some? {
        res.WriteHead(OK, Some(ContentType(contentType.value)));
      }
      res.AcceptPipe(file.info.stream);
      return;
    }
    res.WriteHead(NotFound, None);
    res.End();
  }

  /** `handleError(err, res)`: one status header, then end. */
  method HandleError(message: string, res: Response)
    modifies res
    ensures res.log == old(res.log) + ErrorEvents(message)
  {
    if Includes(message, "ENOENT") {
      res.WriteHead(NotFound, None);
      res.End();
      return;
    }
    res.WriteHead(InternalServerError, None);
    res.End();
  }

  /** `handler(req, res)`: `routes` with its rejection caught by
      `handleError`. */
  method Handler(cfg: Config, controller: Controller, req: Request, res: Response)
    modifies controller, res
    ensures controller.requested == old(controller.requested) + Respond(cfg, controller.files, req).requested
    ensures res.log == old(res.log) + Respond(cfg, controller.files, req).events
  {
    var rejected := Routes(cfg, controller, req, res);
    if rejected.Some? {
      HandleError(rejected.value, res);
    }
  }
}
