/** What `handler` promises, request by request, stated over the
    specification `Router.Respond` that `Router.Handler` is proved to follow. */
module RouterProperties {
  import opened Wrappers
  import opened Http
  import opened FileLayer
  import opened Text
  import opened Router

  /** A response is finished exactly once: at most one writeHead, first, and
      exactly one end or pipe, last. */
  predicate CompletesOnce(events: seq<Event>)
  {
    1 <= |events| <= 2
    && events[|events| - 1].Finishes()
    && forall k :: 0 <= k < |events| - 1 ==> events[k].Head?
  }

  /** The status header that an event log writes, if any. */
  function StatusOf(events: seq<Event>): (status: Option<int>)
  {
    if |events| > 0 && events[0].Head? then Some(events[0].status) else None
  }

  /** `GET /` redirects to the home location and asks nothing of the file layer. */
  lemma RedirectsToHome(cfg: Config, files: string -> FileResult)
    ensures Respond(cfg, files, Request("GET", "/"))
         == Exchange([], [Head(Found, Some(Location(cfg.homeLocation))), Ended])
  {
  }

  /** `GET /home` asks for exactly the home page and, once it opens, pipes it
      with no writeHead. */
  lemma HomePageIsPiped(cfg: Config, files: string -> FileResult, info: FileInfo)
    requires files(cfg.homeHTML) == Opened(info)
    ensures Respond(cfg, files, Request("GET", "/home")) == Exchange([cfg.homeHTML], [Piped(info.stream)])
  {
  }

  /** `GET /controller` asks for exactly the controller page and, once it
      opens, pipes it with no writeHead. */
  lemma ControllerPageIsPiped(cfg: Config, files: string -> FileResult, info: FileInfo)
    requires files(cfg.controllerHTML) == Opened(info)
    ensures Respond(cfg, files, Request("GET", "/controller")) == Exchange([cfg.controllerHTML], [Piped(info.stream)])
  {
  }

  /** Any other `GET` asks for the raw URL; a known type is announced with a
      200 and its Content-Type before the pipe. */
  lemma KnownAssetGetsContentType(cfg: Config, files: string -> FileResult, url: string, info: FileInfo)
    requires url != "/" && url != "/home" && url != "/controller"
    requires files(url) == Opened(info)
    requires info.fileType in cfg.contentTypes && cfg.contentTypes[info.fileType] != ""
    ensures Respond(cfg, files, Request("GET", url))
         == Exchange([url], [Head(OK, Some(ContentType(cfg.contentTypes[info.fileType]))), Piped(info.stream)])
  {
  }

  /** An unknown type (absent from the table, or mapped to the empty string)
      is piped with no writeHead at all. */
  lemma UnknownAssetIsPipedBare(cfg: Config, files: string -> FileResult, url: string, info: FileInfo)
    requires url != "/" && url != "/home" && url != "/controller"
    requires files(url) == Opened(info)
    requires info.fileType !in cfg.contentTypes || cfg.contentTypes[info.fileType] == ""
    ensures Respond(cfg, files, Request("GET", url)) == Exchange([url], [Piped(info.stream)])
  {
  }

  /** A 200 header is written exactly when an asset opened and its type is
      known; it is never written for pages, redirects, 404s or failures. */
  lemma OkOnlyForKnownAssets(cfg: Config, files: string -> FileResult, req: Request)
    ensures StatusOf(Respond(cfg, files, req).events) == Some(OK)
        <==> SelectRoute(cfg, req).ServeAsset?
             && files(req.url).Opened?
             && ContentTypeFor(cfg, files(req.url).info.fileType).Some?
  {
    var route := SelectRoute(cfg, req);
    if route.ServePage? || route.ServeAsset? {
      match files(route.path)
      case Failed(message) =>
        assert ErrorStatus(message) != OK;
      case Opened(info) =>
    }
  }

  /** Any method other than GET gets a bare 404 and the file layer is never
      asked. */
  lemma OtherMethodsAreNotFound(cfg: Config, files: string -> FileResult, req: Request)
    requires req.verb != "GET"
    ensures Respond(cfg, files, req) == Exchange([], [Head(NotFound, None), Ended])
  {
  }

  /** A file lookup that fails with a message mentioning ENOENT gives a bare
      404, whichever file rule asked. */
  lemma MissingFileIsNotFound(cfg: Config, files: string -> FileResult, req: Request)
    requires IsFileRoute(SelectRoute(cfg, req))
    requires files(SelectRoute(cfg, req).path).Failed?
    requires Includes(files(SelectRoute(cfg, req).path).message, "ENOENT")
    ensures Respond(cfg, files, req).events == [Head(NotFound, None), Ended]
  {
  }

  /** Any other failure of the file lookup gives a bare 500. */
  lemma OtherFailureIsServerError(cfg: Config, files: string -> FileResult, req: Request)
    requires IsFileRoute(SelectRoute(cfg, req))
    requires files(SelectRoute(cfg, req).path).Failed?
    requires !Includes(files(SelectRoute(cfg, req).path).message, "ENOENT")
    ensures Respond(cfg, files, req).events == [Head(InternalServerError, None), Ended]
  {
  }

  /** Every request, on every path including the error ones, finishes its
      response exactly once, with at most one status header before that. */
  lemma EveryResponseCompletesOnce(cfg: Config, files: string -> FileResult, req: Request)
    ensures CompletesOnce(Respond(cfg, files, req).events)
  {
    var route := SelectRoute(cfg, req);
    if route.ServeAsset? && files(route.path).Opened? {
      var info := files(route.path).info;
      match ContentTypeFor(cfg, info.fileType)
      case Some(mime) =>
        assert Respond(cfg, files, req).events == [Head(OK, Some(ContentType(mime))), Piped(info.stream)];
      case None =>
    }
  }

  /** Every status the router writes is one of 200, 302, 404 and 500. */
  lemma StatusesAreKnown(cfg: Config, files: string -> FileResult, req: Request)
    ensures StatusOf(Respond(cfg, files, req).events).Some? ==>
              StatusOf(Respond(cfg, files, req).events).value in {OK, Found, NotFound, InternalServerError}
  {
    var route := SelectRoute(cfg, req);
    if IsFileRoute(route) && files(route.path).Failed? {
      var message := files(route.path).message;
      assert StatusOf(Respond(cfg, files, req).events) == Some(ErrorStatus(message));
    }
  }

  /** The file layer is asked at most once per request, only by a file rule,
      and only for that rule's path. */
  lemma FileLayerAskedOnlyByFileRules(cfg: Config, files: string -> FileResult, req: Request)
    ensures IsFileRoute(SelectRoute(cfg, req)) ==> Respond(cfg, files, req).requested == [SelectRoute(cfg, req).path]
    ensures !IsFileRoute(SelectRoute(cfg, req)) ==> Respond(cfg, files, req).requested == []
  {
  }

  /** The rejected-lookup message of the unit tests is classified as missing. */
  lemma NoSuchFileMessageIsNotFound()
    ensures ErrorStatus("Error: ENOENT no such file or directory") == NotFound
  {
    var message := "Error: ENOENT no such file or directory";
    assert message[7..13] == "ENOENT" by {
      assert message[7] == 'E' && message[8] == 'N' && message[9] == 'O';
      assert message[10] == 'E' && message[11] == 'N' && message[12] == 'T';
    }
    assert OccursAt(message, "ENOENT", 7);
  }

  /** A message without ENOENT anywhere in it is an internal error. */
  lemma BareErrorMessageIsServerError()
    ensures ErrorStatus("Error: ") == InternalServerError
  {
    var message := "Error: ";
    forall i ensures !OccursAt(message, "ENOENT", i) {
      // only i = 0 and i = 1 leave room for six characters
      if i == 0 {
        assert message[0..6][1] == 'r';
      } else if i == 1 {
        assert message[1..7][0] == 'r';
      }
    }
  }

  /** The classification is by substring: ENOENT anywhere in any message,
      even in text that is not about a missing file, means 404. */
  lemma EnoentAnywhereIsNotFound(prefix: string, suffix: string)
    ensures ErrorStatus(prefix + "ENOENT" + suffix) == NotFound
  {
    var message := prefix + "ENOENT" + suffix;
    assert message[|prefix|..|prefix| + 6] == "ENOENT";
    assert OccursAt(message, "ENOENT", |prefix|);
  }
}
