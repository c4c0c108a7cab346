/** The HTTP response object as the router sees it: the only things the
    router ever does with it are writeHead, end, and being the target of a
    file stream's pipe. Each call is recorded, in order, in an event log. */
module Http {
  import opened Wrappers

  /** Status codes the router writes (RFC 9110). */
  const OK: int := 200                   // section 15.3.1 of RFC 9110
  const Found: int := 302                // section 15.4.3 of RFC 9110
  const NotFound: int := 404             // section 15.5.5 of RFC 9110
  const InternalServerError: int := 500  // section 15.6.1 of RFC 9110

  /** The single header the router ever passes to writeHead. */
  datatype Header = Location(location: string) | ContentType(mime: string)

  /** One observable call on the response. */
  datatype Event =
    | Head(status: int, header: Option<Header>)  // res.writeHead(status[, { header }])
    | Ended                                      // res.end()
    | Piped(stream: nat)                         // stream.pipe(res)
  {
    /** End and pipe both hand the response over for completion. */
    predicate Finishes() { Ended? || Piped? }
  }

  class Response {
    var log: seq<Event>

    constructor ()
      ensures log == []
    {
      log := [];
    }

    method WriteHead(status: int, header: Option<Header>)
      modifies this
      ensures log == old(log) + [Head(status, header)]
    {
      log := log + [Head(status, header)];
    }

    method End()
      modifies this
      ensures log == old(log) + [Ended]
    {
      log := log + [Ended];
    }

    /** The response as the destination of `stream.pipe(res)`. */
    method AcceptPipe(stream: nat)
      modifies this
      ensures log == old(log) + [Piped(stream)]
    {
      log := log + [Piped(stream)];
    }
  }
}
