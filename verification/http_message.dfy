/** The parts of Beast's HTTP request and response messages the server code
    reads or sets, and the outcomes of reading and writing them on a
    connection. Parsing and serialisation are not modelled: a request is
    the record the parser would produce, and each read or write reports
    only how it ended. */
module HttpMessage {
  import opened Wrappers

  /** The request methods the code tells apart; every other method Beast
      knows is `OtherVerb`, and `UnknownVerb` is the method of an empty
      request. */
  datatype Verb = UnknownVerb | Get | Head | Post | Put | Delete | OtherVerb(name: string)

  /** A request: method (`verb`), target, HTTP version (11 for HTTP/1.1), whether the
      connection is to be kept alive, and the body. */
  datatype Request = Request(verb: Verb, target: string, version: nat, keepAlive: bool, body: string)

  /** A default-constructed request, as `req_ = {}` leaves it. */
  const EmptyRequest := Request(UnknownVerb, "", 11, true, "")

  /** The body of a response: text held in memory, an open file of known
      size, or nothing at all. */
  datatype Payload = TextBody(text: string) | FileBody(path: string, size: nat) | NoBody

  /** The value of the Server header: the fixed string
      `BOOST_BEAST_VERSION_STRING` of the Boost release the code is built
      with. */
  datatype ServerField = BeastVersion

  /** A response: status code, version, the Server, Content-Type and
      Content-Encoding headers (absent when not set), keep-alive, the
      Content-Length header, and the body. */
  datatype Response = Response(
    status: nat,
    version: nat,
    server: Option<ServerField>,
    contentType: Option<string>,
    contentEncoding: Option<string>,
    keepAlive: bool,
    contentLength: Option<nat>,
    body: Payload)

  const StatusOk := 200
  const StatusBadRequest := 400
  const StatusNotFound := 404
  const StatusMethodNotAllowed := 405
  const StatusServerError := 500

  /** Statuses whose responses never carry a body: 1xx, 204 and 304. */
  predicate IsBodylessStatus(status: nat) {
    100 <= status < 200 || status == 204 || status == 304
  }

  /** `need_eof()` of a response: with a known length (or no body by its
      status) the connection closes only when keep-alive is off; without a
      length the end of the body is the end of the connection. */
  predicate NeedEof(res: Response) {
    if IsBodylessStatus(res.status) || res.contentLength.Some? then !res.keepAlive else true
  }

  /** How a read of one request on a connection ended. */
  datatype ReadOutcome = EndOfStream | ReadFailed | Received(request: Request)

  /** The events of one pass through a connection loop: the value of the
      server's exit flag seen before the read (only the server's own loop
      looks at it), how the read ended, and whether writing the response
      failed. */
  datatype Round = Round(exit: bool, read: ReadOutcome, writeFailed: bool)

  /** How a connection ends: shut down for sending, dropped without a
      shutdown, or still open when the events run out. */
  datatype Finish = Shutdown | Dropped | Open

  /** A connection's history: how it ended, and the responses written to
      it, in order. */
  datatype Run = Run(finish: Finish, sent: seq<Response>)
}
