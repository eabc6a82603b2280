/** The asynchronous connection `Session`: a copy of the handler table
    taken at construction, and the chain of completion handlers
    `DoRead` → `HandleRead` → `Dispatcher` → write → `HandleWrite` →
    `DoRead` … Each completion handler is a transition on the session's
    state, taking the outcome of the read or write it completes. */
module AsyncSession {
  import opened Wrappers
  import opened HttpMessage
  import HT = HandlerTable
  import HS = HttpServer
  import DS = DemoServer

  /** Where the session is: before `Run`, waiting for a request, waiting
      for a write to complete (with the close flag bound to it), shut down
      for sending, or abandoned without a shutdown after an error. */
  datatype Phase = Idle | Reading | Writing(close: bool) | ShutDown | Abandoned

  /** The session's state: its own handler table, its phase, `req_`,
      `res_`, and the responses written so far. */
  datatype Session = Session(handlers: HT.Table, phase: Phase, req: Request, res: Option<Response>,
                             sent: seq<Response>)

  /** The constructor: the session copies the table it is given. */
  function NewSession(handlers: HT.Table): (s: Session)
    ensures s.handlers == handlers && s.phase == Idle && s.sent == []
  {
    Session(handlers, Idle, EmptyRequest, None, [])
  }

  /** `DoRead`: `req_` is reset to an empty request and a read starts. */
  function DoRead(s: Session): (r: Session)
    ensures r.phase == Reading && r.req == EmptyRequest
    ensures r.handlers == s.handlers && r.res == s.res && r.sent == s.sent
  {
    s.(req := EmptyRequest, phase := Reading)
  }

  /** `Run`: the first read. */
  function RunSession(s: Session): (r: Session)
    requires s.phase == Idle
    ensures r == DoRead(s)
  {
    DoRead(s)
  }

  /** `DoClose`: the socket is shut down for sending. */
  function DoClose(s: Session): (r: Session)
    ensures r.phase == ShutDown && r.(phase := s.phase) == s
  {
    s.(phase := ShutDown)
  }

  /** `Dispatcher` followed by the send lambda: the response for `req_`
      becomes `res_`, its write starts with `need_eof()` as the close flag. */
  function Dispatcher(s: Session, invoke: HT.Invoke): (r: Session)
    ensures r.res == Some(HT.Dispatch(s.handlers, invoke, s.req))
    ensures r.phase == Writing(NeedEof(r.res.value))
    ensures r.sent == s.sent + [r.res.value]
    ensures r.handlers == s.handlers && r.req == s.req
  {
    var res := HT.Dispatch(s.handlers, invoke, s.req);
    s.(res := Some(res), phase := Writing(NeedEof(res)), sent := s.sent + [res])
  }

  /** `HandleRead`: the end of the stream closes the session, any other
      error abandons it, and a request read into `req_` is dispatched
      exactly once. */
  function HandleRead(s: Session, invoke: HT.Invoke, read: ReadOutcome): (r: Session)
    requires s.phase == Reading
    ensures read == EndOfStream ==> r == DoClose(s)
    ensures read == ReadFailed ==> r == s.(phase := Abandoned)
    ensures read.Received? ==>
      && r.req == read.request
      && r.sent == s.sent + [HT.Dispatch(s.handlers, invoke, read.request)]
      && r.phase.Writing?
    ensures r.handlers == s.handlers
  {
    match read
    case EndOfStream => DoClose(s)
    case ReadFailed => s.(phase := Abandoned)
    case Received(req) => Dispatcher(s.(req := req), invoke)
  }

  /** `HandleWrite`: a failed write abandons the session (no read, no
      close); with the close flag set the session closes; otherwise `res_`
      is released and the next read starts. */
  function HandleWrite(s: Session, failed: bool): (r: Session)
    requires s.phase.Writing?
    ensures failed ==> r == s.(phase := Abandoned)
    ensures !failed && s.phase.close ==> r == DoClose(s)
    ensures !failed && !s.phase.close ==> r.phase == Reading && r.req == EmptyRequest && r.res.None?
    ensures r.sent == s.sent && r.handlers == s.handlers
  {
    if failed then s.(phase := Abandoned)
    else if s.phase.close then DoClose(s)
    else DoRead(s.(res := None))
  }

  /** The session driven by a sequence of rounds: each round completes the
      pending read and, when a request was read, the write of its answer. */
  function Drive(s: Session, invoke: HT.Invoke, rounds: seq<Round>): (r: Session)
    requires s.phase == Reading
    ensures r.handlers == s.handlers
    ensures r.phase in {Reading, ShutDown, Abandoned}
    decreases |rounds|
  {
    if |rounds| == 0 then s
    else
      var afterRead := HandleRead(s, invoke, rounds[0].read);
      if !afterRead.phase.Writing? then afterRead
      else
        var afterWrite := HandleWrite(afterRead, rounds[0].writeFailed);
        if afterWrite.phase == Reading then Drive(afterWrite, invoke, rounds[1..]) else afterWrite
  }

  /** How a driven session ended, as a connection history. */
  function Outcome(s: Session): Run {
    Run(match s.phase
        case ShutDown => Shutdown
        case Abandoned => Dropped
        case _ => Open,
        s.sent)
  }

  /** The asynchronous session makes the same decisions as the demo's
      blocking loop, with the session's table answering: same responses,
      same ending. */
  lemma {:induction false} DriveIsDemoLoop(s: Session, invoke: HT.Invoke, rounds: seq<Round>)
    requires s.phase == Reading
    ensures Outcome(Drive(s, invoke, rounds)).finish == DS.DemoSession(HT.Responder(s.handlers, invoke), rounds).finish
    ensures Drive(s, invoke, rounds).sent == s.sent + DS.DemoSession(HT.Responder(s.handlers, invoke), rounds).sent
    decreases |rounds|
  {
    var respond := HT.Responder(s.handlers, invoke);
    if |rounds| > 0 && rounds[0].read.Received? {
      var req := rounds[0].read.request;
      var afterRead := HandleRead(s, invoke, rounds[0].read);
      var afterWrite := HandleWrite(afterRead, rounds[0].writeFailed);
      assert afterRead.sent == s.sent + [respond(req)];
      if afterWrite.phase == Reading {
        assert Drive(s, invoke, rounds) == Drive(afterWrite, invoke, rounds[1..]);
        DriveIsDemoLoop(afterWrite, invoke, rounds[1..]);
        var rest := DS.DemoSession(respond, rounds[1..]);
        assert DS.DemoSession(respond, rounds) == Run(rest.finish, [respond(req)] + rest.sent);
      } else {
        assert Drive(s, invoke, rounds) == afterWrite;
      }
    }
  }

  /** Unlike the demo, the server's own blocking loop keeps reading after a
      response that asks to close the connection; the session stops. */
  lemma SessionHonoursCloseServerLoopDoesNot(t: HT.Table, invoke: HT.Invoke, req1: Request, req2: Request)
    requires NeedEof(HT.Dispatch(t, invoke, req1))
    ensures var rounds := [Round(false, Received(req1), false), Round(false, Received(req2), false)];
      && |Drive(RunSession(NewSession(t)), invoke, rounds).sent| == 1
      && Drive(RunSession(NewSession(t)), invoke, rounds).phase == ShutDown
      && |HS.ServerSession(t, invoke, rounds).sent| == 2
  {
    HS.ServerSessionIgnoresClose(t, invoke, req1, req2);
  }

  /** A session answers with the table it was made with: a handler the
      server registers afterwards is not seen by it. */
  lemma SnapshotIgnoresLaterRegistrations(server: HS.Server, invoke: HT.Invoke, req: Request, h: HT.HandlerId)
    requires HT.Lookup(server.handlers, req.target, req.verb).None?
    ensures var session := RunSession(NewSession(server.handlers));
      var later := HS.AddRequestHandler(server, req.target, req.verb, h);
      && HandleRead(session, invoke, Received(req)).sent == [HT.NotFoundResponse(req)]
      && HT.Dispatch(later.handlers, invoke, req) == invoke(h, req)
  {
  }
}
