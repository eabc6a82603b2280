/** `HttpServer::Impl`: the flags `Start` and `Stop` manage, handler
    registration, and the decisions of the blocking per-connection loop
    `DoSession`. Threads are not modelled: the acceptor thread, the pool and
    the acceptor socket are reduced to whether they exist or run, and every
    operation is one sequential step. */
module HttpServer {
  import opened Wrappers
  import opened HttpMessage
  import HT = HandlerTable

  /** The server's state: `exit_`, `stopped_`, whether the acceptor socket
      and the acceptor thread exist, whether the thread pool still runs
      posted work, and the handler table. */
  datatype Server = Server(
    exit: bool,
    stopped: bool,
    acceptorOpen: bool,
    acceptorThread: bool,
    poolRunning: bool,
    handlers: HT.Table)

  /** A newly constructed server: no acceptor yet, a running pool, no
      handlers. */
  const Initial := Server(false, false, false, false, true, [])

  /** `Start`: clears `exit_` and launches the acceptor thread, which opens
      the acceptor when binding succeeds (`bindOk`). A failed bind is caught
      and logged inside the thread, so `Start` itself never fails. */
  function Start(s: Server, bindOk: bool): (r: Server)
    ensures !r.exit && r.acceptorThread
    ensures r.acceptorOpen == (bindOk || s.acceptorOpen)
    ensures r.stopped == s.stopped && r.poolRunning == s.poolRunning && r.handlers == s.handlers
  {
    s.(exit := false, acceptorThread := true, acceptorOpen := bindOk || s.acceptorOpen)
  }

  /** `Stop`: while `stopped_` is false, sets `exit_`, closes the acceptor,
      joins the acceptor thread, stops the pool and sets `stopped_`; once
      `stopped_` is set it does nothing. */
  function Stop(s: Server): (r: Server)
    ensures s.stopped ==> r == s
    ensures r.stopped && r.handlers == s.handlers
    ensures !s.stopped ==> r.exit && !r.acceptorOpen && !r.acceptorThread && !r.poolRunning
  {
    if s.stopped then s
    else s.(exit := true, acceptorOpen := false, acceptorThread := false, poolRunning := false, stopped := true)
  }

  /** `AddRequestHandler`: only the table changes. */
  function AddRequestHandler(s: Server, uri: string, verb: Verb, h: HT.HandlerId): (r: Server)
    ensures r.handlers == HT.Add(s.handlers, uri, verb, h)
    ensures r.(handlers := s.handlers) == s
  {
    s.(handlers := HT.Add(s.handlers, uri, verb, h))
  }

  /** A second `Stop` changes nothing. */
  lemma StopIdempotent(s: Server)
    ensures Stop(Stop(s)) == Stop(s)
  {
  }

  /** A stopped server's pool no longer runs. */
  predicate PoolStopsWithServer(s: Server) {
    s.stopped ==> !s.poolRunning
  }

  /** Every state a server reaches from construction keeps its pool stopped
      once the server is stopped: nothing but `Stop` touches the pool. */
  lemma PoolStopsWithServerInvariant(s: Server, bindOk: bool, uri: string, verb: Verb, h: HT.HandlerId)
    requires PoolStopsWithServer(s)
    ensures PoolStopsWithServer(Initial)
    ensures PoolStopsWithServer(Start(s, bindOk))
    ensures PoolStopsWithServer(Stop(s))
    ensures PoolStopsWithServer(AddRequestHandler(s, uri, verb, h))
  {
  }

  /** `Start` never clears `stopped_`: a server started again after `Stop`
      cannot be stopped any more, and its pool, stopped for good, runs none
      of the connections the new acceptor takes. */
  lemma RestartIsNeverStopped(s: Server, bindOk: bool)
    requires PoolStopsWithServer(s)
    ensures var r := Start(Stop(s), bindOk);
      && r.stopped && !r.exit && r.acceptorThread && !r.poolRunning
      && Stop(r) == r
  {
  }

  // ---------------------------------------------------------------------------
  // DoSession

  /** `DoSession`: while `exit_` is false, read a request; the end of the
      stream ends the loop with a shutdown, any other read error returns
      without one. Each request is dispatched and its response written. A
      failed write is only logged, and the close flag the sender sets is
      never read, so the loop goes on in both cases. */
  function ServerSession(t: HT.Table, invoke: HT.Invoke, rounds: seq<Round>): (r: Run)
    ensures |r.sent| <= |rounds|
    ensures forall k :: 0 <= k < |r.sent| ==>
      !rounds[k].exit && rounds[k].read.Received? && r.sent[k] == HT.Dispatch(t, invoke, rounds[k].read.request)
    ensures r.finish == Open <==> |r.sent| == |rounds|
    ensures r.finish == Shutdown ==> rounds[|r.sent|].exit || rounds[|r.sent|].read == EndOfStream
    ensures r.finish == Dropped ==> !rounds[|r.sent|].exit && rounds[|r.sent|].read == ReadFailed
    decreases |rounds|
  {
    if |rounds| == 0 then Run(Open, [])
    else if rounds[0].exit then Run(Shutdown, [])
    else
      match rounds[0].read
      case EndOfStream => Run(Shutdown, [])
      case ReadFailed => Run(Dropped, [])
      case Received(req) =>
        var rest := ServerSession(t, invoke, rounds[1..]);
        Run(rest.finish, [HT.Dispatch(t, invoke, req)] + rest.sent)
  }

  /** Rounds that differ at most in whether their writes failed. */
  predicate SameButWrites(a: seq<Round>, b: seq<Round>) {
    |a| == |b| && forall k :: 0 <= k < |a| ==> a[k].exit == b[k].exit && a[k].read == b[k].read
  }

  /** Write failures make no difference to the server's loop. */
  lemma {:induction false} ServerSessionIgnoresWrites(t: HT.Table, invoke: HT.Invoke, a: seq<Round>, b: seq<Round>)
    requires SameButWrites(a, b)
    ensures ServerSession(t, invoke, a) == ServerSession(t, invoke, b)
    decreases |a|
  {
    if |a| > 0 && !a[0].exit && a[0].read.Received? {
      ServerSessionIgnoresWrites(t, invoke, a[1..], b[1..]);
    }
  }

  /** A response that asks to close the connection does not end the loop:
      the next request on the same connection is still read and answered. */
  lemma ServerSessionIgnoresClose(t: HT.Table, invoke: HT.Invoke, req1: Request, req2: Request)
    requires NeedEof(HT.Dispatch(t, invoke, req1))
    ensures var rounds := [Round(false, Received(req1), false), Round(false, Received(req2), false)];
      ServerSession(t, invoke, rounds).sent
        == [HT.Dispatch(t, invoke, req1), HT.Dispatch(t, invoke, req2)]
  {
    var rounds := [Round(false, Received(req1), false), Round(false, Received(req2), false)];
    assert rounds[1..][1..] == [];
  }
}
