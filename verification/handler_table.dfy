/** The table of request handlers (`Handlers`, a multimap from URI to a
    method and a handler), the insert-or-replace rule of
    `AddRequestHandler`, and the exact-match lookup shared by the server's
    `Dispatch` and the session's `Dispatcher`.

    The table is the sequence of its entries in insertion order; only the
    relative order of entries with the same URI matters to the code, and
    the sequence keeps it. Handlers are opaque: an id, and a function
    `invoke` that says what the handler with a given id answers. */
module HandlerTable {
  import opened Wrappers
  import opened HttpMessage
  import RB = ResponseBuilder

  type HandlerId = nat

  datatype Entry = Entry(uri: string, verb: Verb, handler: HandlerId)

  type Table = seq<Entry>

  /** What a handler answers to a request. */
  type Invoke = (HandlerId, Request) -> Response

  predicate Matches(e: Entry, uri: string, verb: Verb) {
    e.uri == uri && e.verb == verb
  }

  /** The position of the last entry for `uri` and `verb`: the loops over
      `equal_range(uri)` keep overwriting their pick, so the last one wins. */
  function FindLast(t: Table, uri: string, verb: Verb): (r: Option<nat>)
    ensures r.None? <==> forall i :: 0 <= i < |t| ==> !Matches(t[i], uri, verb)
    ensures r.Some? ==> r.value < |t| && Matches(t[r.value], uri, verb)
    ensures r.Some? ==> forall i :: r.value < i < |t| ==> !Matches(t[i], uri, verb)
    decreases |t|
  {
    if |t| == 0 then None
    else if Matches(t[|t| - 1], uri, verb) then Some(|t| - 1)
    else FindLast(t[..|t| - 1], uri, verb)
  }

  /** The handler that answers `uri` and `verb`, if any. */
  function Lookup(t: Table, uri: string, verb: Verb): (r: Option<HandlerId>)
    ensures r.None? <==> forall i :: 0 <= i < |t| ==> !Matches(t[i], uri, verb)
    ensures r.Some? ==> exists i :: 0 <= i < |t| && t[i] == Entry(uri, verb, r.value)
  {
    match FindLast(t, uri, verb)
    case None => None
    case Some(i) => Some(t[i].handler)
  }

  /** `AddRequestHandler`: when an entry for `uri` and `verb` exists its
      handler is replaced (the last such entry, should there be several);
      otherwise one entry is added. */
  function Add(t: Table, uri: string, verb: Verb, h: HandlerId): (r: Table)
    ensures Lookup(t, uri, verb).Some? ==> |r| == |t|
    ensures Lookup(t, uri, verb).None? ==> |r| == |t| + 1 && r[|t|] == Entry(uri, verb, h)
    ensures forall i :: 0 <= i < |t| && !Matches(t[i], uri, verb) ==> r[i] == t[i]
    ensures forall i :: 0 <= i < |t| ==> r[i].uri == t[i].uri && r[i].verb == t[i].verb
    ensures Lookup(r, uri, verb) == Some(h)
  {
    match FindLast(t, uri, verb)
    case Some(i) =>
      var r := t[i := t[i].(handler := h)];
      assert FindLast(r, uri, verb) == Some(i) by {
        FindLastUnchangedKeys(t, r, uri, verb);
      }
      r
    case None =>
      var r := t + [Entry(uri, verb, h)];
      r
  }

  /** `FindLast` only looks at the URIs and methods of the entries. */
  lemma {:induction false} FindLastUnchangedKeys(t: Table, u: Table, uri: string, verb: Verb)
    requires |t| == |u|
    requires forall i :: 0 <= i < |t| ==> t[i].uri == u[i].uri && t[i].verb == u[i].verb
    ensures FindLast(t, uri, verb) == FindLast(u, uri, verb)
    decreases |t|
  {
    if |t| > 0 && !Matches(t[|t| - 1], uri, verb) {
      FindLastUnchangedKeys(t[..|t| - 1], u[..|u| - 1], uri, verb);
    }
  }

  /** Registering a handler changes no answer for any other URI or method. */
  lemma AddFrame(t: Table, uri: string, verb: Verb, h: HandlerId, uri': string, verb': Verb)
    requires uri' != uri || verb' != verb
    ensures Lookup(Add(t, uri, verb, h), uri', verb') == Lookup(t, uri', verb')
  {
    var r := Add(t, uri, verb, h);
    if |r| == |t| {
      FindLastUnchangedKeys(t, r, uri', verb');
      match FindLast(t, uri', verb')
      case None =>
      case Some(k) => assert r[k] == t[k];
    } else {
      assert r[..|r| - 1] == t;
      assert FindLast(r, uri', verb') == FindLast(t, uri', verb');
    }
  }

  /** At most one entry per URI and method. */
  predicate Unique(t: Table) {
    forall i, j :: 0 <= i < j < |t| ==> !Matches(t[j], t[i].uri, t[i].verb)
  }

  /** Registration keeps the table free of duplicates. */
  lemma AddKeepsUnique(t: Table, uri: string, verb: Verb, h: HandlerId)
    requires Unique(t)
    ensures Unique(Add(t, uri, verb, h))
  {
  }

  /** The table read as a map: later entries override earlier ones. */
  function AsMap(t: Table): map<(string, Verb), HandlerId>
    decreases |t|
  {
    if |t| == 0 then map[]
    else AsMap(t[..|t| - 1])[(t[|t| - 1].uri, t[|t| - 1].verb) := t[|t| - 1].handler]
  }

  /** Looking a handler up agrees with reading the table as a map. */
  lemma {:induction false} LookupIsAsMap(t: Table, uri: string, verb: Verb)
    ensures Lookup(t, uri, verb) == (if (uri, verb) in AsMap(t) then Some(AsMap(t)[(uri, verb)]) else None)
    decreases |t|
  {
    if |t| > 0 {
      var p := t[..|t| - 1];
      LookupIsAsMap(p, uri, verb);
      if !Matches(t[|t| - 1], uri, verb) {
        assert FindLast(t, uri, verb) == FindLast(p, uri, verb);
        match FindLast(p, uri, verb)
        case None =>
        case Some(i) => assert t[i] == p[i];
      }
    }
  }

  /** Registering a handler is a map update of the table read as a map. */
  lemma AddIsMapUpdate(t: Table, uri: string, verb: Verb, h: HandlerId)
    ensures AsMap(Add(t, uri, verb, h)) == AsMap(t)[(uri, verb) := h]
  {
    var r := Add(t, uri, verb, h);
    var m := AsMap(t)[(uri, verb) := h];
    forall k | true
      ensures k in AsMap(r) <==> k in m
      ensures k in m ==> AsMap(r)[k] == m[k]
    {
      LookupIsAsMap(r, k.0, k.1);
      LookupIsAsMap(t, k.0, k.1);
      if k != (uri, verb) {
        AddFrame(t, uri, verb, h, k.0, k.1);
      }
    }
  }

  /** The table after registering `regs` one after the other on an empty
      table. */
  function Build(regs: seq<Entry>): (t: Table)
    ensures Unique(t)
    decreases |regs|
  {
    if |regs| == 0 then []
    else
      var last := regs[|regs| - 1];
      var p := Build(regs[..|regs| - 1]);
      AddKeepsUnique(p, last.uri, last.verb, last.handler);
      Add(p, last.uri, last.verb, last.handler)
  }

  /** A last entry for another URI or method changes no answer. */
  lemma LookupDropLast(t: Table, uri: string, verb: Verb)
    requires |t| > 0 && !Matches(t[|t| - 1], uri, verb)
    ensures Lookup(t, uri, verb) == Lookup(t[..|t| - 1], uri, verb)
  {
    var p := t[..|t| - 1];
    assert FindLast(t, uri, verb) == FindLast(p, uri, verb);
    match FindLast(p, uri, verb)
    case None =>
    case Some(i) => assert t[i] == p[i];
  }

  /** A built table answers each URI and method with the handler registered
      last for them. */
  lemma {:induction false} BuildAnswersLastRegistration(regs: seq<Entry>, uri: string, verb: Verb)
    ensures Lookup(Build(regs), uri, verb) == Lookup(regs, uri, verb)
    decreases |regs|
  {
    if |regs| > 0 {
      var last := regs[|regs| - 1];
      var p := regs[..|regs| - 1];
      var bp := Build(p);
      assert Build(regs) == Add(bp, last.uri, last.verb, last.handler);
      if Matches(last, uri, verb) {
        assert FindLast(regs, uri, verb) == Some(|regs| - 1);
      } else {
        BuildAnswersLastRegistration(p, uri, verb);
        AddFrame(bp, last.uri, last.verb, last.handler, uri, verb);
        LookupDropLast(regs, uri, verb);
      }
    }
  }

  // ---------------------------------------------------------------------------
  // Dispatch

  /** The response to a request no handler answers. */
  function NotFoundResponse(req: Request): (res: Response)
    ensures res.status == StatusNotFound && res.keepAlive == req.keepAlive
    ensures res.contentType == Some("application/json") && res.contentEncoding == Some("UTF-8")
    ensures res.body == TextBody("not found")
  {
    RB.NotFound(req, "application/json", "UTF-8", "not found")
  }

  /** `Dispatch` / `Dispatcher`: the handler registered for the request's
      exact target and method answers; without one the answer is the fixed
      404. */
  function Dispatch(t: Table, invoke: Invoke, req: Request): (res: Response)
    ensures Lookup(t, req.target, req.verb).Some? ==> res == invoke(Lookup(t, req.target, req.verb).value, req)
    ensures Lookup(t, req.target, req.verb).None? ==> res == NotFoundResponse(req)
  {
    match Lookup(t, req.target, req.verb)
    case Some(h) => invoke(h, req)
    case None => NotFoundResponse(req)
  }

  /** The table as a function from requests to responses. */
  function Responder(t: Table, invoke: Invoke): Request -> Response {
    req => Dispatch(t, invoke, req)
  }

  /** After registering `h` for a URI and method, a request for exactly that
      URI and method is answered by `h`. */
  lemma DispatchAfterAdd(t: Table, invoke: Invoke, req: Request, h: HandlerId)
    ensures Dispatch(Add(t, req.target, req.verb, h), invoke, req) == invoke(h, req)
  {
  }

  /** An empty `std::function` is a handler whose `invoke` answers the fixed
      404: `Dispatch` tests `if (handler)` and sends `NotFoundResponse`
      instead of calling it. Registering one replaces the route's earlier
      handler in place, so the route then answers 404. */
  lemma EmptyHandlerRouteIsNotFound(t: Table, invoke: Invoke, req: Request, h: HandlerId)
    requires invoke(h, req) == NotFoundResponse(req)
    requires Lookup(t, req.target, req.verb).Some?
    ensures Dispatch(Add(t, req.target, req.verb, h), invoke, req) == NotFoundResponse(req)
    ensures |Add(t, req.target, req.verb, h)| == |t|
  {
    DispatchAfterAdd(t, invoke, req, h);
  }

  /** A URI registered only for other methods does not help: the request
      gets the 404, never a 405. */
  lemma WrongMethodIsNotFound(t: Table, invoke: Invoke, req: Request)
    requires exists i :: 0 <= i < |t| && t[i].uri == req.target
    requires forall i :: 0 <= i < |t| ==> t[i].verb != req.verb
    ensures Dispatch(t, invoke, req).status == StatusNotFound
    ensures Dispatch(t, invoke, req).status != StatusMethodNotAllowed
  {
  }
}
