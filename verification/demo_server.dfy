/** The static-file server of the HTTP demo: the MIME type of a file by its
    extension, joining the document root and the request target, the
    response `handle_request` gives, and the per-connection loop
    `do_session`. Opening a file is a parameter: `open` says what opening a
    path gives. */
module DemoServer {
  import opened Wrappers
  import opened Text
  import opened HttpMessage

  // ---------------------------------------------------------------------------
  // mime_type

  const DefaultMimeType := "application/text"

  /** The extensions `mime_type` knows, in the order it tries them. */
  const MimeTable: seq<(string, string)> := [
    (".htm", "text/html"), (".html", "text/html"), (".php", "text/html"),
    (".css", "text/css"), (".txt", "text/plain"), (".js", "application/javascript"),
    (".json", "application/json"), (".xml", "application/xml"),
    (".swf", "application/x-shockware-flash"), (".flv", "video/x-flv"),
    (".png", "image/png"), (".jpe", "image/jpeg"), (".jpeg", "image/jpeg"),
    (".jpg", "image/jpeg"), (".gif", "image/gif"), (".bmp", "image/bmp"),
    (".ico", "image/vnd.microsoft.icon"), (".tiff", "image/tiff"), (".tif", "image/tiff"),
    (".svg", "image/svg+xml"), (".svgz", "image/svg+xml")]

  /** The extension of `path`: everything from its last '.' on, or nothing
      when it has no '.'. */
  function Extension(path: string): (ext: string)
    ensures |ext| <= |path| && path[|path| - |ext|..] == ext
    ensures ext == "" <==> forall i :: 0 <= i < |path| ==> path[i] != '.'
    ensures ext != "" ==> ext[0] == '.' && forall i :: 1 <= i < |ext| ==> ext[i] != '.'
  {
    match LastIndexOf(path, '.')
    case None => ""
    case Some(k) => path[k..]
  }

  /** Entry `i` is the first whose extension equals `ext` ignoring case. */
  predicate FirstMatch(table: seq<(string, string)>, ext: string, i: int) {
    && 0 <= i < |table| && IEquals(table[i].0, ext)
    && forall j :: 0 <= j < i ==> !IEquals(table[j].0, ext)
  }

  /** The type of the first entry whose extension equals `ext` ignoring
      case, or the default. */
  function LookupMime(table: seq<(string, string)>, ext: string): (r: string)
    ensures (forall i :: 0 <= i < |table| ==> !IEquals(table[i].0, ext)) ==> r == DefaultMimeType
    ensures r != DefaultMimeType ==> exists i :: 0 <= i < |table| && IEquals(table[i].0, ext) && table[i].1 == r
    ensures forall i :: FirstMatch(table, ext, i) ==> r == table[i].1
    decreases |table|
  {
    if |table| == 0 then DefaultMimeType
    else if IEquals(table[0].0, ext) then table[0].1
    else LookupMime(table[1..], ext)
  }

  /** `mime_type`: the table lookup of the path's extension. A path whose
      extension matches a table entry ignoring case gets the first such
      entry's type; any other path gets the default. */
  function MimeType(path: string): (r: string)
    ensures (forall i :: 0 <= i < |MimeTable| ==> !IEquals(MimeTable[i].0, Extension(path))) ==> r == DefaultMimeType
    ensures r != DefaultMimeType ==>
      exists i :: 0 <= i < |MimeTable| && IEquals(MimeTable[i].0, Extension(path)) && MimeTable[i].1 == r
    ensures forall i :: FirstMatch(MimeTable, Extension(path), i) ==> r == MimeTable[i].1
  {
    LookupMime(MimeTable, Extension(path))
  }

  /** The lookup only sees the extension's lower-case form. */
  lemma {:induction false} LookupMimeIgnoresCase(table: seq<(string, string)>, a: string, b: string)
    requires IEquals(a, b)
    ensures LookupMime(table, a) == LookupMime(table, b)
    decreases |table|
  {
    if |table| > 0 && !IEquals(table[0].0, a) {
      LookupMimeIgnoresCase(table[1..], a, b);
    }
  }

  /** Paths whose extensions differ only in letter case get the same type. */
  lemma MimeTypeIgnoresCase(p: string, q: string)
    requires IEquals(Extension(p), Extension(q))
    ensures MimeType(p) == MimeType(q)
  {
    LookupMimeIgnoresCase(MimeTable, Extension(p), Extension(q));
  }

  /** The extension starts at a '.' with no '.' after it. */
  lemma ExtensionAt(path: string, k: nat)
    requires k < |path| && path[k] == '.'
    requires forall i :: k < i < |path| ==> path[i] != '.'
    ensures Extension(path) == path[k..]
  {
  }

  /** A path ending in a dot-led suffix without another '.' has that
      suffix as its extension. */
  lemma ExtensionOfSuffix(stem: string, ext: string)
    requires ext != [] && ext[0] == '.' && forall i :: 1 <= i < |ext| ==> ext[i] != '.'
    ensures Extension(stem + ext) == ext
  {
    ExtensionAt(stem + ext, |stem|);
    assert (stem + ext)[|stem|..] == ext;
  }

  /** Entry 1 of the table is ".html", which both spellings match. */
  lemma HtmlListed()
    ensures MimeTable[1].1 == "text/html"
    ensures IEquals(".HTML", MimeTable[1].0) && IEquals(".html", MimeTable[1].0)
  {
  }

  /** Any file named with ".HTML" or ".html" is HTML. */
  lemma HtmlInEitherCase(stem: string)
    ensures MimeType(stem + ".HTML") == "text/html" && MimeType(stem + ".html") == "text/html"
  {
    ExtensionOfSuffix(stem, ".HTML");
    ExtensionOfSuffix(stem, ".html");
    HtmlListed();
    MimeTypeOfListedExtension(stem + ".HTML", 1);
    MimeTypeOfListedExtension(stem + ".html", 1);
  }

  /** A path without a '.' has no extension and gets the default type. */
  lemma NoDotIsDefault(path: string)
    requires forall i :: 0 <= i < |path| ==> path[i] != '.'
    ensures MimeType(path) == DefaultMimeType
  {
    assert Extension(path) == "";
    forall i | 0 <= i < |MimeTable|
      ensures !IEquals(MimeTable[i].0, "")
    {
      assert |ToLower(MimeTable[i].0)| > 0;
    }
  }

  /** The table's extensions are written in lower case. */
  lemma MimeTableLowerCase()
    ensures forall i :: 0 <= i < |MimeTable| ==> NoUpperAscii(MimeTable[i].0)
  {
  }

  /** No extension is listed twice. */
  lemma MimeTableDistinct()
    ensures forall i, j :: 0 <= i < j < |MimeTable| ==> MimeTable[i].0 != MimeTable[j].0
  {
  }

  /** A path whose extension is listed, in any letter case, gets that
      entry's type: no earlier entry can match as well. */
  lemma MimeTypeOfListedExtension(path: string, i: nat)
    requires i < |MimeTable| && IEquals(Extension(path), MimeTable[i].0)
    ensures MimeType(path) == MimeTable[i].1
  {
    var ext := Extension(path);
    MimeTableLowerCase();
    MimeTableDistinct();
    ToLowerOfNoUpper(MimeTable[i].0);
    forall j | 0 <= j < i
      ensures !IEquals(MimeTable[j].0, ext)
    {
      ToLowerOfNoUpper(MimeTable[j].0);
    }
    assert FirstMatch(MimeTable, ext, i);
  }

  // ---------------------------------------------------------------------------
  // path_cat

  /** The document root without one trailing '/'. */
  function RootPrefix(base: string): (r: string)
    ensures EndsWith(base, '/') ==> base == r + "/"
    ensures !EndsWith(base, '/') ==> r == base
  {
    if EndsWith(base, '/') then base[..|base| - 1] else base
  }

  /** `path_cat` on POSIX: an empty base gives the path as it is; otherwise
      one trailing '/' of the base is dropped and the path appended. */
  function PathCat(base: string, path: string): (r: string)
    ensures base == "" ==> r == path
    ensures base != "" ==> r == RootPrefix(base) + path
    ensures |path| <= |r| && r[|r| - |path|..] == path
  {
    if base == "" then path else RootPrefix(base) + path
  }

  // ---------------------------------------------------------------------------
  // handle_request

  /** `find("..") != npos`: two dots in a row somewhere in `s`. */
  predicate HasDotDot(s: string) {
    exists i :: 0 <= i < |s| - 1 && s[i] == '.' && s[i + 1] == '.'
  }

  /** A request target the server serves: not empty, starting with '/',
      with no "..". */
  predicate LegalTarget(target: string) {
    target != "" && target[0] == '/' && !HasDotDot(target)
  }

  predicate ServedMethod(verb: Verb) {
    verb == Get || verb == Head
  }

  /** The file a request asks for, when it gets as far as opening one: the
      target under the document root, with "index.html" added to a target
      naming a directory. */
  function RequestedPath(docRoot: string, req: Request): (r: Option<string>)
    ensures r.Some? <==> ServedMethod(req.verb) && LegalTarget(req.target)
  {
    if !ServedMethod(req.verb) || !LegalTarget(req.target) then None
    else Some(PathCat(docRoot, req.target) + (if EndsWith(req.target, '/') then "index.html" else ""))
  }

  /** The file opened lies under the document root: its path is the root
      (less one trailing '/'), then the target, which starts with '/' and has
      no "..", then "index.html" exactly when the target ends in '/'. */
  lemma RequestedPathUnderRoot(docRoot: string, req: Request)
    requires RequestedPath(docRoot, req).Some?
    ensures var p := RequestedPath(docRoot, req).value;
      var root := if docRoot == "" then "" else RootPrefix(docRoot);
      && |root| < |p| && p[..|root|] == root && p[|root|] == '/' && !HasDotDot(p[|root|..])
      && p[|root|..] == req.target + (if EndsWith(req.target, '/') then "index.html" else "")
  {
    var t := req.target;
    var suffix := if EndsWith(t, '/') then "index.html" else "";
    var root := if docRoot == "" then "" else RootPrefix(docRoot);
    var p := RequestedPath(docRoot, req).value;
    assert p == root + (t + suffix);
    SlashPartAfterRoot(root, t, suffix);
  }

  /** A root followed by a legal target and a suffix: the root, then '/',
      then exactly target and suffix, with no "..". */
  lemma SlashPartAfterRoot(root: string, t: string, suffix: string)
    requires LegalTarget(t)
    requires suffix == "" || (suffix == "index.html" && EndsWith(t, '/'))
    ensures var p := root + (t + suffix);
      && |root| < |p| && p[..|root|] == root && p[|root|] == '/'
      && p[|root|..] == t + suffix && !HasDotDot(p[|root|..])
  {
    var p := root + (t + suffix);
    assert p[|root|..] == t + suffix;
    assert p[|root|] == t[0];
    NoDotDotAfterSlash(t, suffix);
  }

  /** Appending "index.html" after a '/' introduces no "..". */
  lemma NoDotDotAfterSlash(t: string, suffix: string)
    requires !HasDotDot(t) && t != []
    requires suffix == "" || (suffix == "index.html" && EndsWith(t, '/'))
    ensures !HasDotDot(t + suffix)
  {
    var s := t + suffix;
    forall i | 0 <= i < |s| - 1
      ensures !(s[i] == '.' && s[i + 1] == '.')
    {
      if i + 1 < |t| {
        assert s[i] == t[i] && s[i + 1] == t[i + 1];
      } else if i + 1 == |t| {
        assert s[i] == t[|t| - 1] == '/';
      } else {
        assert s[i] == suffix[i - |t|] && s[i + 1] == suffix[i + 1 - |t|];
      }
    }
  }

  /** What opening a file gives: no such file, another error (with its
      message), or an open file of the given size. */
  datatype FileOpen = NoSuchFile | OpenFailed(message: string) | Opened(size: nat)

  /** The error responses of `handle_request`: the status, HTML text, the
      request's version and keep-alive, a length set from the text. */
  function TextResponse(req: Request, status: nat, text: string): (res: Response)
    ensures res.status == status && res.body == TextBody(text) && res.contentLength == Some(|text|)
    ensures res.contentType == Some("text/html") && res.contentEncoding.None?
    ensures res.keepAlive == req.keepAlive && res.version == req.version && res.server == Some(BeastVersion)
  {
    Response(status, req.version, Some(BeastVersion), Some("text/html"), None, req.keepAlive, Some(|text|), TextBody(text))
  }

  const UnknownMethodText := "Unknown HTTP-method"
  const IllegalTargetText := "Illegal request-target"

  function NotFoundText(target: string): string {
    "The resource '" + target + "' was not found."
  }

  function ServerErrorText(what: string): string {
    "An error occurred: '" + what + "'"
  }

  /** `handle_request`. */
  function HandleRequest(docRoot: string, req: Request, open: string -> FileOpen): (res: Response)
    ensures res.keepAlive == req.keepAlive && res.version == req.version && res.server == Some(BeastVersion)
    ensures res.contentLength.Some?
    ensures !ServedMethod(req.verb) ==> res == TextResponse(req, StatusBadRequest, UnknownMethodText)
    ensures ServedMethod(req.verb) && !LegalTarget(req.target) ==>
      res == TextResponse(req, StatusBadRequest, IllegalTargetText)
    ensures res.status == StatusBadRequest <==> RequestedPath(docRoot, req).None?
    ensures RequestedPath(docRoot, req).Some? ==>
      var path := RequestedPath(docRoot, req).value;
      match open(path)
      case NoSuchFile => res == TextResponse(req, StatusNotFound, NotFoundText(req.target))
      case OpenFailed(msg) => res == TextResponse(req, StatusServerError, ServerErrorText(msg))
      case Opened(size) =>
        && res.status == StatusOk
        && res.contentType == Some(MimeType(path))
        && res.contentLength == Some(size)
        && res.body == (if req.verb == Head then NoBody else FileBody(path, size))
  {
    if !ServedMethod(req.verb) then TextResponse(req, StatusBadRequest, UnknownMethodText)
    else if !LegalTarget(req.target) then TextResponse(req, StatusBadRequest, IllegalTargetText)
    else
      var path := RequestedPath(docRoot, req).value;
      match open(path)
      case NoSuchFile => TextResponse(req, StatusNotFound, NotFoundText(req.target))
      case OpenFailed(msg) => TextResponse(req, StatusServerError, ServerErrorText(msg))
      case Opened(size) =>
        var body := if req.verb == Head then NoBody else FileBody(path, size);
        Response(StatusOk, req.version, Some(BeastVersion), Some(MimeType(path)), None, req.keepAlive, Some(size), body)
  }

  /** Every response of the demo has a length, so the connection is closed
      after it exactly when the request did not ask to keep it alive. */
  lemma HandleRequestClosesIffNotKeepAlive(docRoot: string, req: Request, open: string -> FileOpen)
    ensures NeedEof(HandleRequest(docRoot, req, open)) == !req.keepAlive
  {
  }

  // ---------------------------------------------------------------------------
  // do_session

  /** `do_session` with `respond` answering each request: the end of the
      stream or a response that needs the connection closed ends the loop
      with a shutdown; a failed read or a failed write returns without
      one. */
  function DemoSession(respond: Request -> Response, rounds: seq<Round>): (r: Run)
    ensures |r.sent| <= |rounds|
    ensures forall k :: 0 <= k < |r.sent| ==>
      rounds[k].read.Received? && r.sent[k] == respond(rounds[k].read.request)
    ensures forall k :: 0 <= k < |r.sent| - 1 ==> !rounds[k].writeFailed && !NeedEof(r.sent[k])
    ensures r.finish == Open ==>
      (|r.sent| == |rounds|
       && (|rounds| == 0 || (!rounds[|rounds| - 1].writeFailed && !NeedEof(r.sent[|rounds| - 1]))))
    ensures r.finish == Dropped ==>
      (|r.sent| < |rounds| && rounds[|r.sent|].read == ReadFailed)
      || (|r.sent| > 0 && rounds[|r.sent| - 1].writeFailed)
    ensures r.finish == Shutdown ==>
      (|r.sent| < |rounds| && rounds[|r.sent|].read == EndOfStream)
      || (|r.sent| > 0 && !rounds[|r.sent| - 1].writeFailed && NeedEof(r.sent[|r.sent| - 1]))
    decreases |rounds|
  {
    if |rounds| == 0 then Run(Open, [])
    else
      match rounds[0].read
      case EndOfStream => Run(Shutdown, [])
      case ReadFailed => Run(Dropped, [])
      case Received(req) =>
        var res := respond(req);
        if rounds[0].writeFailed then Run(Dropped, [res])
        else if NeedEof(res) then Run(Shutdown, [res])
        else
          var rest := DemoSession(respond, rounds[1..]);
          Run(rest.finish, [res] + rest.sent)
  }

  /** A request that does not ask to keep the connection alive is the last
      one the demo answers on it. */
  lemma DemoStopsAfterClose(docRoot: string, open: string -> FileOpen, req: Request, rounds: seq<Round>)
    requires !req.keepAlive
    ensures DemoSession(r => HandleRequest(docRoot, r, open), [Round(false, Received(req), false)] + rounds)
         == Run(Shutdown, [HandleRequest(docRoot, req, open)])
  {
    HandleRequestClosesIffNotKeepAlive(docRoot, req, open);
  }
}
