/** `MakeResponse` and the four status helpers: a response to a request with
    a given status, content type, encoding and text body. */
module ResponseBuilder {
  import opened Wrappers
  import opened HttpMessage

  /** The message `prepare_payload` raises when a status that forbids a body
      is given one. */
  const InvalidBodyText := "invalid response body"

  /** `MakeResponse`. The status and version come from the arguments and the
      request; Server, Content-Type and Content-Encoding are set;
      keep-alive mirrors the request; the body is `data`. `prepare_payload`
      then sets Content-Length to the body's length, except for a status
      that forbids a body, where an empty body leaves no Content-Length and
      a non-empty one is refused. */
  function MakeResponse(req: Request, status: nat, contentType: string, encoding: string, data: string)
    : (r: Result<Response, string>)
    ensures r.Failure? <==> IsBodylessStatus(status) && data != ""
    ensures r.Failure? ==> r.error == InvalidBodyText
    ensures r.Success? ==>
      && r.value.status == status
      && r.value.version == req.version
      && r.value.server == Some(BeastVersion)
      && r.value.contentType == Some(contentType)
      && r.value.contentEncoding == Some(encoding)
      && r.value.keepAlive == req.keepAlive
      && r.value.body == TextBody(data)
    ensures r.Success? ==> (r.value.contentLength.Some? <==> !IsBodylessStatus(status))
    ensures r.Success? && r.value.contentLength.Some? ==> r.value.contentLength.value == |data|
  {
    var headers := Response(status, req.version, Some(BeastVersion), Some(contentType), Some(encoding),
                            req.keepAlive, None, TextBody(data));
    if IsBodylessStatus(status) then
      if data == "" then Success(headers) else Failure(InvalidBodyText)
    else
      Success(headers.(contentLength := Some(|data|)))
  }

  /** A response built for a status that allows a body always comes out. */
  lemma MakeResponseTotal(req: Request, status: nat, contentType: string, encoding: string, data: string)
    requires !IsBodylessStatus(status)
    ensures MakeResponse(req, status, contentType, encoding, data).Success?
  {
  }

  /** Every response `MakeResponse` builds closes the connection after it
      exactly when the request did not ask to keep it alive. */
  lemma MakeResponseClosesIffNotKeepAlive(req: Request, status: nat, contentType: string, encoding: string, data: string)
    requires MakeResponse(req, status, contentType, encoding, data).Success?
    ensures NeedEof(MakeResponse(req, status, contentType, encoding, data).value) == !req.keepAlive
  {
  }

  /** `MakeResponse` with a status whose responses may carry a body. */
  function Build(req: Request, status: nat, contentType: string, encoding: string, data: string): (res: Response)
    requires !IsBodylessStatus(status)
    ensures MakeResponse(req, status, contentType, encoding, data) == Success(res)
  {
    MakeResponse(req, status, contentType, encoding, data).value
  }

  /** `MakeResponseForNotFound`: status 404. */
  function NotFound(req: Request, contentType: string, encoding: string, data: string): (res: Response)
    ensures res.status == StatusNotFound
    ensures MakeResponse(req, StatusNotFound, contentType, encoding, data) == Success(res)
  {
    Build(req, StatusNotFound, contentType, encoding, data)
  }

  /** `MakeResponseForBadRequest`: status 400. */
  function BadRequest(req: Request, contentType: string, encoding: string, data: string): (res: Response)
    ensures res.status == StatusBadRequest
    ensures MakeResponse(req, StatusBadRequest, contentType, encoding, data) == Success(res)
  {
    Build(req, StatusBadRequest, contentType, encoding, data)
  }

  /** `MakeResponseForNotAllowed`: status 405. */
  function NotAllowed(req: Request, contentType: string, encoding: string, data: string): (res: Response)
    ensures res.status == StatusMethodNotAllowed
    ensures MakeResponse(req, StatusMethodNotAllowed, contentType, encoding, data) == Success(res)
  {
    Build(req, StatusMethodNotAllowed, contentType, encoding, data)
  }

  /** `MakeResponseForServerError`: status 500. */
  function ServerError(req: Request, contentType: string, encoding: string, data: string): (res: Response)
    ensures res.status == StatusServerError
    ensures MakeResponse(req, StatusServerError, contentType, encoding, data) == Success(res)
  {
    Build(req, StatusServerError, contentType, encoding, data)
  }

  /** The four helpers build the same response apart from the status. */
  lemma HelpersDifferOnlyInStatus(req: Request, contentType: string, encoding: string, data: string)
    ensures var nf := NotFound(req, contentType, encoding, data);
      && BadRequest(req, contentType, encoding, data) == nf.(status := StatusBadRequest)
      && NotAllowed(req, contentType, encoding, data) == nf.(status := StatusMethodNotAllowed)
      && ServerError(req, contentType, encoding, data) == nf.(status := StatusServerError)
  {
  }
}
