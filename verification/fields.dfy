/**
  The fields of the access-log record: seven fixed fields read from the
  request and response, and the request_id field on its fallback path.
  Values echo computes (the client's real IP, the user agent, header lookups)
  and the formatted elapsed time arrive as plain strings, "" meaning absent.
 */
module Fields {
  import opened Wrappers
  import opened Zap

  /** What the middleware reads from the request. */
  datatype Request = Request(
    realIP: string,
    host: string,
    httpMethod: string,
    requestURI: string,
    userAgent: string,
    requestIdHeader: string)

  /** What the middleware reads from the response once the handler has run. */
  datatype Response = Response(status: int, size: int, requestIdHeader: string)

  const FixedKeys: seq<string> := ["remote_ip", "time", "host", "request", "status", "size", "user_agent"]
  const RequestIdKey: string := "request_id"

  /** The "%s %s" rendering of method and request URI. */
  function RequestLine(httpMethod: string, requestURI: string): string
  {
    httpMethod + " " + requestURI
  }

  function FixedFields(req: Request, res: Response, elapsed: string): seq<Field>
  {
    [ String("remote_ip", req.realIP),
      String("time", elapsed),
      String("host", req.host),
      String("request", RequestLine(req.httpMethod, req.requestURI)),
      Int("status", res.status),
      Int("size", res.size),
      String("user_agent", req.userAgent) ]
  }

  /** The call-site fields of the record: request_id is appended, with the
      response header's value, exactly when the request header is empty. */
  function BuildFields(req: Request, res: Response, elapsed: string): seq<Field>
  {
    var fixed := FixedFields(req, res, elapsed);
    if req.requestIdHeader == "" then fixed + [String(RequestIdKey, res.requestIdHeader)]
    else fixed
  }

  /** The shape of the record: the seven fixed keys in order, then request_id
      exactly on the fallback path; no key appears twice. */
  lemma BuildFieldsShape(req: Request, res: Response, elapsed: string)
    ensures var r := BuildFields(req, res, elapsed);
      && |r| == (if req.requestIdHeader == "" then 8 else 7)
      && KeysOf(r) == FixedKeys + (if req.requestIdHeader == "" then [RequestIdKey] else [])
      && r[..7] == FixedFields(req, res, elapsed)
      && DistinctKeys(r)
  {
  }

  /** Reading the record back gives each input verbatim under its key. */
  lemma BuildFieldsReadBack(req: Request, res: Response, elapsed: string)
    ensures var r := BuildFields(req, res, elapsed);
      && ValueOf(r, "remote_ip") == Some(StringValue(req.realIP))
      && ValueOf(r, "time") == Some(StringValue(elapsed))
      && ValueOf(r, "host") == Some(StringValue(req.host))
      && ValueOf(r, "request") == Some(StringValue(req.httpMethod + " " + req.requestURI))
      && ValueOf(r, "status") == Some(IntValue(res.status))
      && ValueOf(r, "size") == Some(IntValue(res.size))
      && ValueOf(r, "user_agent") == Some(StringValue(req.userAgent))
  {
    var r := BuildFields(req, res, elapsed);
    BuildFieldsShape(req, res, elapsed);
    ValueOfDistinct(r, 0);
    ValueOfDistinct(r, 1);
    ValueOfDistinct(r, 2);
    ValueOfDistinct(r, 3);
    ValueOfDistinct(r, 4);
    ValueOfDistinct(r, 5);
    ValueOfDistinct(r, 6);
  }

  /** The request_id is found in the record exactly on the fallback path,
      carrying the response header's value; no call-site field is an error. */
  lemma RequestIdReadBack(req: Request, res: Response, elapsed: string)
    ensures var r := BuildFields(req, res, elapsed);
      && ValueOf(r, RequestIdKey)
         == (if req.requestIdHeader == "" then Some(StringValue(res.requestIdHeader)) else None)
      && ValueOf(r, "error") == None
  {
    var r := BuildFields(req, res, elapsed);
    BuildFieldsShape(req, res, elapsed);
    assert "error" !in FixedKeys && "error" != RequestIdKey && RequestIdKey !in FixedKeys;
    if req.requestIdHeader == "" {
      ValueOfDistinct(r, 7);
    }
  }

  /** The request header's id, though looked up, never reaches the record. */
  lemma RequestIdDroppedWhenOnRequest(req: Request, res: Response, elapsed: string)
    requires req.requestIdHeader != ""
    ensures ValueOf(BuildFields(req, res, elapsed), RequestIdKey) == None
    ensures |BuildFields(req, res, elapsed)| == 7
  {
    RequestIdReadBack(req, res, elapsed);
    BuildFieldsShape(req, res, elapsed);
  }
}
