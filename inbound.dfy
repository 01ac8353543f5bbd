/** The `/webhook` handler, `incoming_webhook`: an origin check, a signature
    check over the raw body, then `process_data`. Raising and catching
    exceptions is modelled as `Outcome` values, so each `except` clause of the
    handler is a branch of `IncomingWebhook`. */
module Inbound {
  import opened Python
  import opened Signer

  /** The module-level `IPs` tuple. */
  const AllowedHosts: seq<string> := ["localhost", "127.0.0.1"]

  /** `verify_ip(ip)`. */
  function VerifyIp(ip: string): bool {
    ip in AllowedHosts
  }

  /** What the handler reads of a request: the client's host (absent when the
      server reports no client address), the `WebHook-Signature` header (absent
      when not sent) and the raw body. */
  datatype Request = Request(client: Option<string>, signatureHeader: Option<string>, body: Bytes)

  /** A JSON response `{"message": message}` with its status, or an exception
      that left the handler, which the server turns into a 500 response. */
  datatype Response = JsonMessage(status: int, message: string) | ServerError(exc: Exception)

  function StatusCode(r: Response): int {
    match r
    case JsonMessage(status, _) => status
    case ServerError(_) => 500
  }

  /** `json.loads` on bytes; the decoded value is only logged, so only whether
      and how it raised is kept. */
  type JsonLoads = Bytes -> Outcome<()>

  /** `request.client.host`. */
  function ClientHost(req: Request): Outcome<string> {
    match req.client
    case Some(host) => Return(host)
    case None => Raise(AttributeError)
  }

  /** `process_data(body)`: a ValueError of the parser is caught and logged. */
  function ProcessData(loads: JsonLoads, body: Bytes): (r: Outcome<()>)
    ensures r.Raise? ==> r.exc != ValueError
    ensures r.Raise? <==> Escapes(loads(body))
    ensures r.Raise? ==> r == loads(body)
  {
    match loads(body)
    case Return(_) => Return(())
    case Raise(e) => if e == ValueError then Return(()) else Raise(e)
  }

  /** The body of the handler's first `try`: the origin check, then the
      signature check, each raising ValueError when it fails. A missing
      header is read as "". */
  function CheckRequest(mac: Mac, req: Request): Outcome<()> {
    match ClientHost(req)
    case Raise(e) => Raise(e)
    case Return(host) =>
      if !VerifyIp(host) then Raise(ValueError)
      else
        match VerifySignature(mac, req.signatureHeader.GetOr(""), req.body, Secret)
        case Raise(e) => Raise(e)
        case Return(ok) => if ok then Return(()) else Raise(ValueError)
  }

  /** `incoming_webhook(request)`. */
  function IncomingWebhook(mac: Mac, loads: JsonLoads, req: Request): Response {
    match CheckRequest(mac, req)
    case Raise(e) =>
      if e == ValueError then JsonMessage(403, "ko") else ServerError(e)
    case Return(_) =>
      match ProcessData(loads, req.body)
      case Raise(e) =>
        if e == ValueError then JsonMessage(400, "ko") else ServerError(e)
      case Return(_) => JsonMessage(200, "ok")
  }

  /** The request comes from an allowed host and carries the correct signature. */
  predicate Authentic(mac: Mac, req: Request) {
    req.client.Some? && VerifyIp(req.client.value)
    && req.signatureHeader == Some(MakeSignature(mac, Secret, req.body))
  }

  /** The allow-list is exactly "localhost" and the IPv4 loopback address. */
  lemma VerifyIpExactly(ip: string)
    ensures VerifyIp(ip) <==> ip == "localhost" || ip == "127.0.0.1"
  {
  }

  /** The IPv6 loopback address is not on the allow-list: a request from
      "::1" gets 403 "ko" whatever its header, body and parser. */
  lemma Ipv6LoopbackForbidden(mac: Mac, loads: JsonLoads, header: Option<string>, body: Bytes)
    ensures IncomingWebhook(mac, loads, Request(Some("::1"), header, body)) == JsonMessage(403, "ko")
  {
  }

  /** 200 "ok" exactly for an authentic request whose body the parser either
      decodes or rejects with a ValueError. */
  lemma AcceptedExactly(mac: Mac, loads: JsonLoads, req: Request)
    ensures IncomingWebhook(mac, loads, req) == JsonMessage(200, "ok")
        <==> Authentic(mac, req) && !Escapes(loads(req.body))
  {
  }

  /** 403 "ko" exactly when the host is known and either not allowed, or
      allowed with a wrong (but ASCII) signature; a missing header is "". */
  lemma ForbiddenExactly(mac: Mac, loads: JsonLoads, req: Request)
    ensures IncomingWebhook(mac, loads, req) == JsonMessage(403, "ko")
        <==> req.client.Some?
             && (!VerifyIp(req.client.value)
                 || (IsAscii(req.signatureHeader.GetOr(""))
                     && req.signatureHeader.GetOr("") != MakeSignature(mac, Secret, req.body)))
  {
  }

  /** The `except ValueError` branch around `process_data` is dead: no request
      is ever answered with 400, and the only JSON answers are 200 "ok" and
      403 "ko". */
  lemma NeverBadRequest(mac: Mac, loads: JsonLoads, req: Request)
    ensures StatusCode(IncomingWebhook(mac, loads, req)) != 400
    ensures IncomingWebhook(mac, loads, req).JsonMessage? ==>
              IncomingWebhook(mac, loads, req) in {JsonMessage(200, "ok"), JsonMessage(403, "ko")}
  {
  }

  /** A host outside the allow-list gets 403 "ko" whatever its header (even one
      the signature check would raise on), body and parser: the signature check
      is never reached. */
  lemma ForeignHostForbidden(mac: Mac, loads: JsonLoads, host: string, header: Option<string>, body: Bytes)
    requires !VerifyIp(host)
    ensures IncomingWebhook(mac, loads, Request(Some(host), header, body)) == JsonMessage(403, "ko")
  {
  }

  /** From an allowed host, a request without the header gets 403 "ko". */
  lemma MissingSignatureForbidden(mac: Mac, loads: JsonLoads, host: string, body: Bytes)
    requires VerifyIp(host)
    ensures IncomingWebhook(mac, loads, Request(Some(host), None, body)) == JsonMessage(403, "ko")
  {
  }

  /** From an allowed host, any wrong ASCII header gets 403 "ko". */
  lemma WrongSignatureForbidden(mac: Mac, loads: JsonLoads, host: string, header: string, body: Bytes)
    requires VerifyIp(host) && IsAscii(header)
    requires header != MakeSignature(mac, Secret, body)
    ensures IncomingWebhook(mac, loads, Request(Some(host), Some(header), body)) == JsonMessage(403, "ko")
  {
  }

  /** From an allowed host, a header with a non-ASCII character makes
      `hmac.compare_digest` raise TypeError, which no clause catches. */
  lemma NonAsciiSignatureFails(mac: Mac, loads: JsonLoads, host: string, header: string, body: Bytes)
    requires VerifyIp(host) && !IsAscii(header)
    ensures IncomingWebhook(mac, loads, Request(Some(host), Some(header), body)) == ServerError(TypeError)
  {
  }

  /** Without a client address `request.client.host` raises AttributeError. */
  lemma UnknownClientFails(mac: Mac, loads: JsonLoads, header: Option<string>, body: Bytes)
    ensures IncomingWebhook(mac, loads, Request(None, header, body)) == ServerError(AttributeError)
  {
  }

  /** An authentic request is answered 200 "ok" even when its body is not JSON. */
  lemma MalformedBodyAccepted(mac: Mac, loads: JsonLoads, req: Request)
    requires Authentic(mac, req) && loads(req.body) == Raise(ValueError)
    ensures IncomingWebhook(mac, loads, req) == JsonMessage(200, "ok")
  {
  }

  /** The body is parsed only once both checks have passed: for a request that
      is not authentic, the parser cannot influence the response. */
  lemma BodyParsedOnlyAfterChecks(mac: Mac, loads: JsonLoads, otherLoads: JsonLoads, req: Request)
    requires !Authentic(mac, req)
    ensures IncomingWebhook(mac, loads, req) == IncomingWebhook(mac, otherLoads, req)
  {
  }
}
