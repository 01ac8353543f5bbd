# Signed webhooks: a Dafny model

A model of the webhook authentication and classification logic of
`main.py` in py-bootcamp/webhooks-and-websockets, a Starlette service that
receives webhook calls signed with HMAC-SHA256 and dispatches its own signed
webhook calls in the background.

- `python.dfy` (module `Python`): `bytes`, optional values, the exceptions
  that matter to the handlers, and `Outcome` (a call returns or raises).
- `signer.dfy` (module `Signer`): `make_signature`, `verify_signature`, the
  `SECRET` constant. HMAC-SHA256 is a parameter `mac` of type `Mac`, an
  arbitrary deterministic function to 32-byte tags; every lemma holds for
  every such function. `hexdigest()` is modelled (`HexDigest`), so the
  signature's length (64), alphabet (lower-case hex) and ASCII-ness are
  proved rather than assumed. `hmac.compare_digest` on `str` is modelled as
  what it returns: equality when both strings are ASCII, TypeError otherwise.
- `inbound.dfy` (module `Inbound`): `IPs`, `verify_ip`, `process_data` and
  `incoming_webhook`. Exceptions are values, so each `except ValueError`
  clause is a branch; an exception no clause catches becomes
  `ServerError(e)`, the 500 response of the server. `json.loads` is a
  parameter `loads` that returns or raises.
- `outbound.dfy` (module `Outbound`): the header dict and the status test of
  `call_webhook`. The serialised body, the timestamp string, the id and the
  POST's reply are inputs.

Edge cases of the code as written, which the model follows:

- A `WebHook-Signature` header containing a non-ASCII character makes
  `hmac.compare_digest` raise TypeError. The handler catches only
  ValueError, so such a request from an allowed host gets a 500, unlike
  the 403 "ko" the handler gives every other wrong signature
  (`NonAsciiSignatureFails`).
- `request.client` is `None` when the server reports no peer address; then
  `request.client.host` raises AttributeError and the answer is a 500
  (`UnknownClientFails`).
- Only "localhost" and "127.0.0.1" are allowed: a request from the IPv6
  loopback address "::1" gets 403 "ko" whatever it carries
  (`Ipv6LoopbackForbidden`).
- An exception of `json.loads` that is not a ValueError (RecursionError for
  a deeply nested document) escapes `process_data` and gives a 500. Every
  ValueError is swallowed inside `process_data`, so the handler's 400 branch
  is dead (`NeverBadRequest`).

Python's `//` is floor division; for the divisor 100 Dafny's Euclidean `/`
agrees with it on every integer, negative ones included (`StatusClass`).

## Model

| member | source | states |
|---|---|---|
| Signer.HexByte | main.py:53 | one byte becomes two lower-case hex digits; it is the building block of `HexDigest`, whose injectivity `HexByteInjective` and `HexDigestInjective` prove |
| Signer.CompareDigest | main.py:57 | no contract of its own (`hmac.compare_digest` on `str`); described by VerifyAsciiHeader and VerifyNonAsciiHeaderRaises |
| Signer.VerifySignature | main.py:56-57 | no contract of its own; described by SignatureRoundTrip, VerifyAcceptsExactly, VerifyAsciiHeader, VerifyNonAsciiHeaderRaises, VerifyRejectsAltered and OtherSecretAcceptedOnlyOnCollision |
| Inbound.VerifyIp | main.py:48-49 | no contract of its own; described by VerifyIpExactly and Ipv6LoopbackForbidden |
| Inbound.ClientHost | main.py:63 | no contract of its own; described by UnknownClientFails |
| Inbound.CheckRequest | main.py:62-73 | no contract of its own; described by ForbiddenExactly, ForeignHostForbidden, MissingSignatureForbidden, WrongSignatureForbidden and NonAsciiSignatureFails |
| Inbound.IncomingWebhook | main.py:60-80 | no contract of its own; described by AcceptedExactly, ForbiddenExactly and NeverBadRequest |
| Outbound.WebhookHeaders | main.py:101-105 | no contract of its own; described by HeadersExactly and OutboundSignatureVerifies |
| Outbound.CheckDelivery | main.py:106-114 | no contract of its own; described by DeliverySucceedsExactly and FailureStatusRaises |
| Outbound.CallWebhook | main.py:98-114 | no contract of its own; described by HeadersExactly, OutboundSignatureVerifies, LoopbackDeliveryAccepted, DeliverySucceedsExactly and FailureStatusRaises |
| Signer.HexDigest | main.py:53 | `hexdigest()` yields two characters per byte, each a lower-case hex digit |
| Signer.MakeSignature | main.py:52-53 | a signature is 64 lower-case hex characters, hence ASCII and never empty |
| Signer.SignatureRoundTrip | main.py:52-57 | for every secret and body, `verify_signature(make_signature(secret, body), body, secret)` returns True |
| Signer.VerifyAcceptsExactly | main.py:56-57 | verification returns True if and only if the header equals the recomputed signature |
| Signer.VerifyAsciiHeader | main.py:56-57 | for an ASCII header verification never raises and returns whether the header equals the signature |
| Signer.VerifyNonAsciiHeaderRaises | main.py:56-57 | a header with a non-ASCII character makes verification raise TypeError |
| Signer.VerifyRejectsAltered | main.py:56-57 | a header of another length, or differing from the signature at any one position, is not accepted |
| Signer.HexDigestInjective | main.py:53 | equal hex digests come from equal raw digests |
| Signer.OtherSecretAcceptedOnlyOnCollision | main.py:52-57 | a signature made with one secret verifies under another exactly when the two raw HMAC tags of the body collide |
| Inbound.VerifyIpExactly | main.py:48-49 | `verify_ip(ip)` is true exactly for "localhost" and "127.0.0.1" |
| Inbound.ProcessData | main.py:25-31 | `process_data` never raises ValueError; it raises exactly when the parser raises something else, and then re-raises the parser's own exception |
| Inbound.AcceptedExactly | main.py:60-80 | 200 "ok" if and only if the host is allowed, the header is the correct signature, and parsing did not raise past `process_data` |
| Inbound.ForbiddenExactly | main.py:60-73 | 403 "ko" if and only if the host is known and either not allowed, or allowed with a missing or wrong ASCII header |
| Inbound.NeverBadRequest | main.py:75-80 | no request is ever answered 400; the only JSON answers are 200 "ok" and 403 "ko" |
| Inbound.Ipv6LoopbackForbidden | main.py:21 | a request from "::1" gets 403 "ko" whatever its header, body and parser, since `IPs` holds "localhost" and "127.0.0.1" but not "::1" |
| Inbound.ForeignHostForbidden | main.py:63-65 | a host outside the allow-list gets 403 "ko" whatever its header, body and parser, so the signature check is never reached |
| Inbound.MissingSignatureForbidden | main.py:67-73 | from an allowed host a missing header is read as "" and gets 403 "ko" |
| Inbound.WrongSignatureForbidden | main.py:67-73 | from an allowed host any wrong ASCII header gets 403 "ko" |
| Inbound.NonAsciiSignatureFails | main.py:67-73 | from an allowed host a non-ASCII header raises TypeError out of the handler |
| Inbound.UnknownClientFails | main.py:63 | without a peer address the handler raises AttributeError |
| Inbound.MalformedBodyAccepted | main.py:25-31 | an authentic request whose body is not JSON still gets 200 "ok" |
| Inbound.BodyParsedOnlyAfterChecks | main.py:62-76 | for a request failing either check, the parser has no influence on the response |
| Outbound.StatusClass | main.py:113 | `status // 100` is floor division: `100 * c <= status < 100 * c + 100` |
| Outbound.DeliveryFailed | main.py:113-114 | the failure test holds exactly for statuses of 400 and above |
| Outbound.HeadersExactly | main.py:101-105 | the `headers` dict that `call_webhook` passes to the POST has exactly the three `WebHook-*` keys; id and timestamp pass through |
| Outbound.OutboundSignatureVerifies | main.py:100-103 | the signature header of a `call_webhook` dispatch verifies against the signed bytes with the same secret |
| Outbound.LoopbackDeliveryAccepted | main.py:98-105 | the service's own `/webhook`, given the dispatch's signature and identical bytes from 127.0.0.1, answers 200 "ok" unless parsing raises past `process_data` |
| Outbound.DeliverySucceedsExactly | main.py:106-114 | a `call_webhook` dispatch ends normally exactly when the POST completed, `r.json()` returned or raised ValueError, and the status is below 400 |
| Outbound.FailureStatusRaises | main.py:113-114 | a `call_webhook` dispatch whose reply has status 400 or above, and whose `r.json()` returned or raised ValueError, raises HTTPException |
| Outbound.ClassificationExamples | main.py:113-114 | 200 and 302 succeed; 404 and 500 fail |

## Left out

- HMAC-SHA256 internals (`hmac.new`, `hashlib.sha256`): library code, a parameter here; the UTF-8 encoding of the secret is part of that parameter.
- Signer.OtherSecretAcceptedOnlyOnCollision: does not prove that another secret is always rejected, because that rests on HMAC's collision resistance, which an uninterpreted function does not have.
- The constant-time behaviour of `hmac.compare_digest`: timing is not expressible; only its result and its TypeError are modelled.
- JSON parsing and serialisation (`json.loads`, `json.dumps`, `r.json()`): library calls, modelled as a parser parameter, as the payload bytes and as the reply's decode outcome; decoded values are only logged and are not kept.
- The bytes httpx puts on the wire for `json=body` come from its own serialiser, which need not match `json.dumps`, so no claim ties them to the signed bytes; `LoopbackDeliveryAccepted` assumes identical bytes.
- The headers httpx adds on its own to the POST (Host, Accept, Accept-Encoding, Connection, User-Agent, Content-Length, Content-Type): transport plumbing; only the `headers` dict of `call_webhook` is modelled.
- The HTTP header lookup (`request.headers.get`) is taken as done: the request carries the header's value or its absence.
- Network I/O and async plumbing: `request.body()`, `httpx.AsyncClient`, the POST itself (its reply or exception is an input) and the url.
- `trigger` and its `BackgroundTask`: fire-and-forget scheduling; its fixed response does not depend on the dispatch, which the model has no scheduler to express.
- The timestamp (`datetime.now`) and the id (`uuid4().hex`): clock and randomness, passed in as strings.
- `websocket_endpoint`: a concurrent I/O loop with no contract of its own.
- `health`, the routes table, the Starlette app and every `log` call: plumbing.
