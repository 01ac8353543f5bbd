/** The background job `call_webhook`: sign the serialised body, build the
    three `WebHook-*` headers, POST, and raise when the reply's status class
    is above 3. The serialisation, the clock, the id and the network are
    inputs: `payload` is `json.dumps(body).encode()`, `timestamp` the
    formatted current time, `reply` what the POST produced. */
module Outbound {
  import opened Python
  import opened Signer
  import Inbound

  const IdHeader := "WebHook-ID"
  const TimestampHeader := "WebHook-Timestamp"

  /** The `headers` dict built before the POST. */
  function WebhookHeaders(mac: Mac, id: string, payload: Bytes, timestamp: string): map<string, string> {
    map[IdHeader := id, SignatureHeader := MakeSignature(mac, Secret, payload), TimestampHeader := timestamp]
  }

  /** `status // 100`: Python's floor division, which for a positive divisor
      agrees with Dafny's Euclidean `/`. */
  function StatusClass(status: int): (c: int)
    ensures 100 * c <= status < 100 * c + 100
  {
    status / 100
  }

  /** The test `(r.status_code // 100) > 3`. */
  function DeliveryFailed(status: int): (failed: bool)
    ensures failed <==> status >= 400
  {
    StatusClass(status) > 3
  }

  /** What the POST returned: the status code, and how `r.json()` went (its
      value, or `r.text` instead, is only logged). */
  datatype Reply = Reply(status: int, decoded: Outcome<()>)

  /** The part of `call_webhook` after the request is sent: an exception of
      the POST propagates, a ValueError of `r.json()` is caught, and a status
      class above 3 raises HTTPException. */
  function CheckDelivery(reply: Outcome<Reply>): Outcome<()> {
    match reply
    case Raise(e) => Raise(e)
    case Return(Reply(status, decoded)) =>
      if Escapes(decoded) then Raise(decoded.exc)
      else if DeliveryFailed(status) then Raise(HttpError)
      else Return(())
  }

  /** One dispatch: the headers sent, and how the job ended. */
  datatype Dispatch = Dispatch(headers: map<string, string>, result: Outcome<()>)

  /** `call_webhook(body, id, url)`. */
  function CallWebhook(mac: Mac, id: string, payload: Bytes, timestamp: string, reply: Outcome<Reply>): Dispatch {
    Dispatch(WebhookHeaders(mac, id, payload, timestamp), CheckDelivery(reply))
  }

  /** The `headers` dict passed to the POST has exactly the three `WebHook-*`
      keys; the id and the timestamp pass through. */
  lemma HeadersExactly(mac: Mac, id: string, payload: Bytes, timestamp: string, reply: Outcome<Reply>)
    ensures CallWebhook(mac, id, payload, timestamp, reply).headers.Keys
         == {IdHeader, SignatureHeader, TimestampHeader}
    ensures |CallWebhook(mac, id, payload, timestamp, reply).headers| == 3
    ensures CallWebhook(mac, id, payload, timestamp, reply).headers[IdHeader] == id
    ensures CallWebhook(mac, id, payload, timestamp, reply).headers[TimestampHeader] == timestamp
  {
  }

  /** A receiver holding the same secret and the same bytes accepts the
      signature header of a dispatch. */
  lemma OutboundSignatureVerifies(mac: Mac, id: string, payload: Bytes, timestamp: string, reply: Outcome<Reply>)
    ensures VerifySignature(mac, CallWebhook(mac, id, payload, timestamp, reply).headers[SignatureHeader], payload, Secret)
         == Return(true)
  {
  }

  /** The same service's `/webhook`, called from 127.0.0.1 with the dispatch's
      signature header over bytes identical to the signed ones, answers
      200 "ok" unless its parser raises past `process_data`. */
  lemma LoopbackDeliveryAccepted(mac: Mac, loads: Inbound.JsonLoads, id: string, payload: Bytes, timestamp: string,
                                 reply: Outcome<Reply>)
    requires !Escapes(loads(payload))
    ensures Inbound.IncomingWebhook(mac, loads,
              Inbound.Request(Some("127.0.0.1"),
                              Some(CallWebhook(mac, id, payload, timestamp, reply).headers[SignatureHeader]), payload))
         == Inbound.JsonMessage(200, "ok")
  {
  }

  /** A dispatch ends without an exception exactly when the POST completed,
      its reply decoded or failed with a ValueError, and the status is below 400. */
  lemma DeliverySucceedsExactly(mac: Mac, id: string, payload: Bytes, timestamp: string, reply: Outcome<Reply>)
    ensures CallWebhook(mac, id, payload, timestamp, reply).result == Return(())
        <==> reply.Return? && !Escapes(reply.value.decoded) && reply.value.status < 400
  {
  }

  /** A reply of status 400 or more whose body did not raise past the
      `except ValueError` makes the job raise HTTPException. */
  lemma FailureStatusRaises(mac: Mac, id: string, payload: Bytes, timestamp: string, status: int, decoded: Outcome<()>)
    requires status >= 400 && !Escapes(decoded)
    ensures CallWebhook(mac, id, payload, timestamp, Return(Reply(status, decoded))).result == Raise(HttpError)
  {
  }

  /** 200 and 302 are deliveries, 404 and 500 are failures. */
  lemma ClassificationExamples()
    ensures !DeliveryFailed(200) && !DeliveryFailed(302)
    ensures DeliveryFailed(404) && DeliveryFailed(500)
  {
  }
}
