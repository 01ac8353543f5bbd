/** The Python-level values the webhook handlers work with: `bytes`, optional
    values, and the exceptions whose kind decides which `except` clause, if
    any, catches them. */
module Python {

  /** One element of a Python `bytes` object. */
  type Byte = b: int | 0 <= b < 256

  type Bytes = seq<Byte>

  datatype Option<T> = None | Some(value: T) {

    /** `mapping.get(key, default)` once the lookup is done. */
    function GetOr(default: T): T {
      match this
      case Some(v) => v
      case None => default
    }
  }

  /** The exceptions that can leave the modelled calls. `ValueError` stands for
      ValueError and every subclass of it (json.JSONDecodeError,
      UnicodeDecodeError): exactly what an `except ValueError` clause catches. */
  datatype Exception =
    | ValueError
    | TypeError       // hmac.compare_digest on a non-ASCII str
    | AttributeError  // `request.client.host` when the client address is unknown
    | RecursionError  // json decoding of a too deeply nested document
    | TransportError  // httpx failing to complete the POST
    | HttpError       // http.client.HTTPException raised by call_webhook

  /** What a Python call does: return a value or raise. */
  datatype Outcome<T> = Return(value: T) | Raise(exc: Exception)

  /** The call raised something that `except ValueError` lets through. */
  predicate Escapes<T>(o: Outcome<T>) {
    o.Raise? && o.exc != ValueError
  }

  /** Every character is in the 7-bit ASCII range. */
  predicate IsAscii(s: string) {
    forall i :: 0 <= i < |s| ==> s[i] as int < 128
  }
}
