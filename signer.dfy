/** Signing and checking a body with the shared secret: `make_signature` and
    `verify_signature`. HMAC-SHA256 itself (RFC 2104 section 2 over the SHA-256
    of FIPS 180-4) is not modelled: every function of type `Mac` is a candidate
    for it, and every result here holds for all of them. */
module Signer {
  import opened Python

  /** The module-level `SECRET`, the key both directions sign with. */
  const Secret := "SUPER-SECRET"

  /** The header that carries the signature, inbound and outbound. */
  const SignatureHeader := "WebHook-Signature"

  /** Length in bytes of a SHA-256 output, and so of an HMAC-SHA256 tag. */
  const DigestSize := 32

  type Digest = d: Bytes | |d| == DigestSize witness seq(32, _ => 0)

  /** The raw HMAC-SHA256 tag of a body, keyed by the UTF-8 encoding of the
      secret: deterministic, otherwise uninterpreted. */
  type Mac = (string, Bytes) -> Digest

  const HexDigits := "0123456789abcdef"

  predicate IsLowerHex(s: string) {
    forall i :: 0 <= i < |s| ==> s[i] in HexDigits
  }

  /** Two hex digits for one byte, high nibble first. */
  function HexByte(b: Byte): (s: string)
    ensures |s| == 2 && IsLowerHex(s)
  {
    [HexDigits[b / 16], HexDigits[b % 16]]
  }

  /** `hexdigest()`: the bytes of a digest as lower-case hexadecimal. */
  function HexDigest(d: Bytes): (s: string)
    ensures |s| == 2 * |d|
    ensures IsLowerHex(s)
  {
    if d == [] then "" else HexByte(d[0]) + HexDigest(d[1..])
  }

  /** `make_signature(secret, body)`. */
  function MakeSignature(mac: Mac, secret: string, body: Bytes): (sig: string)
    ensures |sig| == 2 * DigestSize && IsLowerHex(sig) && IsAscii(sig)
  {
    HexDigest(mac(secret, body))
  }

  /** `hmac.compare_digest(a, b)` on two `str` values: a TypeError unless both
      are ASCII, their equality otherwise. How long it takes is not modelled. */
  function CompareDigest(a: string, b: string): Outcome<bool> {
    if IsAscii(a) && IsAscii(b) then Return(a == b) else Raise(TypeError)
  }

  /** `verify_signature(header, body, secret)`. */
  function VerifySignature(mac: Mac, header: string, body: Bytes, secret: string): Outcome<bool> {
    CompareDigest(MakeSignature(mac, secret, body), header)
  }

  /** A signature made with a secret verifies under the same secret. */
  lemma SignatureRoundTrip(mac: Mac, secret: string, body: Bytes)
    ensures VerifySignature(mac, MakeSignature(mac, secret, body), body, secret) == Return(true)
  {
  }

  /** Verification succeeds exactly for the recomputed signature. */
  lemma VerifyAcceptsExactly(mac: Mac, secret: string, body: Bytes, header: string)
    ensures VerifySignature(mac, header, body, secret) == Return(true)
        <==> header == MakeSignature(mac, secret, body)
  {
  }

  /** An ASCII header is compared, never refused by an exception. */
  lemma VerifyAsciiHeader(mac: Mac, secret: string, body: Bytes, header: string)
    requires IsAscii(header)
    ensures VerifySignature(mac, header, body, secret)
         == Return(header == MakeSignature(mac, secret, body))
  {
  }

  /** A header with a non-ASCII character makes the comparison raise. */
  lemma VerifyNonAsciiHeaderRaises(mac: Mac, secret: string, body: Bytes, header: string)
    requires !IsAscii(header)
    ensures VerifySignature(mac, header, body, secret) == Raise(TypeError)
  {
  }

  /** A header of another length, or differing in any one position, is not
      accepted, wherever that position is. */
  lemma VerifyRejectsAltered(mac: Mac, secret: string, body: Bytes, header: string, i: nat)
    requires |header| != 2 * DigestSize
          || (i < |header| && i < 2 * DigestSize && header[i] != MakeSignature(mac, secret, body)[i])
    ensures VerifySignature(mac, header, body, secret) != Return(true)
  {
  }

  lemma HexByteInjective(a: Byte, b: Byte)
    requires HexByte(a) == HexByte(b)
    ensures a == b
  {
    assert forall i, j :: 0 <= i < j < 16 ==> HexDigits[i] != HexDigits[j];
    assert HexDigits[a / 16] == HexDigits[b / 16] && HexDigits[a % 16] == HexDigits[b % 16];
  }

  /** Hex encoding loses nothing: equal encodings come from equal digests. */
  lemma {:induction false} HexDigestInjective(a: Bytes, b: Bytes)
    requires HexDigest(a) == HexDigest(b)
    ensures a == b
  {
    if a != [] {
      var ha, hb := HexDigest(a), HexDigest(b);
      assert ha == HexByte(a[0]) + HexDigest(a[1..]);
      assert hb == HexByte(b[0]) + HexDigest(b[1..]);
      assert HexByte(a[0]) == ha[..2] == hb[..2] == HexByte(b[0]);
      HexByteInjective(a[0], b[0]);
      assert HexDigest(a[1..]) == ha[2..] == hb[2..] == HexDigest(b[1..]);
      HexDigestInjective(a[1..], b[1..]);
    }
  }

  /** A body signed with one secret verifies under another exactly when the
      two raw tags collide; ruling that out is HMAC's job, not this code's. */
  lemma OtherSecretAcceptedOnlyOnCollision(mac: Mac, signer: string, checker: string, body: Bytes)
    ensures VerifySignature(mac, MakeSignature(mac, signer, body), body, checker) == Return(true)
        <==> mac(signer, body) == mac(checker, body)
  {
    if MakeSignature(mac, signer, body) == MakeSignature(mac, checker, body) {
      HexDigestInjective(mac(signer, body), mac(checker, body));
    }
  }
}
