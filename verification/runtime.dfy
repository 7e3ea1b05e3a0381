/**
  What the handler takes from Node.js and does not define itself. UTF-8
  encoding of strings, SHA-256, HMAC-SHA256 and `JSON.stringify` of values
  other than strings are left uninterpreted: each is a field of a `Platform`
  value that every operation receives, so nothing below depends on how they
  work inside. Base 64 output is the concrete encoder of module `Base64`.
 */
module Runtime {
  import opened Base64
  import opened Json

  type Bytes = seq<byte>

  datatype Platform = Platform(
    /** The UTF-8 bytes Node hashes when a digest or HMAC is fed a string. */
    utf8: string -> Bytes,
    /** The SHA-256 digest. */
    sha256: Bytes -> Bytes,
    /** HMAC-SHA256 under a key, of a message. */
    hmacSha256: (Bytes, Bytes) -> Bytes,
    /** `JSON.stringify` of numbers, arrays and objects. */
    stringifyOther: JsValue -> string)

  /** `crypto.createHash('sha256').update(s).digest('base64')`: base 64 text,
      so free of line breaks, commas, semicolons and colons. */
  function HashBase64(p: Platform, s: string): (h: string)
    ensures forall c <- h :: IsEncodingChar(c)
    ensures '\n' !in h && ',' !in h && ';' !in h && ':' !in h
  {
    EncodeAlphabet(p.sha256(p.utf8(s)));
    Encode(p.sha256(p.utf8(s)))
  }

  /** The date-scoped key: HMAC-SHA256 of the date stamp keyed by the secret
      key's bytes, kept as a raw digest (`.digest()` with no encoding). */
  function DateKey(p: Platform, secretKey: string, date: string): Bytes {
    p.hmacSha256(p.utf8(secretKey), p.utf8(date))
  }

  /** The two-level signature: HMAC-SHA256 of the string-to-sign keyed by the
      date-scoped key, in base 64. Its only inputs are the secret key, the
      date stamp and the string-to-sign. */
  function Signature(p: Platform, secretKey: string, date: string, stringToSign: string): (sig: string)
    ensures forall c <- sig :: IsEncodingChar(c)
    ensures '\n' !in sig && ',' !in sig
  {
    EncodeAlphabet(p.hmacSha256(DateKey(p, secretKey, date), p.utf8(stringToSign)));
    Encode(p.hmacSha256(DateKey(p, secretKey, date), p.utf8(stringToSign)))
  }
}
