/**
 * A symbolic model of the JSON Web Token library the asset catalogue signs
 * its tokens with (RFC 7519 tokens in the JWS compact serialisation of
 * section 7.1 of RFC 7515, signed with HS256 as in section 3.2 of RFC 7518).
 *
 * The library itself is not part of this model. Its HMAC is represented by a
 * signature term that records the algorithm, the key and the signed payload
 * (a perfect MAC): the only way to obtain the signature of a payload under a
 * key is to sign it with that key. Base64url and JSON encoding are identity
 * on this representation. The two facts the catalogue relies on, that a token
 * decodes under the key it was signed with and under no other, are proved
 * below as DecodeEncode and DecodeOtherKey.
 */
module Jwt {
  import opened Wrappers

  /** The scalar values an asset's addressing data may hold. */
  datatype Scalar = SNull | SBool(b: bool) | SInt(i: int) | SString(s: string)

  /** The claims the catalogue puts in a token: issue time, provider class, category and data. */
  datatype Payload = Payload(iat: int, provider: string, category: string, data: map<string, Scalar>)

  /** The signature segment: the keyed hash of the payload under `key` with algorithm `alg`. */
  datatype Signature = Mac(alg: string, key: string, signed: Payload)

  /** A token string: three dot-separated segments, or text that does not parse as one. */
  datatype Token =
    | Compact(alg: string, payload: Payload, signature: Signature)
    | Malformed(text: string)

  datatype JwtError =
    | EmptyKey
    | WrongNumberOfSegments
    | AlgorithmNotAllowed(alg: string)
    | SignatureInvalid

  const HS256: string := "HS256"

  function Sign(alg: string, key: string, p: Payload): Signature
  {
    Mac(alg, key, p)
  }

  /** `JWT::encode(payload, key)`: signs with the default algorithm HS256. */
  function Encode(p: Payload, key: string): (t: Token)
    ensures t.Compact? && t.alg == HS256 && t.payload == p
  {
    Compact(HS256, p, Sign(HS256, key, p))
  }

  /**
   * `JWT::decode(token, key, allowed)`: refuses an empty key, a token that
   * does not parse, an algorithm outside `allowed` and a signature that is
   * not the one `key` gives the payload.
   */
  function Decode(t: Token, key: string, allowed: seq<string>): (r: Result<Payload, JwtError>)
    ensures r.Ok? <==> key != "" && t.Compact? && t.alg in allowed && t.signature == Sign(t.alg, key, t.payload)
    ensures r.Ok? ==> r.value == t.payload
  {
    if key == "" then Err(EmptyKey)
    else if t.Malformed? then Err(WrongNumberOfSegments)
    else if t.alg !in allowed then Err(AlgorithmNotAllowed(t.alg))
    else if t.signature != Sign(t.alg, key, t.payload) then Err(SignatureInvalid)
    else Ok(t.payload)
  }

  /** A token decodes, under the key that signed it, to the payload it was made from. */
  lemma DecodeEncode(p: Payload, key: string)
    requires key != ""
    ensures Decode(Encode(p, key), key, [HS256]) == Ok(p)
  {
  }

  /** A token never decodes under a key other than the one that signed it. */
  lemma DecodeOtherKey(p: Payload, key: string, other: string, allowed: seq<string>)
    requires other != key
    ensures Decode(Encode(p, key), other, allowed).Err?
  {
  }

  /** A token whose payload is not the one its signature was made over is rejected. */
  lemma TamperedPayloadRejected(p: Payload, forged: Payload, key: string, allowed: seq<string>)
    requires forged != p
    ensures Decode(Compact(HS256, forged, Sign(HS256, key, p)), key, allowed).Err?
  {
  }
}
