/**
 * The signed-token library the server calls (jsonwebtoken), as an idealised
 * primitive. A signed token records the secret it was signed with, its claim
 * set, and its issued-at and expiry claims (RFC 7519, sections 4.1.6 and
 * 4.1.4), in seconds. Signature cryptography is not modelled: a token verifies
 * under a secret exactly when it was signed with that secret.
 */
module Jwt {
  import opened Wrappers

  type Secret = string

  /** A token as the verifier sees it: signed, absent (the empty string), or a
      string the library cannot read, with the message it gives for it
      ("jwt malformed", "invalid token", "jwt signature is required", ...). */
  datatype Token<P> = Signed(key: Secret, payload: P, iat: nat, exp: nat) | Missing | Unreadable(message: string)

  datatype JwtError = JwtMissing | NotReadable(message: string) | InvalidSignature | TokenExpired

  /** The message of the error jsonwebtoken throws for each failure. */
  function Message(e: JwtError): string
  {
    match e
    case JwtMissing => "jwt must be provided"
    case NotReadable(message) => message
    case InvalidSignature => "invalid signature"
    case TokenExpired => "jwt expired"
  }

  /** The token a string stands for: the empty string is no token at all;
      any other string is read by `parse`, the library's decoder. */
  function Decode<P>(text: string, parse: string -> Token<P>): Token<P>
  {
    if text == "" then Missing else parse(text)
  }

  /** Verifying the empty string fails with "jwt must be provided", whatever the secret. */
  lemma EmptyTokenMustBeProvided<P>(parse: string -> Token<P>, secret: Secret, now: nat)
    ensures Verify(Decode("", parse), secret, now) == Err(JwtMissing)
    ensures Message(JwtMissing) == "jwt must be provided"
  {
  }

  /** `jwt.sign(payload, secret, { expiresIn: ttl })` at time `now`. */
  function Sign<P>(payload: P, secret: Secret, ttl: nat, now: nat): (t: Token<P>)
    ensures t.Signed? && t.key == secret && t.payload == payload
    ensures t.iat == now && t.exp == now + ttl
  {
    Signed(secret, payload, now, now + ttl)
  }

  /** `jwt.verify(token, secret)` at time `now`: the signature is checked first,
      then expiry; a token is expired once `now` has reached `exp`. */
  function Verify<P>(t: Token<P>, secret: Secret, now: nat): (r: Result<P, JwtError>)
    ensures r.Ok? <==> t.Signed? && t.key == secret && now < t.exp
    ensures r.Ok? ==> r.value == t.payload
    ensures t.Signed? && t.key == secret && t.exp <= now ==> r == Err(TokenExpired)
  {
    match t
    case Missing => Err(JwtMissing)
    case Unreadable(message) => Err(NotReadable(message))
    case Signed(key, payload, _, exp) =>
      if key != secret then Err(InvalidSignature)
      else if exp <= now then Err(TokenExpired)
      else Ok(payload)
  }

  /** Signing then verifying with the same secret before expiry gives back the claims. */
  lemma SignVerifyRoundTrip<P>(payload: P, secret: Secret, ttl: nat, issued: nat, now: nat)
    requires now < issued + ttl
    ensures Verify(Sign(payload, secret, ttl, issued), secret, now) == Ok(payload)
  {
  }
}
