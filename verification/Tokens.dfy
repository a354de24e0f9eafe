// Tokens: payloads, their validity, and PASETO as ideal authenticated encryption.
module Tokens {
  import opened Wrappers

  datatype TokenType = AccessToken | RefreshToken

  datatype Payload = Payload(
    id: int, tokenType: TokenType, username: string, role: string, issuedAt: int, expiredAt: int)

  datatype TokenError = InvalidToken | ExpiredToken

  /** The text of a token. `Sealed` is what encryption under a key produces; anything else does not decrypt. */
  datatype Token = Sealed(key: string, payload: Payload) | Garbage(text: string)

  datatype Maker = Maker(key: string)

  /** `id` is the fresh UUID and `now` the clock. */
  function NewPayload(id: int, username: string, role: string, duration: int, tokenType: TokenType, now: int): Payload {
    Payload(id, tokenType, username, role, now, now + duration)
  }

  function Valid(payload: Payload, tokenType: TokenType, now: int): Option<TokenError> {
    if payload.tokenType != tokenType then Some(InvalidToken)
    else if now > payload.expiredAt then Some(ExpiredToken)
    else None
  }

  function CreateToken(maker: Maker, payload: Payload): Token {
    Sealed(maker.key, payload)
  }

  function VerifyToken(maker: Maker, token: Token, tokenType: TokenType, now: int): Result<Payload, TokenError> {
    if !token.Sealed? || token.key != maker.key then
      Err(InvalidToken)
    else
      match Valid(token.payload, tokenType, now)
      case Some(e) => Err(e)
      case None => Ok(token.payload)
  }

  /** A created token verifies to its own payload under the same key, for its own type, up to and including the moment
      it expires, and in no other case; of two reasons to refuse it, the type is reported. */
  lemma TokenRoundTrip(maker: Maker, other: Maker, id: int, username: string, role: string, duration: int,
                       created: TokenType, asked: TokenType, now: int, later: int)
    ensures var payload := NewPayload(id, username, role, duration, created, now);
            var r := VerifyToken(other, CreateToken(maker, payload), asked, later);
            && (r.Ok? <==> other == maker && asked == created && later <= now + duration)
            && (r.Ok? ==>
                  && r.value == payload && r.value.id == id && r.value.tokenType == created
                  && r.value.username == username && r.value.role == role
                  && r.value.issuedAt == now && r.value.expiredAt == now + duration)
            && (r.Err? ==> (r.error == ExpiredToken <==> other == maker && asked == created))
  {
    assert other == maker <==> other.key == maker.key;
  }
}
