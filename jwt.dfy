/** What the core uses of `JwtUtils`. Signing and parsing belong to the
    JJWT library and stay abstract: a token parser is any function from a
    token string to the claims it carries, or `None` where the library
    throws (bad signature, malformed token, or its own expiry check). */
module Jwt {
  import opened Common
  import opened Security

  /** Token lifetime of `generateToken`: 1000 * 60 * 60 * 10 ms, ten hours. */
  const TokenLifetimeMillis: int := 1000 * 60 * 60 * 10

  /** The claims `generateToken` puts in a token; times in epoch milliseconds. */
  datatype Claims = Claims(subject: Option<string>, issuedAt: int, expiration: int)

  /** `parseSignedClaims(token).getPayload()`, `None` when it throws. */
  type TokenParser = string -> Option<Claims>

  /** The claims `generateToken` signs for `details` at clock `nowMillis`. */
  function IssueClaims(details: UserDetails, nowMillis: int): (c: Claims)
    ensures c.subject == Some(details.username)
    ensures c.issuedAt == nowMillis && c.expiration == nowMillis + 36_000_000
  {
    Claims(Some(details.username), nowMillis, nowMillis + TokenLifetimeMillis)
  }

  /** `isTokenExpired`: `expiration.before(now)`. */
  predicate IsExpired(c: Claims, nowMillis: int): (b: bool)
    ensures b <==> !(nowMillis <= c.expiration)
  {
    c.expiration < nowMillis
  }

  /** `validateToken` on already parsed claims: the subject equals the user
      name and the token has not expired. */
  predicate ValidateToken(c: Claims, details: UserDetails, nowMillis: int): (b: bool)
    ensures b <==> c.subject.Some? && c.subject.value == details.username && nowMillis <= c.expiration
  {
    c.subject == Some(details.username) && !IsExpired(c, nowMillis)
  }

  /** JJWT writes `iat` and `exp` as whole seconds, `getTime() / 1000` with
      Java's division truncating toward zero, and reads them back as seconds
      times 1000: the instant a token carries. */
  function WireInstant(ms: int): (w: int)
    ensures w % 1000 == 0
    ensures ms >= 0 ==> 0 <= w <= ms < w + 1000
    ensures ms < 0 ==> ms < w + 1000 && w <= 0
  {
    if ms >= 0 then ms / 1000 * 1000 else -((-ms) / 1000 * 1000)
  }

  /** The claims a parser reads back from a token signed for `c`. */
  function OnTheWire(c: Claims): (w: Claims)
    ensures w.subject == c.subject
    ensures w.issuedAt == WireInstant(c.issuedAt) && w.expiration == WireInstant(c.expiration)
  {
    Claims(c.subject, WireInstant(c.issuedAt), WireInstant(c.expiration))
  }

  /** Claims issued at a non-negative clock and read back from their token
      validate exactly up to the whole second below the ten-hour mark: up
      to 999 ms earlier than the issued expiration says. */
  lemma SignedClaimsValidity(details: UserDetails, issued: int, nowMillis: int)
    requires 0 <= issued
    ensures ValidateToken(OnTheWire(IssueClaims(details, issued)), details, nowMillis)
        <==> nowMillis <= WireInstant(issued + TokenLifetimeMillis)
    ensures issued + TokenLifetimeMillis - 1000 < WireInstant(issued + TokenLifetimeMillis) <= issued + TokenLifetimeMillis
  {
  }

  /** Claims freshly issued for `details` validate against `details` for
      exactly the ten hours up to and including their expiration instant. */
  lemma IssuedClaimsValidity(details: UserDetails, issued: int, nowMillis: int)
    ensures ValidateToken(IssueClaims(details, issued), details, nowMillis)
        <==> nowMillis <= issued + TokenLifetimeMillis
  {
  }
}
