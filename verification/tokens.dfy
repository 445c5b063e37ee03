/**
 Claims carried by the signed bearer token and the fixed one-hour lifetime of an
 issued token. Signing and signature checking are not modelled: they are oracles
 (`sign`, `verify`) handed to the middleware and the login route.
 */
module Tokens {

  /** Identifier of a registered user (the `_id` of a user document). */
  type UserId = nat

  /** The `expiresIn: '1h'` option of the login route, in seconds. */
  const TokenLifetime: nat := 3600

  /** Decoded token payload: the `userId` claim plus issued-at and expiry times, in seconds. */
  datatype Claims = Claims(userId: UserId, iat: int, exp: int)

  /** Why a token verification failed; every reason is treated alike by both middlewares. */
  datatype RejectReason = Malformed | BadSignature | Expired

  /** What the verification oracle answers for a token string. */
  datatype Verification = Verified(claims: Claims) | Rejected(reason: RejectReason)

  /** A token with these claims is accepted at time `now` (seconds) iff its expiry has not been reached. */
  predicate Live(c: Claims, now: int) {
    now < c.exp
  }

  /** The claims the login route signs for `userId` at time `now`. */
  function Issue(userId: UserId, now: int): (c: Claims)
    ensures c.userId == userId
    ensures Live(c, now)
    ensures !Live(c, now + TokenLifetime)
  {
    Claims(userId, now, now + TokenLifetime)
  }

  /** A token issued at `issuedAt` is live exactly during the hour that follows. */
  lemma IssuedTokenLifetime(userId: UserId, issuedAt: int, now: int)
    requires issuedAt <= now
    ensures Live(Issue(userId, issuedAt), now) <==> now - issuedAt < TokenLifetime
  {
  }
}
