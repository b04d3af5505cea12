/**
 * The JWT library as the core uses it, kept abstract: a codec is a pair of
 * functions, sign(payload, options, now) and verify(token, secret, now).  What
 * the core may rely on about a real JWT implementation is stated as
 * predicates, which the lemmas that need them require.
 */
module Jwt {
  import opened Entities

  /** The claims both tokens carry. */
  datatype Payload = Payload(sub: int, role: UserRole, version: int)

  /** JWTTokens: the access token (`token`) and the refresh token. */
  datatype TokenPair = TokenPair(token: string, refreshToken: string)

  /** The options given to jwtService.sign. */
  datatype SignOptions = SignOptions(secret: string, expiresIn: string)

  /**
   * What jwtService.verifyAsync yields: the payload, a TokenExpiredError, or any
   * other verification error (bad signature, malformed token, ...).
   */
  datatype Verification = Verified(payload: Payload) | Expired | Rejected

  /**
   * `signable` tells whether jwtService.sign accepts the options or throws (as
   * jsonwebtoken does for an empty secret, or an expiresIn that `ms` cannot
   * read); `sign` gives the token it returns when it does not throw.
   */
  datatype Codec = Codec(
    signable: SignOptions -> bool,
    sign: (Payload, SignOptions, Instant) -> string,
    verify: (string, string, Instant) -> Verification)

  /**
   * Tokens signed with the options `o` verify, at the moment they are issued,
   * under the secret they were signed with, giving back their payload.  A real
   * library gives this only for options whose expiresIn lasts at least a
   * second: jsonwebtoken accepts "0", "500ms" or "-1d" and reports such a
   * token expired at once.
   */
  ghost predicate VerifiesOwnTokens(c: Codec, o: SignOptions) {
    c.signable(o) ==> forall p, t :: c.verify(c.sign(p, o, t), o.secret, t) == Verified(p)
  }

  /** jsonwebtoken's sign throws when the secret is empty ("secretOrPrivateKey must have a value"). */
  ghost predicate RefusesEmptySecret(c: Codec) {
    forall o: SignOptions :: o.secret == "" ==> !c.signable(o)
  }

  /** The payload a token yields does not depend on when it is verified. */
  ghost predicate StableClaims(c: Codec) {
    forall token, secret, t1, t2 ::
      c.verify(token, secret, t1).Verified? && c.verify(token, secret, t2).Verified? ==>
      c.verify(token, secret, t1) == c.verify(token, secret, t2)
  }

  /**
   * A token never verifies under a secret other than the one it was signed
   * with.  This is an idealisation: HMAC pads short keys with zero bytes, so
   * secrets differing only in trailing zero characters sign alike.
   */
  ghost predicate SecretBound(c: Codec) {
    forall p, o: SignOptions, t, secret, t' :: secret != o.secret ==> !c.verify(c.sign(p, o, t), secret, t').Verified?
  }
}
