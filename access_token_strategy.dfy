/**
 * AccessTokenStrategy: the passport-jwt strategy guarding authenticated routes.
 * passport-jwt verifies the bearer token under the access secret, expiry
 * enforced; the strategy's validate then accepts the payload only while its
 * version matches the stored user's token version.
 */
module AccessTokenStrategy {
  import opened Exceptions
  import opened Entities
  import opened Jwt
  import opened Repository

  const InvalidatedMessage := "Token has been invalidated"

  /** The message of the TypeError passport-jwt's Strategy constructor throws when it is given no secret. */
  const MissingSecretMessage := "JwtStrategy requires a secret or key"

  /** The message of the UnauthorizedException the passport guard raises when verification fails. */
  const UnauthorizedMessage := "Unauthorized"

  /** `configService.get('JWT_ACCESS_TOKEN_SECRET') ?? ''`. */
  function SecretOrKey(configured: Option<string>): (secret: string)
    ensures configured.Some? ==> secret == configured.value
    ensures configured.None? ==> secret == ""
  {
    if configured.Some? then configured.value else ""
  }

  /**
   * validate(payload): the stored user with id `sub`, provided it still has the
   * token version the payload carries.
   */
  function Validation(users: map<int, User>, payload: Payload): (r: Result<User>)
    ensures r.Ok? <==> payload.sub in users && users[payload.sub].tokenVersion == payload.version
    ensures r.Ok? ==> r.value == users[payload.sub]
    ensures r.Err? ==> r.error == Unauthorized(InvalidatedMessage)
  {
    if payload.sub !in users || users[payload.sub].tokenVersion != payload.version then Err(Unauthorized(InvalidatedMessage))
    else Ok(users[payload.sub])
  }

  /**
   * The whole check of a request's bearer token: verification by passport-jwt,
   * whose failures (expired included) become a plain 401, then validate.
   */
  function Authentication(codec: Codec, secret: string, users: map<int, User>, token: string, now: Instant): Result<User> {
    match codec.verify(token, secret, now)
    case Verified(payload) => Validation(users, payload)
    case _ => Err(Unauthorized(UnauthorizedMessage))
  }

  /**
   * A request is let through exactly when its token verifies under the access
   * secret and names a stored user at the user's current token version; the
   * request is then attached to that user.  An expired or forged token and a
   * valid but revoked one are told apart only by the message.
   */
  lemma AuthenticationAccepts(codec: Codec, secret: string, users: map<int, User>, token: string, now: Instant)
    ensures var r := Authentication(codec, secret, users, token, now);
            var v := codec.verify(token, secret, now);
            && (r.Ok? <==> v.Verified? && v.payload.sub in users && users[v.payload.sub].tokenVersion == v.payload.version)
            && (r.Ok? ==> r.value == users[v.payload.sub])
            && (r.Err? ==> r.error == Unauthorized(if v.Verified? then InvalidatedMessage else UnauthorizedMessage))
  {
  }

  /** Once the stored version differs from the token's, the token is refused whatever else it says. */
  lemma StaleVersionRejected(users: map<int, User>, payload: Payload)
    requires payload.sub in users && users[payload.sub].tokenVersion != payload.version
    ensures Validation(users, payload) == Err(Unauthorized(InvalidatedMessage))
  {
  }

  /** The user let through carries the id the token names. */
  lemma AuthenticatedUserIsSubject(codec: Codec, secret: string, users: map<int, User>, token: string, now: Instant)
    requires KeysMatch(users)
    requires Authentication(codec, secret, users, token, now).Ok?
    ensures codec.verify(token, secret, now).Verified?
    ensures Authentication(codec, secret, users, token, now).value.userId == codec.verify(token, secret, now).payload.sub
  {
    AuthenticationAccepts(codec, secret, users, token, now);
  }

  class AccessTokenStrategy {
    const repo: UserRepository
    const codec: Codec
    const secretOrKey: string

    /** passport-jwt accepts only a non-empty secret; `Create` gives what happens otherwise. */
    constructor (repo: UserRepository, codec: Codec, configured: Option<string>)
      requires SecretOrKey(configured) != ""
      ensures this.repo == repo && this.codec == codec && secretOrKey == SecretOrKey(configured)
    {
      this.repo := repo;
      this.codec := codec;
      secretOrKey := SecretOrKey(configured);
    }

    /**
     * `new AccessTokenStrategy(...)`: the secret `?? ''` gives is handed to
     * passport-jwt, whose constructor throws a TypeError when it is empty, that
     * is whenever the setting is unset or empty; otherwise the strategy holds it.
     */
    static method Create(repo: UserRepository, codec: Codec, configured: Option<string>)
      returns (r: Result<AccessTokenStrategy>)
      ensures r.Err? <==> configured.None? || configured.value == ""
      ensures r.Err? ==> r.error == TypeError(MissingSecretMessage)
      ensures r.Ok? ==> fresh(r.value) && r.value.repo == repo && r.value.codec == codec
                        && r.value.secretOrKey == configured.value
    {
      var secretOrKey := SecretOrKey(configured);
      if secretOrKey == "" {
        return Err(TypeError(MissingSecretMessage));
      }
      var strategy := new AccessTokenStrategy(repo, codec, configured);
      return Ok(strategy);
    }

    method Validate(payload: Payload) returns (r: Result<User>)
      ensures r == Validation(repo.users, payload)
    {
      var user := repo.FindOneBy(payload.sub);
      if user.None? || user.value.tokenVersion != payload.version {
        return Err(Unauthorized(InvalidatedMessage));
      }
      return Ok(user.value);
    }

    /** passport-jwt's verification of the extracted token, followed by validate. */
    method Authenticate(token: string, now: Instant) returns (r: Result<User>)
      ensures r == Authentication(codec, secretOrKey, repo.users, token, now)
    {
      var verified := codec.verify(token, secretOrKey, now);
      if !verified.Verified? {
        return Err(Unauthorized(UnauthorizedMessage));
      }
      r := Validate(verified.payload);
    }
  }
}
