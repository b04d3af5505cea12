/**
 * The session lifecycle across the services: tokens issued at login unlock
 * the guarded routes and the refresh endpoint, logout revokes both, and a
 * password change revokes neither.
 */
module Lifecycle {
  import opened Exceptions
  import opened Entities
  import opened Jwt
  import opened Encryption
  import Redis
  import opened Repository
  import opened Tokens
  import opened AccessTokenStrategy
  import opened Auth
  import IsCreatorGuard

  /** A freshly issued access token lets its user through the access-token strategy at once. */
  lemma IssuedAccessTokenAuthenticates(env: Env, users: map<int, User>, id: int, now: Instant)
    requires VerifiesOwnTokens(env.codec, AccessOptions(env.settings)) && Signable(env) && KeysMatch(users) && id in users
    ensures Authentication(env.codec, env.settings.accessTokenSecret, users, SignPair(env, users[id], now).token, now)
            == Ok(users[id])
  {
    SignPairClaims(env, users[id], now);
  }

  /** A freshly issued (non-empty) refresh token passes verifyRefreshToken for its user at once. */
  lemma IssuedRefreshTokenVerifies(env: Env, store: Redis.Store, user: User, now: Instant)
    requires VerifiesOwnTokens(env.codec, RefreshOptions(env.settings))
    requires Issue(env, store, user, now).result.Ok?
    requires Issue(env, store, user, now).result.value.refreshToken != ""
    ensures VerifyRefresh(env, Issue(env, store, user, now).store, Issue(env, store, user, now).result.value.refreshToken, now)
            == Ok(user.userId)
  {
    IssueStoresRefreshToken(env, store, user, now);
    SignPairClaims(env, user, now);
  }

  /**
   * A refresh lifetime the library reads as less than a second ("1" is one
   * millisecond to jsonwebtoken) gives a refresh token that is stored for the
   * session lifetime but reported expired as soon as it is presented.
   */
  lemma ShortLivedRefreshTokenExpires(env: Env, store: Redis.Store, user: User, now: Instant)
    requires Issue(env, store, user, now).result.Ok?
    requires env.codec.verify(SignPair(env, user, now).refreshToken, env.settings.refreshTokenSecret, now).Expired?
    ensures var step := Issue(env, store, user, now);
            && step.store[SessionSlot(env.keyPrefix, user.userId)] == Redis.Entry(step.result.value.refreshToken, Some(env.refreshTtl))
            && VerifyRefresh(env, step.store, step.result.value.refreshToken, now) == Err(Unauthorized(RefreshExpiredMessage))
  {
    IssueStoresRefreshToken(env, store, user, now);
  }

  /**
   * Separate secrets keep the two kinds of token apart the other way too: a
   * refresh token presented as a bearer token is refused by the access-token
   * strategy, at any time.
   */
  lemma RefreshTokenIsNoAccessToken(env: Env, users: map<int, User>, user: User, now: Instant, later: Instant)
    requires SecretBound(env.codec)
    requires env.settings.accessTokenSecret != env.settings.refreshTokenSecret
    ensures Authentication(env.codec, env.settings.accessTokenSecret, users, SignPair(env, user, now).refreshToken, later)
            == Err(Unauthorized(UnauthorizedMessage))
  {
    var p := PayloadOf(user);
    assert !env.codec.verify(env.codec.sign(p, RefreshOptions(env.settings), now), env.settings.accessTokenSecret, later).Verified?;
  }

  /**
   * Behind the access-token strategy, the creator guard lets a request through
   * exactly when the route's id is the subject of the bearer token: ownership
   * is decided by the token, whoever else holds the same email or role.
   */
  lemma CreatorIsTokenSubject(codec: Codec, secret: string, users: map<int, User>, token: string, now: Instant,
                              ownerId: Option<int>)
    requires KeysMatch(users)
    requires Authentication(codec, secret, users, token, now).Ok?
    ensures codec.verify(token, secret, now).Verified?
    ensures IsCreatorGuard.IsCreator(Some(Authentication(codec, secret, users, token, now).value), ownerId)
            <==> ownerId == Some(codec.verify(token, secret, now).payload.sub)
  {
    AuthenticatedUserIsSubject(codec, secret, users, token, now);
  }

  /**
   * Logout revokes every access token of the user: a token that let the user
   * through before the logout is refused afterwards, at any time, provided the
   * codec's claims do not change over time.
   */
  lemma LogoutRevokesAccessTokens(codec: Codec, secret: string, prefix: string, users: map<int, User>,
                                  store: Redis.Store, id: int, token: string, before: Instant, after: Instant)
    requires KeysMatch(users) && StableClaims(codec)
    requires Authentication(codec, secret, users, token, before).Ok?
    requires Authentication(codec, secret, users, token, before).value.userId == id
    requires SignOut(prefix, users, store, id).result.Ok?
    ensures Authentication(codec, secret, SignOut(prefix, users, store, id).users, token, after)
            == Err(Unauthorized(if codec.verify(token, secret, after).Verified? then InvalidatedMessage else UnauthorizedMessage))
  {
    var users' := SignOut(prefix, users, store, id).users;
    AuthenticationAccepts(codec, secret, users, token, before);
    AuthenticationAccepts(codec, secret, users', token, after);
    SignOutOutcome(prefix, users, store, id);
    if codec.verify(token, secret, after).Verified? {
      assert codec.verify(token, secret, before) == codec.verify(token, secret, after);
    }
  }

  /** Logout leaves every other user's access tokens as valid as they were. */
  lemma LogoutKeepsOthersSignedIn(codec: Codec, secret: string, prefix: string, users: map<int, User>,
                                  store: Redis.Store, id: int, token: string, t: Instant)
    requires SignOut(prefix, users, store, id).result.Ok?
    requires codec.verify(token, secret, t).Verified? && codec.verify(token, secret, t).payload.sub != id
    ensures Authentication(codec, secret, SignOut(prefix, users, store, id).users, token, t)
            == Authentication(codec, secret, users, token, t)
  {
    SignOutOutcome(prefix, users, store, id);
  }

  /** After logout no refresh token, old or new, passes verifyRefreshToken for that user. */
  lemma LogoutEndsRefreshSession(env: Env, users: map<int, User>, store: Redis.Store, id: int, token: string, t: Instant)
    requires SignOut(env.keyPrefix, users, store, id).result.Ok?
    ensures var r := VerifyRefresh(env, SignOut(env.keyPrefix, users, store, id).store, token, t);
            r.Ok? ==> r.value != id
  {
    SignOutOutcome(env.keyPrefix, users, store, id);
  }

  /**
   * A password change revokes nothing: every access token is accepted after it
   * exactly when it was accepted before.
   */
  lemma PasswordChangeKeepsAccessTokens(codec: Codec, secret: string, h: Hasher, users: map<int, User>, store: Redis.Store,
                                        id: int, oldPassword: string, newPassword: string, salt: string,
                                        token: string, t: Instant)
    ensures var users' := ChangePassword(h, users, store, id, oldPassword, newPassword, salt).users;
            Authentication(codec, secret, users', token, t).Ok? <==> Authentication(codec, secret, users, token, t).Ok?
  {
    ChangePasswordOutcome(h, users, store, id, oldPassword, newPassword, salt);
    AuthenticationAccepts(codec, secret, users, token, t);
    var users' := ChangePassword(h, users, store, id, oldPassword, newPassword, salt).users;
    AuthenticationAccepts(codec, secret, users', token, t);
    var v := codec.verify(token, secret, t);
    if v.Verified? && v.payload.sub in users {
      assert users'[v.payload.sub].(password := users[v.payload.sub].password) == users[v.payload.sub];
    }
  }

  /**
   * Sign-up followed by login with the same password: with a hasher that
   * accepts its own hashes, options the library signs with and a positive
   * session lifetime, the login succeeds
   * for the account just created and is issued that account's tokens.
   */
  method SignupThenLogin(auth: AuthService, dto: CreateUserDto, role: Option<UserRole>, salt: string, now: Instant, later: Instant)
    returns (signed: Result<User>, pair: Result<TokenPair>)
    requires auth.Valid() && AcceptsOwnHashes(auth.hasher)
    requires !EmailTaken(auth.repo.users, dto.email)
    requires auth.tokens.codec.signable(AccessOptions(auth.tokens.settings))
    requires auth.tokens.codec.signable(RefreshOptions(auth.tokens.settings))
    requires auth.tokens.Environment().refreshTtl > 0
    modifies auth.repo, auth.tokens.redis
    ensures auth.Valid()
    ensures signed.Ok? && pair.Ok?
    ensures pair.value == SignPair(auth.tokens.Environment(), signed.value.(lastLogin := later), later)
  {
    ghost var env := auth.tokens.Environment();
    ghost var store := auth.tokens.redis.store;
    ghost var initial := auth.repo.users;
    signed := auth.Signup(dto, role, salt, now);
    var u := signed.value;
    ghost var users := auth.repo.users;
    assert users[u.userId] == u;
    ghost var who;
    pair, who := auth.Login(dto.email, dto.password, later);
    // no account had this email before, so the one found is the new account
    assert who.value !in initial;
    assert auth.hasher.verify(u.password, dto.password);
    LoginOutcome(env, auth.hasher, users, store, u.userId, dto.password, later);
  }
}
