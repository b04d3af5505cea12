/**
 * TokenService: issuing an access/refresh token pair, keeping the current
 * refresh token of each user in a cache slot, and rotating that slot on
 * refresh.  The pure functions below give the result and the new cache
 * contents of each operation; the class's methods perform the same steps in
 * the source's order and are proved to agree with them.
 */
module Tokens {
  import opened Exceptions
  import opened Entities
  import opened Jwt
  import JsRuntime
  import Utils
  import Redis
  import opened Repository

  /** The four configuration values read at construction. */
  datatype Settings = Settings(
    accessTokenSecret: string,
    accessTokenExpiration: string,
    refreshTokenSecret: string,
    refreshTokenExpiration: string)

  /**
   * Everything the token operations depend on besides the data: the codec, the
   * settings, the cache's key prefix, and the session lifetime in seconds that
   * getTokens derives from the refresh expiration setting.
   */
  datatype Env = Env(codec: Codec, settings: Settings, keyPrefix: string, refreshTtl: int)

  /** The result of an operation together with the cache contents it leaves behind. */
  datatype Step<T> = Step(result: Result<T>, store: Redis.Store)

  const SessionKeyPrefix := "refresh_token_"
  const RefreshExpiredMessage := "Refresh token expired."
  const InvalidRefreshMessage := "Invalid refresh token."
  const MissingSessionMessage := "Refresh token does not exist or is no longer valid."
  const CouldNotRefreshMessage := "Could not refresh the token. Please try again or log in."

  /** The cache key of a user's session record, `refresh_token_${userId}`. */
  function SessionKey(userId: int): string {
    SessionKeyPrefix + JsRuntime.IntToString(userId)
  }

  /** The full key of a user's session record in the cache. */
  function SessionSlot(prefix: string, userId: int): string {
    Redis.FormatKey(prefix, SessionKey(userId))
  }

  /** Different users never share a session record. */
  lemma SessionSlotsDistinct(prefix: string, a: int, b: int)
    requires a != b
    ensures SessionSlot(prefix, a) != SessionSlot(prefix, b)
  {
    JsRuntime.IntToStringInjective(a, b);
    assert SessionKey(a)[|SessionKeyPrefix|..] == JsRuntime.IntToString(a);
    assert SessionKey(b)[|SessionKeyPrefix|..] == JsRuntime.IntToString(b);
    Redis.FormatKeyInjective(prefix, SessionKey(a), SessionKey(b));
  }

  /** The claims both tokens of a user carry. */
  function PayloadOf(user: User): Payload {
    Payload(user.userId, user.role, user.tokenVersion)
  }

  function AccessOptions(s: Settings): SignOptions {
    SignOptions(s.accessTokenSecret, s.accessTokenExpiration)
  }

  function RefreshOptions(s: Settings): SignOptions {
    SignOptions(s.refreshTokenSecret, s.refreshTokenExpiration)
  }

  /** generateAccessToken and generateRefreshToken applied to the one payload built from the user. */
  function SignPair(env: Env, user: User, now: Instant): TokenPair {
    var payload := PayloadOf(user);
    TokenPair(env.codec.sign(payload, AccessOptions(env.settings), now),
              env.codec.sign(payload, RefreshOptions(env.settings), now))
  }

  /** Whether jwtService.sign accepts both the access and the refresh options, rather than throwing. */
  predicate Signable(env: Env) {
    env.codec.signable(AccessOptions(env.settings)) && env.codec.signable(RefreshOptions(env.settings))
  }

  /**
   * getTokens: sign the access token, then the refresh token (either may
   * throw), then store the refresh token in the user's session record.
   */
  function Issue(env: Env, store: Redis.Store, user: User, now: Instant): Step<TokenPair> {
    if !env.codec.signable(AccessOptions(env.settings)) || !env.codec.signable(RefreshOptions(env.settings)) then
      Step(Err(SignError), store)
    else
      var pair := SignPair(env, user, now);
      var written := Redis.Write(store, SessionSlot(env.keyPrefix, user.userId), pair.refreshToken, Some(env.refreshTtl));
      if written.Ok? then Step(Ok(pair), written.value) else Step(Err(written.error), store)
  }

  /** refreshTokenExists: the cached value under the user's slot is string-equal to the token. */
  predicate SessionHolds(prefix: string, store: Redis.Store, userId: int, token: string) {
    Redis.Read(store, SessionSlot(prefix, userId)) == Some(token)
  }

  /**
   * verifyRefreshToken: the token must verify under the refresh secret, and the
   * session record of its subject must hold exactly this token.  An expired
   * token is reported as such; every other failure, the missing or different
   * record included, as an invalid token.
   */
  function VerifyRefresh(env: Env, store: Redis.Store, token: string, now: Instant): (r: Result<int>)
    ensures var v := env.codec.verify(token, env.settings.refreshTokenSecret, now);
            && (r.Ok? <==> v.Verified? && SessionHolds(env.keyPrefix, store, v.payload.sub, token))
            && (r.Ok? ==> r.value == v.payload.sub)
            && (r.Err? ==> r.error == Unauthorized(if v.Expired? then RefreshExpiredMessage else InvalidRefreshMessage))
  {
    match env.codec.verify(token, env.settings.refreshTokenSecret, now)
    case Expired => Err(Unauthorized(RefreshExpiredMessage))
    case Rejected => Err(Unauthorized(InvalidRefreshMessage))
    case Verified(payload) =>
      if SessionHolds(env.keyPrefix, store, payload.sub, token) then Ok(payload.sub)
      else Err(Unauthorized(InvalidRefreshMessage))
  }

  /**
   * refreshToken: verify, delete the session record, fetch the user, issue a new
   * pair and store its refresh token once more.  Any failure on the way is
   * reported as the one "could not refresh" denial, and leaves the cache as the
   * failing step left it.
   */
  function Refresh(env: Env, store: Redis.Store, users: map<int, User>, token: string, now: Instant): Step<TokenPair> {
    var denied := Err(Unauthorized(CouldNotRefreshMessage));
    var verified := VerifyRefresh(env, store, token, now);
    if verified.Err? then Step(denied, store)
    else
      var userId := verified.value;
      var removed := Redis.Remove(store, SessionSlot(env.keyPrefix, userId));
      if removed.Err? then Step(denied, store)
      else if userId !in users then Step(denied, removed.value)
      else
        var issued := Issue(env, removed.value, users[userId], now);
        if issued.result.Err? then Step(denied, issued.store)
        else
          var pair := issued.result.value;
          var rewritten := Redis.Write(issued.store, SessionSlot(env.keyPrefix, userId), pair.refreshToken, Some(env.refreshTtl));
          if rewritten.Err? then Step(denied, issued.store) else Step(Ok(pair), rewritten.value)
  }

  /**
   * Both tokens are signed from one payload whose sub, role and version are the
   * user's id, role and token version, with the access and refresh options
   * respectively.  When the library signs with an option set whose tokens
   * verify at once, that token verifies under its own secret at the moment of
   * issue.
   */
  lemma SignPairClaims(env: Env, user: User, now: Instant)
    ensures var pair := SignPair(env, user, now);
            var p := Payload(user.userId, user.role, user.tokenVersion);
            && pair.token == env.codec.sign(p, SignOptions(env.settings.accessTokenSecret, env.settings.accessTokenExpiration), now)
            && pair.refreshToken == env.codec.sign(p, SignOptions(env.settings.refreshTokenSecret, env.settings.refreshTokenExpiration), now)
            && (VerifiesOwnTokens(env.codec, AccessOptions(env.settings)) && env.codec.signable(AccessOptions(env.settings)) ==>
                  env.codec.verify(pair.token, env.settings.accessTokenSecret, now) == Verified(p))
            && (VerifiesOwnTokens(env.codec, RefreshOptions(env.settings)) && env.codec.signable(RefreshOptions(env.settings)) ==>
                  env.codec.verify(pair.refreshToken, env.settings.refreshTokenSecret, now) == Verified(p))
  {
  }

  /**
   * getTokens succeeds exactly when the library signs with both option sets and
   * the refresh lifetime is a positive number of seconds; it then leaves the
   * user's session record holding the returned refresh token with that
   * lifetime, whatever the record held before, and every other key as it was.
   * A signing failure comes first, before the cache is called; when it fails,
   * the cache is unchanged.
   */
  lemma IssueStoresRefreshToken(env: Env, store: Redis.Store, user: User, now: Instant)
    ensures var step := Issue(env, store, user, now);
            var slot := SessionSlot(env.keyPrefix, user.userId);
            && (step.result.Ok? <==> Signable(env) && env.refreshTtl > 0)
            && (step.result.Err? ==> step.store == store)
            && (!Signable(env) ==> step.result == Err(SignError))
            && (Signable(env) && env.refreshTtl <= 0 ==> step.result == Err(CacheReplyError(Redis.InvalidExpireMessage)))
            && (step.result.Ok? ==>
                  && step.result.value == SignPair(env, user, now)
                  && step.store.Keys == store.Keys + {slot}
                  && step.store[slot] == Redis.Entry(step.result.value.refreshToken, Some(env.refreshTtl))
                  && forall k :: k in store && k != slot ==> step.store[k] == store[k])
  {
    Redis.WriteOverwrites(store, SessionSlot(env.keyPrefix, user.userId), SignPair(env, user, now).refreshToken, Some(env.refreshTtl));
  }

  /**
   * With a library that refuses an empty secret, an unset (empty) access or
   * refresh secret makes every getTokens throw before the cache is called.
   */
  lemma EmptySecretStopsIssue(env: Env, store: Redis.Store, user: User, now: Instant)
    requires RefusesEmptySecret(env.codec)
    requires env.settings.accessTokenSecret == "" || env.settings.refreshTokenSecret == ""
    ensures Issue(env, store, user, now) == Step(Err(SignError), store)
  {
    assert !Signable(env);
  }

  /**
   * Single active session: two successive issues for one user leave one record
   * for that user, holding the second refresh token, and the cache otherwise as
   * the first issue found it.
   */
  lemma LatestIssueWins(env: Env, store: Redis.Store, user: User, first: Instant, second: Instant)
    requires Issue(env, store, user, first).result.Ok?
    ensures var s1 := Issue(env, store, user, first).store;
            var step := Issue(env, s1, user, second);
            && step.result.Ok?
            && step.store == store[SessionSlot(env.keyPrefix, user.userId) :=
                                     Redis.Entry(SignPair(env, user, second).refreshToken, Some(env.refreshTtl))]
  {
    var slot := SessionSlot(env.keyPrefix, user.userId);
    var ttl := Some(env.refreshTtl);
    var s1 := Issue(env, store, user, first).store;
    assert s1 == store[slot := Redis.Entry(SignPair(env, user, first).refreshToken, ttl)];
    var e2 := Redis.Entry(SignPair(env, user, second).refreshToken, ttl);
    assert s1[slot := e2] == store[slot := e2];
  }

  /** Every failure of refreshToken is the same UnauthorizedException. */
  lemma RefreshFailsUniformly(env: Env, store: Redis.Store, users: map<int, User>, token: string, now: Instant)
    ensures var step := Refresh(env, store, users, token, now);
            step.result.Err? ==> step.result.error == Unauthorized(CouldNotRefreshMessage)
  {
  }

  /**
   * refreshToken succeeds exactly when the presented token passes
   * verifyRefreshToken, its subject is still a user, and the refresh lifetime is
   * positive and the library signs; the new pair is then the one signed for the user as currently
   * stored (with the current token version), and the user's session record is
   * left holding the new refresh token, with nothing else in the cache changed.
   */
  lemma RefreshSucceeds(env: Env, store: Redis.Store, users: map<int, User>, token: string, now: Instant)
    requires KeysMatch(users)
    ensures var step := Refresh(env, store, users, token, now);
            var verified := VerifyRefresh(env, store, token, now);
            && (step.result.Ok? <==> verified.Ok? && verified.value in users && Signable(env) && env.refreshTtl > 0)
            && (step.result.Ok? ==>
                  var userId := verified.value;
                  && step.result.value == SignPair(env, users[userId], now)
                  && step.store == store[SessionSlot(env.keyPrefix, userId) :=
                                          Redis.Entry(step.result.value.refreshToken, Some(env.refreshTtl))])
  {
    var verified := VerifyRefresh(env, store, token, now);
    if verified.Ok? {
      var userId := verified.value;
      var slot := SessionSlot(env.keyPrefix, userId);
      assert slot in store;
      var cleared := store - {slot};
      if userId in users && Signable(env) && env.refreshTtl > 0 {
        assert users[userId].userId == userId;
        var e := Redis.Entry(SignPair(env, users[userId], now).refreshToken, Some(env.refreshTtl));
        assert Issue(env, cleared, users[userId], now).store == cleared[slot := e];
        assert cleared[slot := e][slot := e] == store[slot := e];
      }
    }
  }

  /** If the user is gone when its token is refreshed, the refresh fails and the session record stays deleted. */
  lemma RefreshOfRemovedUser(env: Env, store: Redis.Store, users: map<int, User>, token: string, now: Instant)
    requires VerifyRefresh(env, store, token, now).Ok?
    requires VerifyRefresh(env, store, token, now).value !in users
    ensures var step := Refresh(env, store, users, token, now);
            && step.result == Err(Unauthorized(CouldNotRefreshMessage))
            && step.store == store - {SessionSlot(env.keyPrefix, VerifyRefresh(env, store, token, now).value)}
  {
  }

  /** A token that fails verifyRefreshToken leaves the cache untouched. */
  lemma RefreshRejectedLeavesCache(env: Env, store: Redis.Store, users: map<int, User>, token: string, now: Instant)
    requires VerifyRefresh(env, store, token, now).Err?
    ensures Refresh(env, store, users, token, now) == Step(Err(Unauthorized(CouldNotRefreshMessage)), store)
  {
  }

  /**
   * After a successful refresh, the only refresh token accepted for that user,
   * at any later time, is the new one: any other string, the presented token
   * included unless it happens to be identical, is rejected.
   */
  lemma RotationAcceptsOnlyNewToken(env: Env, store: Redis.Store, users: map<int, User>,
                                    token: string, now: Instant, other: string, later: Instant)
    requires KeysMatch(users)
    requires Refresh(env, store, users, token, now).result.Ok?
    ensures var step := Refresh(env, store, users, token, now);
            var userId := VerifyRefresh(env, store, token, now).value;
            var again := VerifyRefresh(env, step.store, other, later);
            again.Ok? && again.value == userId ==> other == step.result.value.refreshToken
  {
    RefreshSucceeds(env, store, users, token, now);
  }

  /**
   * Replay after rotation: with a codec whose claims do not change over time,
   * presenting the rotated-away token again fails unless the new refresh token
   * is string-identical to it.
   */
  lemma RotatedTokenIsRetired(env: Env, store: Redis.Store, users: map<int, User>,
                              token: string, now: Instant, later: Instant)
    requires KeysMatch(users) && StableClaims(env.codec)
    requires Refresh(env, store, users, token, now).result.Ok?
    ensures var step := Refresh(env, store, users, token, now);
            VerifyRefresh(env, step.store, token, later).Ok? ==> token == step.result.value.refreshToken
  {
    var step := Refresh(env, store, users, token, now);
    if VerifyRefresh(env, step.store, token, later).Ok? {
      var secret := env.settings.refreshTokenSecret;
      assert env.codec.verify(token, secret, now) == env.codec.verify(token, secret, later);
      RotationAcceptsOnlyNewToken(env, store, users, token, now, token, later);
    }
  }

  /** A refresh changes no session record other than the refreshing user's. */
  lemma RefreshKeepsOtherSessions(env: Env, store: Redis.Store, users: map<int, User>,
                                  token: string, now: Instant, key: string)
    requires KeysMatch(users)
    requires VerifyRefresh(env, store, token, now).Ok?
    requires key != SessionSlot(env.keyPrefix, VerifyRefresh(env, store, token, now).value)
    ensures var s := Refresh(env, store, users, token, now).store;
            (key in s <==> key in store) && (key in s ==> s[key] == store[key])
  {
    var userId := VerifyRefresh(env, store, token, now).value;
    if userId in users {
      assert users[userId].userId == userId;
    }
  }

  /**
   * Separate secrets keep the two kinds of token apart: an access token is never
   * accepted as a refresh token.
   */
  lemma AccessTokenIsNoRefreshToken(env: Env, store: Redis.Store, user: User, now: Instant, later: Instant)
    requires SecretBound(env.codec)
    requires env.settings.accessTokenSecret != env.settings.refreshTokenSecret
    ensures VerifyRefresh(env, store, SignPair(env, user, now).token, later).Err?
  {
    var p := PayloadOf(user);
    assert !env.codec.verify(env.codec.sign(p, AccessOptions(env.settings), now), env.settings.refreshTokenSecret, later).Verified?;
  }

  class TokenService {
    const repo: UserRepository
    const codec: Codec
    const settings: Settings
    const redis: Redis.RedisService

    constructor (repo: UserRepository, codec: Codec, settings: Settings, redis: Redis.RedisService)
      ensures this.repo == repo && this.codec == codec && this.settings == settings && this.redis == redis
    {
      this.repo := repo;
      this.codec := codec;
      this.settings := settings;
      this.redis := redis;
    }

    function Environment(): Env {
      Env(codec, settings, redis.keyPrefix, Utils.ConvertDaysToSeconds(settings.refreshTokenExpiration))
    }

    /** jwtService.sign with the access options: the token, or the error sign throws. */
    function GenerateAccessToken(payload: Payload, now: Instant): Result<string> {
      var options := SignOptions(settings.accessTokenSecret, settings.accessTokenExpiration);
      if codec.signable(options) then Ok(codec.sign(payload, options, now)) else Err(SignError)
    }

    /** jwtService.sign with the refresh options: the token, or the error sign throws. */
    function GenerateRefreshToken(payload: Payload, now: Instant): Result<string> {
      var options := SignOptions(settings.refreshTokenSecret, settings.refreshTokenExpiration);
      if codec.signable(options) then Ok(codec.sign(payload, options, now)) else Err(SignError)
    }

    method GetTokens(user: User, now: Instant) returns (r: Result<TokenPair>)
      modifies redis
      ensures Step(r, redis.store) == Issue(Environment(), old(redis.store), user, now)
    {
      var payload := Payload(user.userId, user.role, user.tokenVersion);
      var token := GenerateAccessToken(payload, now);
      if token.Err? {
        return Err(token.error);
      }
      var refreshToken := GenerateRefreshToken(payload, now);
      if refreshToken.Err? {
        return Err(refreshToken.error);
      }
      var refreshTokenTtl := Utils.ConvertDaysToSeconds(settings.refreshTokenExpiration);
      var stored := redis.Set(SessionKey(user.userId), Redis.Text(refreshToken.value), Some(refreshTokenTtl));
      if stored.Err? {
        return Err(stored.error);
      }
      return Ok(TokenPair(token.value, refreshToken.value));
    }

    method RefreshToken(token: string, now: Instant) returns (r: Result<TokenPair>)
      requires repo.Valid()
      modifies redis
      ensures Step(r, redis.store) == Refresh(Environment(), old(redis.store), repo.users, token, now)
    {
      var denied := Err(Unauthorized(CouldNotRefreshMessage));
      var verified := VerifyRefreshToken(token, now);
      if verified.Err? {
        return denied;
      }
      var userId := verified.value;
      var removed := RemoveRefreshToken(userId);
      if removed.Err? {
        return denied;
      }
      var user := repo.FindOneBy(userId);
      if user.None? {
        // findOneOrFail rejects with EntityNotFoundError, caught like every other failure
        return denied;
      }
      var tokens := GetTokens(user.value, now);
      if tokens.Err? {
        return denied;
      }
      var refreshTokenTtl := Utils.ConvertDaysToSeconds(settings.refreshTokenExpiration);
      var stored := redis.Set(SessionKey(userId), Redis.Text(tokens.value.refreshToken), Some(refreshTokenTtl));
      if stored.Err? {
        return denied;
      }
      return tokens;
    }

    method VerifyRefreshToken(token: string, now: Instant) returns (r: Result<int>)
      ensures r == VerifyRefresh(Environment(), redis.store, token, now)
    {
      // the try block: its outcome, or the exception it throws
      var attempt: Result<int>;
      match codec.verify(token, settings.refreshTokenSecret, now) {
        case Expired => attempt := Err(TokenExpiredError);
        case Rejected => attempt := Err(JsonWebTokenError);
        case Verified(payload) =>
          var userId := payload.sub;
          var tokenExists := RefreshTokenExists(userId, token);
          if !tokenExists {
            attempt := Err(Unauthorized(MissingSessionMessage));
          } else {
            attempt := Ok(userId);
          }
      }
      // the catch block: only a TokenExpiredError is reported as expiry
      if attempt.Err? {
        if attempt.error == TokenExpiredError {
          return Err(Unauthorized(RefreshExpiredMessage));
        }
        return Err(Unauthorized(InvalidRefreshMessage));
      }
      return attempt;
    }

    method RemoveRefreshToken(userId: int) returns (r: Result<()>)
      modifies redis
      ensures var d := Redis.Remove(old(redis.store), SessionSlot(redis.keyPrefix, userId));
              && (d.Ok? ==> r == Ok(()) && redis.store == d.value)
              && (d.Err? ==> r == Err(d.error) && redis.store == old(redis.store))
    {
      var deleted := redis.Del(SessionKey(userId));
      if deleted.Err? {
        return Err(deleted.error);
      }
      return Ok(());
    }

    method RefreshTokenExists(userId: int, refreshToken: string) returns (exists_: bool)
      ensures exists_ == SessionHolds(redis.keyPrefix, redis.store, userId, refreshToken)
    {
      var storedToken := redis.Get(SessionKey(userId));
      exists_ := storedToken == Some(refreshToken);
    }
  }
}
