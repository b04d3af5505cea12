# Authentication core of starter-nestjs, in Dafny

This project models the authentication core of the NestJS starter and proves
properties about it:

- **TokenService** issues an access/refresh JWT pair whose payload is
  `{sub, role, version}`. It keeps the current refresh token of each user in
  the cache key `refresh_token_{userId}`, and rotates that record on refresh.
- **AuthService** implements sign-up, login, password change and logout.
- **RedisService** is a prefixed key-value cache.
- **AccessTokenStrategy** is the passport-jwt strategy. It revokes access
  tokens whose `version` no longer matches the user's `tokenVersion`.
- **UsersService** and the `User` entity form the user store.
- **`convertDaysToSeconds`** is the duration helper.
- **RoleGuard** and **IsCreatorGuard** are the two authorization guards.

How the modelling works:

- **State.** The users table is a `map<int, User>`, stored in the
  `UserRepository` class. The Redis database is a `map<string, Entry>` in the
  `RedisService` class.
- **Services.** Each service is a class. Its methods perform the source's
  calls in the source's order and update those maps in place.
- **Specifications.** Each operation that can fail or changes the cache also
  has a pure specification function in its module. Examples are
  `Tokens.Issue`, `Tokens.VerifyRefresh`, `Tokens.Refresh`, `Auth.LoginAs`,
  `Auth.ChangePassword` and `Auth.SignOut`. Each maps the old state to the
  result and the new state. The methods' postconditions tie them to these
  functions, and the lemmas state what the source promises about them.
- **Cryptography is abstract.**
  - The JWT library is a `Jwt.Codec`: its `sign` and `verify` functions, and `signable`, which tells which options `sign` accepts.
  - argon2 is an `Encryption.Hasher`.
  - What the lemmas rely on about a real implementation is stated as
    predicates, and only the lemmas that need them require them.
    - `VerifiesOwnTokens(codec, options)`: a freshly signed token verifies at
      once. It is stated per option set, because jsonwebtoken gives it only
      for an `expiresIn` of at least one second. With "0", "500ms", "1" (one
      millisecond) or "-1d" it signs a token that is already expired
      (`Lifecycle.ShortLivedRefreshTokenExpires`).
    - `StableClaims`: the payload a token yields does not depend on when it
      is verified.
    - `AcceptsOwnHashes`: argon2 accepts the password it hashed.
    - `SecretBound` is an assumption rather than a guarantee: a token never
      verifies under another secret. HMAC pads short keys with zero bytes, so
      real secrets that differ only in trailing zero characters sign alike.
- **Parameters.** The clock (`now`), the argon2 salt and the configuration
  values are parameters.
- **JavaScript built-ins.** The runtime behaviour the code relies on is
  modelled in `JsRuntime`: `parseInt(s, 10)`, `String(n)` for integers, and
  `String.prototype.replace` with a one-character pattern.

Where the code and its documentation or tests disagree, the model follows the
code:

- **`del` on a missing key.** `RedisService.del` throws `NotFoundException`
  (redis.service.ts 49-52). A mocked spec expects otherwise. As a result:
  - `removeRefreshToken` fails when there is no session record.
  - So does `logout`, which then does not bump the token version.
- **Password changes.** `updatePassword` does not bump `tokenVersion` and does
  not touch the cache. Tokens issued before a password change stay valid
  (`Lifecycle.PasswordChangeKeepsAccessTokens`).
- **Sign-up role.** `signup` spreads the DTO and then overwrites `role` with
  the `role` parameter (USER when omitted). The role inside the DTO never
  reaches the row.
- **`UsersService.update`** merges the DTO as given. A password sent through
  it is stored unhashed.
- **Fresh tokens may coincide.** A newly signed token need not differ from the
  old one. Rotation therefore only guarantees that a replayed token is
  rejected *unless it is string-identical to the new refresh token*.
- **Refresh ignores the token version.** `refreshToken` does not compare the
  refresh token's `version` with the stored one. It issues the new pair with
  the user's current version.
- **Signing can throw.** jsonwebtoken's `sign` throws on an empty secret
  and on an `expiresIn` it cannot read. Which options it accepts is the
  codec's `signable`; the lemma `Tokens.EmptySecretStopsIssue` covers empty
  secrets. `getTokens` signs both tokens before it calls Redis, so such a
  failure surfaces as `SignError` with the cache untouched. Login rejects
  with that error, and refresh turns it into its usual denial.
- **Non-positive expiry.** The refresh lifetime comes from
  `convertDaysToSeconds`. It is 0 for an unparsable setting and negative for
  a negative one. Redis answers `SET ... EX` with a non-positive expiry with
  an error reply. The model carries that error (`Redis.Write`). When both
  tokens can be signed, every `getTokens` then fails with that reply, and so
  does every login. `refreshToken` catches the reply and throws its usual
  `Unauthorized('Could not refresh the token. Please try again or log in.')`
  instead (`Tokens.RefreshFailsUniformly`).
- **No access secret.** `?? ''` turns an unset `JWT_ACCESS_TOKEN_SECRET` into
  the empty string. passport-jwt's constructor then throws
  `TypeError('JwtStrategy requires a secret or key')`, so the strategy is never
  built (`AccessTokenStrategy.AccessTokenStrategy.Create`).

## Model

| member | source | states |
|---|---|---|
| JsRuntime.ReplaceFirstRemovesFirst | src/common/utils/utils.service.ts:12 | `replace('d', '')` removes exactly the first `d`, and leaves a string without one unchanged |
| JsRuntime.ReplaceFirst | src/common/utils/utils.service.ts:12 | `duration.replace('d', '')`; what it does is stated by `ReplaceFirstRemovesFirst` |
| JsRuntime.ParseInt | src/common/utils/utils.service.ts:12 | `parseInt(s, 10)`: skip leading white space and one sign, read the longest digit run, NaN (None) without digits; stated by `LeadingDigits` and `ParseIntLeadingDigits` |
| JsRuntime.LeadingDigits | src/common/utils/utils.service.ts:12 | the digit run `parseInt` reads is the longest all-digit prefix of its input |
| JsRuntime.ParseIntLeadingDigits | src/common/utils/utils.service.ts:12 | `parseInt` of a digit string followed by a non-digit gives the digits' decimal value, ignoring the rest |
| JsRuntime.IntToString | src/security/token/token.service.ts:52 | `${userId}` for an integer: a non-empty string, injective by `IntToStringInjective` |
| JsRuntime.IntToStringInjective | src/security/token/token.service.ts:114 | different user ids render as different strings in `refresh_token_${userId}` |
| Utils.ConvertDaysToSeconds | src/common/utils/utils.service.ts:11-14 | `parseInt(duration.replace('d', ''), 10)` days in seconds, 0 for NaN; the same body as token.service.ts 122-125; stated by the `Utils.Convert*` lemmas below |
| Utils.ConvertDecimalDays | src/common/utils/utils.service.ts:11-14 | for a decimal `N`, `"Nd"` converts to `N * 86400` (identical to `TokenService.convertDaysToSeconds`, token.service.ts 122-125) |
| Utils.ConvertSevenDays | src/common/utils/utils.service.ts:11-14 | `"7d"` converts to 604800 |
| Utils.ConvertGivesWholeDays | src/common/utils/utils.service.ts:13 | every result is a multiple of 86400 |
| Utils.ConvertIgnoresOtherUnits | src/common/utils/utils.service.ts:12-13 | digits followed by a unit other than `d` still count as that many days: `parseInt` stops at the first non-digit |
| Utils.ConvertOneHour | src/common/utils/utils.service.ts:12-13 | `"1h"` converts to 86400 |
| Utils.ConvertRemovesOnlyFirstD | src/common/utils/utils.service.ts:12-13 | only the first `d` is removed: `"<a>d<b>d"` converts to the number written `<a><b>`, in days |
| Utils.ConvertOneDTwoD | src/common/utils/utils.service.ts:12-13 | `"1d2d"` converts to 12 days |
| Utils.ConvertNonNumeric | src/common/utils/utils.service.ts:12-13 | a duration whose first character is not white space, a sign, a digit or `d` converts to 0 |
| Entities.Materialize | src/modules/users/entities/user.entity.ts:7-29 | a new row has the given id, email and hash; role USER and tokenVersion 1 unless given; the timestamps default to now |
| Entities.Serialize | src/modules/users/entities/user.entity.ts:13-23 | the user as class-transformer serializes it, without the excluded columns; stated by `SerializeHidesExcluded` |
| Entities.SerializeHidesExcluded | src/modules/users/entities/user.entity.ts:13-23 | password, role and tokenVersion never reach the serialized user |
| Redis.KeyPrefix | src/database/redis/redis.service.ts:15-16 | the production prefix exactly when NODE_ENV is the production value, else the development prefix |
| Redis.FormatKey | src/database/redis/redis.service.ts:19-21 | the key under the service's prefix; injective by `FormatKeyInjective` |
| Redis.Write | src/database/redis/redis.service.ts:26-29 | the store after SET, or the server's error reply; stated by `WriteOverwrites`, `WriteThenRead`, `WriteKeepsOtherKeys` |
| Redis.Read | src/database/redis/redis.service.ts:37-39 | GET with a missing key and an empty string both null; stated by `WriteThenRead` |
| Redis.Remove | src/database/redis/redis.service.ts:48-52 | the store after DEL, or the NotFoundException on a count of 0; stated by `RemoveOnlyItsKey` |
| Redis.FormatKeyInjective | src/database/redis/redis.service.ts:19-21 | distinct keys are stored under distinct prefixed keys |
| Redis.WriteOverwrites | src/database/redis/redis.service.ts:23-32 | a set succeeds exactly when its expiry, if any, is positive; it then replaces its own entry with the value and expiry and keeps every other key |
| Redis.WriteThenRead | src/database/redis/redis.service.ts:23-44 | set then get returns the stored string, or null for the empty string |
| Redis.WriteKeepsOtherKeys | src/database/redis/redis.service.ts:23-32 | a set leaves what every other key reads unchanged |
| Redis.RemoveOnlyItsKey | src/database/redis/redis.service.ts:46-54 | del succeeds exactly on a present key and removes only it; on an absent key it throws `NotFoundException('Key not found in cache: ' + fullKey)` |
| Redis.RedisService.constructor | src/database/redis/redis.service.ts:11-17 | the prefix is `KeyPrefix` of NODE_ENV, and the store starts as the given contents |
| Redis.RedisService.Set | src/database/redis/redis.service.ts:23-32 | the new store and reply are those of the SET command on the prefixed key; non-strings stored as their JSON; error reply leaves the store unchanged |
| Redis.RedisService.Get | src/database/redis/redis.service.ts:34-44 | returns the stored string under the prefixed key, null when absent or empty |
| Redis.RedisService.Del | src/database/redis/redis.service.ts:46-54 | removes the prefixed key and returns 1, or throws and changes nothing |
| Repository.UserRepository.FindOneByEmail | src/security/auth/auth.service.ts:32-34 | null exactly when no stored user has the email, else some stored user with that email |
| Repository.UserRepository.FindOneBy | src/modules/users/users.service.ts:32 | `findOneBy({ userId })`: the stored row with that key, or null exactly when there is none |
| Repository.UserRepository.Insert | src/modules/users/entities/user.entity.ts:7-8 | the new row gets the next auto-increment id, which no stored row has, and the column defaults |
| Repository.UserRepository.Save | src/security/auth/auth.service.ts:69 | saving a fetched row replaces that row and nothing else |
| Repository.UserRepository.Delete | src/modules/users/users.service.ts:65 | removing a fetched row deletes that row and nothing else |
| Users.Merge | src/modules/users/users.service.ts:51 | every field the DTO carries replaces the user's, every other column is kept |
| Users.MergeEmptyIsIdentity | src/modules/users/users.service.ts:51 | an empty update leaves the user unchanged |
| Users.UsersService.FindAll | src/modules/users/users.service.ts:21-23 | returns exactly the stored users |
| Users.UsersService.FindOne | src/modules/users/users.service.ts:31-37 | the stored user with that id, or `NotFoundException('User not found')` |
| Users.UsersService.Update | src/modules/users/users.service.ts:46-53 | missing id: NotFound and no change; else the merged user is saved under its id and returned, nothing else changes |
| Users.UsersService.Remove | src/modules/users/users.service.ts:60-66 | missing id: NotFound and no change; else only that user is deleted |
| Tokens.SessionSlotsDistinct | src/security/token/token.service.ts:52 | different users' session records never share a key |
| Tokens.SessionKey | src/security/token/token.service.ts:52 | `refresh_token_${userId}`; distinct per user by `SessionSlotsDistinct` |
| Tokens.Signable | src/security/token/token.service.ts:99-111 | whether `sign` accepts both the access and the refresh options rather than throwing |
| Tokens.SignPair | src/security/token/token.service.ts:42-49 | the two tokens signed from the user's payload; stated by `SignPairClaims` |
| Tokens.Issue | src/security/token/token.service.ts:41-54 | getTokens' result and cache; stated by `IssueStoresRefreshToken`, `EmptySecretStopsIssue`, `LatestIssueWins` |
| Tokens.SignPairClaims | src/security/token/token.service.ts:41-49 | both tokens are signed from one payload `{sub: userId, role, version: tokenVersion}`, with the access and refresh options respectively; each verifies under its own secret when its options are signable and its tokens verify at once |
| Tokens.IssueStoresRefreshToken | src/security/token/token.service.ts:51-53 | getTokens succeeds exactly when sign accepts both option sets and the lifetime is positive; otherwise `SignError` comes first, then the Redis error reply; the user's record then holds exactly the returned refresh token with that lifetime, overwriting any earlier one, other keys unchanged; a failure changes nothing |
| Tokens.EmptySecretStopsIssue | src/security/token/token.service.ts:48-49 | with a library that refuses an empty secret, an empty access or refresh secret makes getTokens throw `SignError` before the cache is called |
| Tokens.LatestIssueWins | src/security/token/token.service.ts:52 | two issues for one user leave one record, holding the second refresh token |
| Tokens.VerifyRefresh | src/security/token/token.service.ts:75-97 | returns `sub` exactly when the token verifies under the refresh secret and the record for `sub` holds this very token; expired gives 'Refresh token expired.', every other failure 'Invalid refresh token.' |
| Tokens.Refresh | src/security/token/token.service.ts:56-73 | refreshToken's result and cache; stated by `RefreshFailsUniformly`, `RefreshSucceeds`, `RefreshOfRemovedUser`, `RotatedTokenIsRetired` and the rows below |
| Tokens.RefreshFailsUniformly | src/security/token/token.service.ts:69-72 | every refresh failure is `Unauthorized('Could not refresh the token. Please try again or log in.')` |
| Tokens.RefreshSucceeds | src/security/token/token.service.ts:56-68 | refresh succeeds exactly when verification passes, the subject exists, sign accepts both option sets and the lifetime is positive; the new pair is signed for the user as stored, and the record ends holding its refresh token |
| Tokens.RefreshOfRemovedUser | src/security/token/token.service.ts:60-62 | if the user is gone after the record is deleted, refresh fails and the record stays deleted |
| Tokens.RefreshRejectedLeavesCache | src/security/token/token.service.ts:59 | a token failing verification leaves the cache unchanged |
| Tokens.RotationAcceptsOnlyNewToken | src/security/token/token.service.ts:59-68 | after a refresh, the only refresh token accepted for that user is the new one |
| Tokens.RotatedTokenIsRetired | src/security/token/token.service.ts:59-68 | the presented token is rejected afterwards unless it is string-identical to the new one |
| Tokens.RefreshKeepsOtherSessions | src/security/token/token.service.ts:60-66 | a refresh changes no other user's record |
| Tokens.AccessTokenIsNoRefreshToken | src/security/token/token.service.ts:99-111 | with distinct secrets, an access token never passes verifyRefreshToken |
| Tokens.TokenService.GetTokens | src/security/token/token.service.ts:41-54 | returns the pair and leaves the cache as `Issue` does |
| Tokens.TokenService.RefreshToken | src/security/token/token.service.ts:56-73 | verify, delete, fetch, issue, set again, each failure caught: result and cache as `Refresh` gives |
| Tokens.TokenService.VerifyRefreshToken | src/security/token/token.service.ts:75-97 | the try/catch outcome equals `VerifyRefresh` |
| Tokens.TokenService.RemoveRefreshToken | src/security/token/token.service.ts:113-115 | deletes only the user's record, or propagates del's NotFound and changes nothing |
| Tokens.TokenService.RefreshTokenExists | src/security/token/token.service.ts:117-120 | true exactly when the cached value for the user equals the token |
| Tokens.TokenService.GenerateAccessToken | src/security/token/token.service.ts:99-104 | the access token signed with the access options, or `SignError` when sign throws |
| Tokens.TokenService.GenerateRefreshToken | src/security/token/token.service.ts:106-111 | the refresh token signed with the refresh options, or `SignError` when sign throws |
| AccessTokenStrategy.SecretOrKey | src/security/auth/strategies/access-token.strategy.ts:29 | the configured access secret, or the empty string when unset |
| AccessTokenStrategy.Validation | src/security/auth/strategies/access-token.strategy.ts:40-48 | the stored user exactly when one has id `sub` and its tokenVersion equals the payload's version; otherwise 'Token has been invalidated' |
| AccessTokenStrategy.Authentication | src/security/auth/strategies/access-token.strategy.ts:27-48 | passport-jwt's verification then validate; stated by `AuthenticationAccepts` |
| AccessTokenStrategy.AuthenticationAccepts | src/security/auth/strategies/access-token.strategy.ts:27-31 | a request passes exactly when the token verifies under the access secret (expiry enforced) and validates |
| AccessTokenStrategy.StaleVersionRejected | src/security/auth/strategies/access-token.strategy.ts:42-44 | a version mismatch is always refused |
| AccessTokenStrategy.AuthenticatedUserIsSubject | src/security/auth/strategies/access-token.strategy.ts:41-47 | the user let through is the token's subject |
| AccessTokenStrategy.AccessTokenStrategy.constructor | src/security/auth/strategies/access-token.strategy.ts:22-32 | built only with a non-empty secret, which it keeps as `secretOrKey` |
| AccessTokenStrategy.AccessTokenStrategy.Create | src/security/auth/strategies/access-token.strategy.ts:22-32 | an unset or empty secret gives passport-jwt's `TypeError('JwtStrategy requires a secret or key')`; otherwise a new strategy holding the configured secret |
| AccessTokenStrategy.AccessTokenStrategy.Validate | src/security/auth/strategies/access-token.strategy.ts:40-48 | read-only, and returns what `Validation` gives |
| AccessTokenStrategy.AccessTokenStrategy.Authenticate | src/security/auth/strategies/access-token.strategy.ts:27-48 | read-only, and returns what `Authentication` gives |
| Auth.SignupFields | src/security/auth/auth.service.ts:40-45 | the row gets the DTO's email, the hash (never the plaintext), the role parameter (USER by default) and now |
| Auth.LoginAs | src/security/auth/auth.service.ts:63-71 | login's result, users and cache for the user found; stated by `LoginOutcome` |
| Auth.LoginOutcome | src/security/auth/auth.service.ts:64-71 | login succeeds exactly when the hash accepts the password, sign accepts both option sets and the lifetime is positive; a wrong password changes nothing; success records lastLogin, keeps the version and stores the new refresh token |
| Auth.NewPasswordAccepted | src/security/auth/auth.service.ts:93-96 | after updatePassword the stored hash accepts the new password |
| Auth.ChangePassword | src/security/auth/auth.service.ts:83-97 | updatePassword's result and users; stated by `ChangePasswordOutcome`, `NewPasswordAccepted` |
| Auth.ChangePasswordOutcome | src/security/auth/auth.service.ts:83-97 | NotFound for a missing user, InvalidCredentials for a wrong old password, both with no change; on success only that user's password changes, the cache is untouched |
| Auth.SignOut | src/security/auth/auth.service.ts:104-112 | logout's result, users and cache; stated by `SignOutOutcome`, `SignOutRaisesVersions` |
| Auth.SignOutOutcome | src/security/auth/auth.service.ts:104-112 | 'User not connected' for a missing user; without a session record del's NotFound propagates with no bump; else the record is deleted and tokenVersion rises by exactly 1, nothing else changes |
| Auth.SignOutRaisesVersions | src/security/auth/auth.service.ts:110 | logout never lowers any token version |
| Auth.AuthService.Signup | src/security/auth/auth.service.ts:30-48 | a taken email gives 'Email already exists' with nothing written; else one row under a fresh id with the hashed password |
| Auth.AuthService.Login | src/security/auth/auth.service.ts:57-72 | an unknown email is the same InvalidCredentials as a wrong password, with nothing changed; otherwise `LoginAs` for the user found |
| Auth.AuthService.UpdatePassword | src/security/auth/auth.service.ts:83-97 | result and users as `ChangePassword` gives |
| Auth.AuthService.Logout | src/security/auth/auth.service.ts:104-112 | result, users and cache as `SignOut` gives |
| RoleGuard.RequiredRole | src/security/guards/role.guard.ts:27-30 | the handler's role when it sets one, else the class's |
| RoleGuard.CanActivate | src/security/guards/role.guard.ts:25-40 | no required role: true; else exactly `user.role == requiredRole`; no user: the TypeError of reading `role` |
| RoleGuard.HandlerRoleOverridesClassRole | src/security/guards/role.guard.ts:27-39 | handler metadata decides over class metadata |
| RoleGuard.RolesAreNotHierarchical | src/security/guards/role.guard.ts:38-39 | a user without exactly the required role is refused |
| IsCreatorGuard.IsCreator | src/security/guards/is-creator.guard.ts:23 | `user && user.userId === +params.id`; refused input stated by `AnonymousOrMalformedRefused`, the guard by `CanActivate` |
| IsCreatorGuard.AnonymousOrMalformedRefused | src/security/guards/is-creator.guard.ts:19-23 | no user, or a NaN id, never passes |
| IsCreatorGuard.CanActivate | src/security/guards/is-creator.guard.ts:17-31 | true with `isCreator` set exactly for the owner; otherwise NotFound, never false, request left as it was |
| Lifecycle.IssuedAccessTokenAuthenticates | src/security/token/token.service.ts:41-48 | a freshly issued access token passes the access-token strategy for its user, when the access options give tokens that verify at once |
| Lifecycle.IssuedRefreshTokenVerifies | src/security/token/token.service.ts:51-53 | a freshly issued refresh token passes verifyRefreshToken for its user, when its options give tokens that verify at once |
| Lifecycle.ShortLivedRefreshTokenExpires | src/security/token/token.service.ts:49-52 | a refresh token the library reports expired at once is still stored for the full session lifetime, and verifyRefreshToken answers 'Refresh token expired.' |
| Lifecycle.RefreshTokenIsNoAccessToken | src/security/auth/strategies/access-token.strategy.ts:27-31 | with distinct secrets, a refresh token presented as a bearer token is refused with 401 |
| Lifecycle.CreatorIsTokenSubject | src/security/guards/is-creator.guard.ts:19-23 | behind the access-token strategy, the creator guard passes exactly when the route id is the token's subject |
| Lifecycle.LogoutRevokesAccessTokens | src/security/auth/auth.service.ts:110 | after logout, every access token that let the user in before is refused |
| Lifecycle.LogoutKeepsOthersSignedIn | src/security/auth/auth.service.ts:109-111 | logout changes no other user's authentication |
| Lifecycle.LogoutEndsRefreshSession | src/security/auth/auth.service.ts:109 | after logout no refresh token passes verifyRefreshToken for that user |
| Lifecycle.PasswordChangeKeepsAccessTokens | src/security/auth/auth.service.ts:93-96 | a password change leaves every access token as valid as before |
| Lifecycle.SignupThenLogin | src/security/auth/auth.service.ts:30-71 | login with the password just signed up with succeeds for the new account |

## Left out

- **JWT internals.** HMAC signing, `iat`/`exp` encoding and JSON parsing of
  tokens are abstract: the codec is a parameter. Its properties are the
  predicates the lemmas require.
- **argon2 hashing** is abstract, and its random salt is a parameter. The
  `EncryptionService` source is not part of this model.
- **Wall-clock time.**
  - Timestamps (the Date of `new Date()` and `CURRENT_TIMESTAMP`) are an `Instant` parameter.
  - JWT expiry is the codec's `Expired` outcome.
  - Redis TTL expiry is not modelled: an entry records its expiry but never expires by itself.
- **The ioredis client and network errors** are not modelled, and neither is
  the rethrow in `get`'s catch. Only the replies of SET, GET and DEL are
  modelled.
- **Concurrency.** Interleaved requests, such as two concurrent refreshes of
  one token, are not modelled. Operations run one after another.
- **HTTP framework layer.** Not modelled:
  - the controllers, modules, DTO validation, the exception filter and logging;
  - extraction of the bearer token from the Authorization header (passport-jwt's `fromAuthHeaderAsBearerToken`), because the token string is the input;
  - the UnauthorizedException message of the passport guard, which is modelled as 'Unauthorized'.
- **Configuration constants.**
  - The constants of `@common/constants` (NODE_ENV's key, PROD_ENV, PROD_PREFIX and DEV_PREFIX) are not part of this model. They are constructor parameters of `RedisService`.
  - The `ConfigService` values are a `Settings` record.
- **UserRole.** The enum's file is not part of this model. `UserRole` has the
  two members the code names, `USER` and `ADMIN`. Both are taken to be truthy
  values in `!requiredRole`.
- **UpdateUserDto** is not part of this model. It is modelled as optional
  email, password and role.
- **`findOneBy({ email })`** returns an unspecified one of several users with
  the same email. `Auth.AuthService.Login` exposes which one as a ghost
  out-parameter.
- **IsCreatorGuard.CanActivate** takes `+request.params.id` as an already
  coerced `Option<int>`. JavaScript's `Number` coercion of the parameter
  string (hex, exponents, whitespace) is not modelled. None stands for NaN
  or a non-integer.
- **Number precision.** Numbers are unbounded integers. Precision loss beyond
  2^53 in `parseInt`, in `days * 86400` and in user ids is not modelled.
- **Tokens.TokenService.GenerateAccessToken / GenerateRefreshToken** are plain
  codec calls with no contract of their own. What they produce is stated by
  `Tokens.SignPairClaims` and `Tokens.IssueStoresRefreshToken`.
- **Which options jsonwebtoken refuses** is abstract. `Codec.signable` stands
  for it, and the `ms` grammar of `expiresIn` is not modelled. Only the refusal
  of an empty secret is stated, as the predicate `RefusesEmptySecret`. The
  secrets `configService.get` returns are strings, and an unset one is the
  empty string.
- **Application bootstrap.** `Create` returns passport-jwt's TypeError, and
  Nest's reaction to it is not modelled: the failed start of the application.
- **The two copies of `convertDaysToSeconds`.** `UtilsService` and
  `TokenService` each have one, token.service.ts 122-125 and
  utils.service.ts 11-14. Their bodies are the same expression, so a single
  function, `Utils.ConvertDaysToSeconds`, models both.
