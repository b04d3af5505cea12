/**
 * AuthService: sign-up, login, password change and logout.  Each operation
 * on an existing user is given as a function from the users table and the
 * cache contents to its result and the new table and cache; the class's
 * methods perform the source's calls and are proved to agree with them.
 */
module Auth {
  import opened Exceptions
  import opened Entities
  import opened Jwt
  import opened Encryption
  import Redis
  import opened Repository
  import opened Tokens

  const EmailExistsMessage := "Email already exists"
  const NotConnectedMessage := "User not connected"

  /** The fields of CreateUserDto; `role` is optional in the request. */
  datatype CreateUserDto = CreateUserDto(email: string, password: string, role: Option<UserRole>)

  /** The result of an operation together with the users table and cache contents it leaves. */
  datatype Outcome<T> = Outcome(result: Result<T>, users: map<int, User>, store: Redis.Store)

  /** The `role` parameter of signup, USER when the caller passes none. */
  function SignupRole(role: Option<UserRole>): UserRole {
    if role.Some? then role.value else USER
  }

  /**
   * The columns signup hands to repository.create: the DTO spread, then the
   * password replaced by its hash, the role by the `role` parameter, and the
   * creation date by now.  The DTO's own role never reaches the row.
   */
  function SignupFields(dto: CreateUserDto, role: Option<UserRole>, hashedPassword: string, now: Instant): (f: NewUser)
    ensures f.email == dto.email && f.password == hashedPassword
    ensures f.role == Some(SignupRole(role)) && f.createdAt == Some(now)
  {
    NewUser(dto.email, hashedPassword, Some(SignupRole(role)), Some(now))
  }

  /**
   * login, once findOneBy({ email }) has returned the user stored under `id`:
   * refuse a password the stored hash does not accept; otherwise record the
   * login time, save, and issue a token pair for the saved user.
   */
  function LoginAs(env: Env, h: Hasher, users: map<int, User>, store: Redis.Store,
                   id: int, password: string, now: Instant): Outcome<TokenPair>
    requires id in users
  {
    var user := users[id];
    if !h.verify(user.password, password) then Outcome(Err(InvalidCredentials), users, store)
    else
      var loggedIn := user.(lastLogin := now);
      var issued := Issue(env, store, loggedIn, now);
      Outcome(issued.result, users[id := loggedIn], issued.store)
  }

  /**
   * updatePassword: a missing user is a bare NotFoundException; a wrong old
   * password is refused; otherwise the stored hash is replaced by a hash of the
   * new password.  The cache is never touched.
   */
  function ChangePassword(h: Hasher, users: map<int, User>, store: Redis.Store,
                          id: int, oldPassword: string, newPassword: string, salt: string): Outcome<()>
  {
    if id !in users then Outcome(Err(NotFound(NotFoundDefaultMessage)), users, store)
    else if !h.verify(users[id].password, oldPassword) then Outcome(Err(InvalidCredentials), users, store)
    else Outcome(Ok(()), users[id := users[id].(password := h.hash(newPassword, salt))], store)
  }

  /**
   * logout: a missing user is refused; the user's session record is deleted,
   * and a failure to delete it (no record) propagates before anything else
   * changes; then the user's token version goes up by one.
   */
  function SignOut(prefix: string, users: map<int, User>, store: Redis.Store, id: int): Outcome<()> {
    if id !in users then Outcome(Err(NotFound(NotConnectedMessage)), users, store)
    else
      var removed := Redis.Remove(store, SessionSlot(prefix, id));
      if removed.Err? then Outcome(Err(removed.error), users, store)
      else Outcome(Ok(()), users[id := users[id].(tokenVersion := users[id].tokenVersion + 1)], removed.value)
  }

  /**
   * Login succeeds exactly when the password matches the stored hash, the
   * library signs with the configured options and the session lifetime is
   * positive.  It then returns the pair signed for the user
   * with the new login time and the unchanged token version, and the user's
   * session record holds the new refresh token with the session lifetime.  A wrong password changes
   * nothing; a cache failure after a right one leaves the login time saved.
   */
  lemma LoginOutcome(env: Env, h: Hasher, users: map<int, User>, store: Redis.Store, id: int, password: string, now: Instant)
    requires id in users && KeysMatch(users)
    ensures var o := LoginAs(env, h, users, store, id, password, now);
            var loggedIn := users[id].(lastLogin := now);
            && (o.result.Ok? <==> h.verify(users[id].password, password) && Signable(env) && env.refreshTtl > 0)
            && (!h.verify(users[id].password, password) ==>
                  o == Outcome(Err(InvalidCredentials), users, store))
            && (h.verify(users[id].password, password) ==> o.users == users[id := loggedIn])
            && (o.result.Ok? ==>
                  && o.result.value == SignPair(env, loggedIn, now)
                  && SessionSlot(env.keyPrefix, id) in o.store
                  && o.store[SessionSlot(env.keyPrefix, id)] == Redis.Entry(o.result.value.refreshToken, Some(env.refreshTtl)))
            && o.users[id].tokenVersion == users[id].tokenVersion
  {
    if h.verify(users[id].password, password) {
      IssueStoresRefreshToken(env, store, users[id].(lastLogin := now), now);
    }
  }

  /** With a hasher that accepts its own hashes, the password just set is accepted on the next login. */
  lemma NewPasswordAccepted(h: Hasher, users: map<int, User>, store: Redis.Store,
                            id: int, oldPassword: string, newPassword: string, salt: string)
    requires AcceptsOwnHashes(h)
    requires ChangePassword(h, users, store, id, oldPassword, newPassword, salt).result.Ok?
    ensures var users' := ChangePassword(h, users, store, id, oldPassword, newPassword, salt).users;
            id in users' && h.verify(users'[id].password, newPassword)
  {
  }

  /**
   * updatePassword succeeds exactly for a stored user whose old password
   * matches, and then changes that user's password hash and nothing else: in
   * particular the token version stays, so tokens issued before the change
   * remain valid.
   */
  lemma ChangePasswordOutcome(h: Hasher, users: map<int, User>, store: Redis.Store,
                              id: int, oldPassword: string, newPassword: string, salt: string)
    ensures var o := ChangePassword(h, users, store, id, oldPassword, newPassword, salt);
            var users', r := o.users, o.result;
            && o.store == store
            && (r.Ok? <==> id in users && h.verify(users[id].password, oldPassword))
            && (r.Err? ==> users' == users)
            && (id !in users ==> r == Err(NotFound(NotFoundDefaultMessage)))
            && (id in users && !h.verify(users[id].password, oldPassword) ==> r == Err(InvalidCredentials))
            && users'.Keys == users.Keys
            && forall k :: k in users ==> users'[k].(password := users[k].password) == users[k]
  {
  }

  /**
   * Logout succeeds exactly for a stored user who has a session record; it then
   * deletes that record, raises that user's token version by one and changes no
   * other user and no other key.  Without a session record it fails and the
   * token version stays as it was.
   */
  lemma SignOutOutcome(prefix: string, users: map<int, User>, store: Redis.Store, id: int)
    ensures var o := SignOut(prefix, users, store, id);
            var slot := SessionSlot(prefix, id);
            && (o.result.Ok? <==> id in users && slot in store)
            && (id !in users ==> o == Outcome(Err(NotFound(NotConnectedMessage)), users, store))
            && (id in users && slot !in store ==>
                  o == Outcome(Err(NotFound(Redis.KeyNotFoundMessage + slot)), users, store))
            && (o.result.Ok? ==>
                  && o.users.Keys == users.Keys
                  && o.users[id].tokenVersion == users[id].tokenVersion + 1
                  && (forall k :: k in users && k != id ==> o.users[k] == users[k])
                  && o.store == store - {slot})
  {
  }

  /** Of the token versions only logout changes one, and only upwards. */
  lemma SignOutRaisesVersions(prefix: string, users: map<int, User>, store: Redis.Store, id: int)
    ensures VersionsNonDecreasing(users, SignOut(prefix, users, store, id).users)
  {
  }

  class AuthService {
    const repo: UserRepository
    const hasher: Hasher
    const tokens: TokenService

    /** The service and the token service share the one repository of users. */
    ghost predicate Valid()
      reads repo
    {
      repo.Valid() && tokens.repo == repo
    }

    constructor (repo: UserRepository, hasher: Hasher, tokens: TokenService)
      ensures this.repo == repo && this.hasher == hasher && this.tokens == tokens
    {
      this.repo := repo;
      this.hasher := hasher;
      this.tokens := tokens;
    }

    /**
     * signup: an email already in use is refused and nothing is written;
     * otherwise one new row is inserted under a fresh id, with the hashed
     * password, the role parameter and the column defaults.
     */
    method Signup(dto: CreateUserDto, role: Option<UserRole>, salt: string, now: Instant) returns (r: Result<User>)
      requires Valid()
      modifies repo
      ensures Valid()
      ensures EmailTaken(old(repo.users), dto.email) ==>
                r == Err(Unauthorized(EmailExistsMessage)) && repo.users == old(repo.users) && repo.nextId == old(repo.nextId)
      ensures !EmailTaken(old(repo.users), dto.email) ==>
                var u := Materialize(old(repo.nextId), SignupFields(dto, role, hasher.hash(dto.password, salt), now), now);
                && r == Ok(u)
                && u.userId !in old(repo.users)
                && repo.users == old(repo.users)[u.userId := u]
    {
      var existingUser := repo.FindOneByEmail(dto.email);
      if existingUser.Some? {
        return Err(Unauthorized(EmailExistsMessage));
      }
      var hashedPassword := hasher.hash(dto.password, salt);
      var newUser := SignupFields(dto, role, hashedPassword, now);
      var saved := repo.Insert(newUser, now);
      return Ok(saved);
    }

    /**
     * login: an unknown email is refused like a wrong password, with nothing
     * changed; otherwise `who` is the stored user findOneBy returned (one with
     * that email; emails are not unique) and the outcome is LoginAs for it.
     */
    method Login(email: string, password: string, now: Instant) returns (r: Result<TokenPair>, ghost who: Option<int>)
      requires Valid()
      modifies repo, tokens.redis
      ensures Valid() && repo.nextId == old(repo.nextId)
      ensures !EmailTaken(old(repo.users), email) ==>
                r == Err(InvalidCredentials) && repo.users == old(repo.users) && tokens.redis.store == old(tokens.redis.store)
      ensures EmailTaken(old(repo.users), email) ==>
                && who.Some? && who.value in old(repo.users) && old(repo.users)[who.value].email == email
                && Outcome(r, repo.users, tokens.redis.store)
                   == LoginAs(tokens.Environment(), hasher, old(repo.users), old(tokens.redis.store), who.value, password, now)
    {
      who := None;
      var user := repo.FindOneByEmail(email);
      if user.None? {
        return Err(InvalidCredentials), who;
      }
      who := Some(user.value.userId);
      var validPassword := hasher.verify(user.value.password, password);
      if !validPassword {
        return Err(InvalidCredentials), who;
      }
      var loggedIn := user.value.(lastLogin := now);
      repo.Save(loggedIn);
      r := tokens.GetTokens(loggedIn, now);
    }

    method UpdatePassword(userId: int, oldPassword: string, newPassword: string, salt: string) returns (r: Result<()>)
      requires Valid()
      modifies repo
      ensures Valid() && repo.nextId == old(repo.nextId)
      ensures Outcome(r, repo.users, tokens.redis.store)
              == ChangePassword(hasher, old(repo.users), tokens.redis.store, userId, oldPassword, newPassword, salt)
    {
      var user := repo.FindOneBy(userId);
      if user.None? {
        return Err(NotFound(NotFoundDefaultMessage));
      }
      var validPassword := hasher.verify(user.value.password, oldPassword);
      if !validPassword {
        return Err(InvalidCredentials);
      }
      var hashedPassword := hasher.hash(newPassword, salt);
      repo.Save(user.value.(password := hashedPassword));
      return Ok(());
    }

    method Logout(userId: int) returns (r: Result<()>)
      requires Valid()
      modifies repo, tokens.redis
      ensures Valid() && repo.nextId == old(repo.nextId)
      ensures Outcome(r, repo.users, tokens.redis.store)
              == SignOut(tokens.redis.keyPrefix, old(repo.users), old(tokens.redis.store), userId)
    {
      var user := repo.FindOneBy(userId);
      if user.None? {
        return Err(NotFound(NotConnectedMessage));
      }
      var removed := tokens.RemoveRefreshToken(userId);
      if removed.Err? {
        return removed;
      }
      repo.Save(user.value.(tokenVersion := user.value.tokenVersion + 1));
      return Ok(());
    }
  }
}
