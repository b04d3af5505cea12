/** The User entity: its columns, their database defaults and its serialized form. */
module Entities {
  import opened Exceptions

  /** The two roles the source refers to. */
  datatype UserRole = USER | ADMIN

  /** A point in time as read from the system clock; every clock read is a parameter. */
  type Instant = int

  /** A row of the users table; `password` holds the argon2 hash (column passwordHash). */
  datatype User = User(
    userId: int,
    email: string,
    password: string,
    role: UserRole,
    tokenVersion: int,
    createdAt: Instant,
    lastLogin: Instant)

  /** Column default of `userRole`. */
  const DefaultRole := USER

  /** Column default of `tokenVersion`. */
  const InitialTokenVersion := 1

  /**
   * The columns handed to repository.create for a new user; a None column is
   * left to its database default.
   */
  datatype NewUser = NewUser(email: string, password: string, role: Option<UserRole>, createdAt: Option<Instant>)

  /**
   * The row the database stores for a new user: the id drawn from the
   * auto-increment sequence, the given columns, and the column defaults
   * (role USER, tokenVersion 1, CURRENT_TIMESTAMP for both timestamps).
   */
  function Materialize(id: int, fields: NewUser, now: Instant): (u: User)
    ensures u.userId == id && u.email == fields.email && u.password == fields.password
    ensures u.role == (if fields.role.Some? then fields.role.value else DefaultRole)
    ensures u.tokenVersion == InitialTokenVersion
    ensures u.createdAt == (if fields.createdAt.Some? then fields.createdAt.value else now)
    ensures u.lastLogin == now
  {
    User(id, fields.email, fields.password,
         if fields.role.Some? then fields.role.value else DefaultRole,
         InitialTokenVersion,
         if fields.createdAt.Some? then fields.createdAt.value else now,
         now)
  }

  /** The serialized form of a user: the columns marked Exclude, password, role and tokenVersion are dropped. */
  datatype PublicUser = PublicUser(userId: int, email: string, createdAt: Instant, lastLogin: Instant)

  function Serialize(u: User): PublicUser {
    PublicUser(u.userId, u.email, u.createdAt, u.lastLogin)
  }

  /** Nothing about the password hash, the role or the token version reaches the serialized form. */
  lemma SerializeHidesExcluded(u: User, password: string, role: UserRole, tokenVersion: int)
    ensures Serialize(u.(password := password, role := role, tokenVersion := tokenVersion)) == Serialize(u)
    ensures Serialize(u).userId == u.userId && Serialize(u).email == u.email
  {
  }

  /** Every stored row sits under its own primary key. */
  ghost predicate KeysMatch(users: map<int, User>) {
    forall id :: id in users ==> users[id].userId == id
  }

  /** Some stored user has this email. */
  predicate EmailTaken(users: map<int, User>, email: string) {
    exists id :: id in users && users[id].email == email
  }

  /** No user who is still stored has a smaller token version than before. */
  ghost predicate VersionsNonDecreasing(before: map<int, User>, after: map<int, User>) {
    forall id :: id in before && id in after ==> before[id].tokenVersion <= after[id].tokenVersion
  }
}
