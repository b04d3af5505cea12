/** UsersService: listing, fetching, updating and removing users by id. */
module Users {
  import opened Exceptions
  import opened Entities
  import opened Repository

  const UserNotFoundMessage := "User not found"

  /** The fields of UpdateUserDto; None marks a field the request does not carry. */
  datatype UpdateUser = UpdateUser(email: Option<string>, password: Option<string>, role: Option<UserRole>)

  /**
   * repository.merge(user, dto): every field the update carries replaces the
   * user's, every other column is kept.
   */
  function Merge(u: User, patch: UpdateUser): (m: User)
    ensures m.userId == u.userId && m.tokenVersion == u.tokenVersion
    ensures m.createdAt == u.createdAt && m.lastLogin == u.lastLogin
    ensures m.email == (if patch.email.Some? then patch.email.value else u.email)
    ensures m.password == (if patch.password.Some? then patch.password.value else u.password)
    ensures m.role == (if patch.role.Some? then patch.role.value else u.role)
  {
    var withEmail := if patch.email.Some? then u.(email := patch.email.value) else u;
    var withPassword := if patch.password.Some? then withEmail.(password := patch.password.value) else withEmail;
    if patch.role.Some? then withPassword.(role := patch.role.value) else withPassword
  }

  /** Merging an update that carries nothing leaves the user as it was. */
  lemma MergeEmptyIsIdentity(u: User)
    ensures Merge(u, UpdateUser(None, None, None)) == u
  {
  }

  class UsersService {
    const repo: UserRepository

    constructor (repo: UserRepository)
      ensures this.repo == repo
    {
      this.repo := repo;
    }

    /** find(): every stored user. */
    method FindAll() returns (all: set<User>)
      ensures forall u :: u in all <==> exists id :: id in repo.users && repo.users[id] == u
    {
      all := set id | id in repo.users :: repo.users[id];
    }

    method FindOne(id: int) returns (r: Result<User>)
      ensures id in repo.users ==> r == Ok(repo.users[id])
      ensures id !in repo.users ==> r == Err(NotFound(UserNotFoundMessage))
    {
      var user := repo.FindOneBy(id);
      if user.None? {
        return Err(NotFound(UserNotFoundMessage));
      }
      return Ok(user.value);
    }

    method Update(id: int, patch: UpdateUser) returns (r: Result<User>)
      requires repo.Valid()
      modifies repo
      ensures repo.Valid() && repo.nextId == old(repo.nextId)
      ensures VersionsNonDecreasing(old(repo.users), repo.users)
      ensures id !in old(repo.users) ==> r == Err(NotFound(UserNotFoundMessage)) && repo.users == old(repo.users)
      ensures id in old(repo.users) ==>
                var merged := Merge(old(repo.users)[id], patch);
                r == Ok(merged) && repo.users == old(repo.users)[id := merged]
    {
      var user := repo.FindOneBy(id);
      if user.None? {
        return Err(NotFound(UserNotFoundMessage));
      }
      var merged := Merge(user.value, patch);
      repo.Save(merged);
      return Ok(merged);
    }

    method Remove(id: int) returns (r: Result<()>)
      requires repo.Valid()
      modifies repo
      ensures repo.Valid() && repo.nextId == old(repo.nextId)
      ensures id !in old(repo.users) ==> r == Err(NotFound(UserNotFoundMessage)) && repo.users == old(repo.users)
      ensures id in old(repo.users) ==> r == Ok(()) && repo.users == old(repo.users) - {id}
    {
      var user := repo.FindOneBy(id);
      if user.None? {
        return Err(NotFound(UserNotFoundMessage));
      }
      repo.Delete(user.value.userId);
      return Ok(());
    }
  }
}
