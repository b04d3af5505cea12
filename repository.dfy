/**
 * The TypeORM repository of User rows that the services share, reduced to the
 * calls they make: lookups by primary key and by email, insertion of a new row,
 * saving a fetched row back, and deletion.
 */
module Repository {
  import opened Exceptions
  import opened Entities

  class UserRepository {
    /** The rows of the users table, by primary key. */
    var users: map<int, User>
    /** The next value of the auto-increment sequence behind userId. */
    var nextId: int

    ghost predicate Valid()
      reads this
    {
      && 1 <= nextId
      && KeysMatch(users)
      && forall id :: id in users ==> 1 <= id < nextId
    }

    constructor ()
      ensures Valid() && users == map[] && nextId == 1
    {
      users := map[];
      nextId := 1;
    }

    /** findOneBy({ userId: id }). */
    method FindOneBy(id: int) returns (r: Option<User>)
      ensures r.Some? <==> id in users
      ensures r.Some? ==> r.value == users[id]
    {
      if id in users {
        return Some(users[id]);
      }
      return None;
    }

    /**
     * findOneBy({ email }): one of the users with that email, or null.  Emails are
     * not unique in the table, and which matching row comes back is not fixed.
     */
    method FindOneByEmail(email: string) returns (r: Option<User>)
      requires Valid()
      ensures r.None? <==> !EmailTaken(users, email)
      ensures r.Some? ==> r.value.userId in users && users[r.value.userId] == r.value && r.value.email == email
    {
      if EmailTaken(users, email) {
        var id :| id in users && users[id].email == email;
        return Some(users[id]);
      }
      return None;
    }

    /** save(create(fields)): insert a row under a fresh auto-increment id, database defaults applied. */
    method Insert(fields: NewUser, now: Instant) returns (u: User)
      requires Valid()
      modifies this
      ensures Valid()
      ensures u == Materialize(old(nextId), fields, now)
      ensures u.userId !in old(users)
      ensures users == old(users)[u.userId := u] && nextId == old(nextId) + 1
    {
      u := Materialize(nextId, fields, now);
      users := users[nextId := u];
      nextId := nextId + 1;
    }

    /** save(user) for a row that was fetched from this table. */
    method Save(u: User)
      requires Valid() && u.userId in users
      modifies this
      ensures Valid()
      ensures users == old(users)[u.userId := u] && nextId == old(nextId)
    {
      users := users[u.userId := u];
    }

    /** remove(user) for a row that was fetched from this table. */
    method Delete(id: int)
      requires Valid() && id in users
      modifies this
      ensures Valid()
      ensures users == old(users) - {id} && nextId == old(nextId)
    {
      users := users - {id};
    }
  }
}
