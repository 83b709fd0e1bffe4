/** The user store: an append-only list of users. */
module Users {
  import opened Models
  import Ids

  class UsersService {
    var users: seq<User>

    /** The user at position k has id k + 1. */
    ghost predicate Valid()
      reads this
    {
      Ids.Dense(UserIds(users))
    }

    constructor ()
      ensures Valid() && users == []
    {
      users := [];
    }

    /** Stores and returns a user with id "count + 1" and the given name (any string, even ""). */
    method Create(name: string) returns (user: User)
      requires Valid()
      modifies this
      ensures Valid()
      ensures user.id == |old(users)| + 1 && user.name == name
      ensures users == old(users) + [user]
    {
      user := User(|users| + 1, name);
      users := users + [user];
    }

    /** Every user, in insertion order, with ids 1..n. */
    method FindAll() returns (all: seq<User>)
      requires Valid()
      ensures all == users
      ensures Ids.Dense(UserIds(all))
    {
      all := users;
    }
  }
}
