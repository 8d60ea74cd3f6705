/**
 * services/user.service.ts: the user table `mockUsers`.
 *
 * Create appends, update merges a patch into the first user with the id, and
 * delete splices that user out; an unknown id gives `undefined` or `false`.
 * Beside the new table, each method states what a later getUserById sees.
 */
module UserService {
  import opened Wrappers
  import opened Records
  import opened Tables
  import opened MockData

  /** getUsers: a copy of the whole table, in store order. */
  function GetUsers(db: MockDb): (r: seq<User>)
    reads db
    ensures r == db.users
  {
    db.users
  }

  /** getUserById: the first user with that id, or absent. */
  function GetUserById(db: MockDb, id: Id): (r: Option<User>)
    reads db
    ensures FirstMatch(db.users, UserId, id, r)
  {
    Find(db.users, UserId, id)
  }

  /** createUser: `{ id: generateId(), created_at: generateTimestamp(), ...userData }`, pushed at the end. */
  method CreateUser(db: MockDb, draft: User, freshId: Id, now: string) returns (u: User)
    modifies db`users
    ensures u == draft.(id := freshId, created_at := now)
    ensures db.users == old(db.users) + [u]
    ensures IndexOf(old(db.users), UserId, freshId) == -1 ==>
      GetUserById(db, freshId) == Some(u) &&
      (UniqueKeys(old(db.users), UserId) ==> UniqueKeys(db.users, UserId))
  {
    var users := db.users;
    u := draft.(id := freshId, created_at := now);
    db.users := db.users + [u];
    if IndexOf(users, UserId, freshId) == -1 {
      AppendFreshKey(users, UserId, u);
    }
  }

  /** updateUser: absent and no change for an unknown id; otherwise the first match becomes `{ ...old, ...userData }`. */
  method UpdateUser(db: MockDb, id: Id, patch: UserPatch) returns (r: Option<User>)
    modifies db`users
    ensures var i := IndexOf(old(db.users), UserId, id);
      if i == -1 then r.None? else r == Some(MergeUser(old(db.users)[i], patch))
    ensures db.users == UpdateFirst(old(db.users), UserId, id, MergeUser, patch)
    ensures patch.id.None? && r.Some? ==> GetUserById(db, id) == r
    ensures patch.id.None? && UniqueKeys(old(db.users), UserId) ==> UniqueKeys(db.users, UserId)
  {
    var users := db.users;
    var index := IndexOf(db.users, UserId, id);
    if index == -1 {
      return None;
    }
    db.users := db.users[index := MergeUser(db.users[index], patch)];
    r := Some(db.users[index]);
    if patch.id.None? {
      UpdateThenFind(users, UserId, id, MergeUser, patch);
      if UniqueKeys(users, UserId) {
        UpdateKeepsUnique(users, UserId, id, MergeUser, patch);
      }
    }
  }

  /** deleteUser: false and no change for an unknown id; otherwise the first match is spliced out. */
  method DeleteUser(db: MockDb, id: Id) returns (deleted: bool)
    modifies db`users
    ensures var i := IndexOf(old(db.users), UserId, id);
      deleted == (i != -1) &&
      if i == -1 then db.users == old(db.users) else db.users == RemoveAt(old(db.users), i)
    ensures deleted && UniqueKeys(old(db.users), UserId) ==>
      GetUserById(db, id).None? && UniqueKeys(db.users, UserId)
  {
    var users := db.users;
    var index := IndexOf(db.users, UserId, id);
    if index == -1 {
      return false;
    }
    db.users := RemoveAt(db.users, index);
    if UniqueKeys(users, UserId) {
      RemoveFoundKey(users, UserId, id);
      RemoveAtUnique(users, UserId, index);
    }
    return true;
  }
}
