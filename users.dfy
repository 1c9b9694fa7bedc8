/**
 * The users API controller (server/src/contexts/users/api/user-controller.ts)
 * over its one SQLite table
 *   users(id INTEGER PRIMARY KEY AUTOINCREMENT, name TEXT NOT NULL, email TEXT NOT NULL UNIQUE),
 * held here as a map from id to row plus the table's AUTOINCREMENT counter.
 */
module Users {
  import opened Wrappers

  datatype User = User(id: int, name: string, email: string)

  /** A JSON response body. */
  datatype Body = UserBody(user: User) | UserList(users: seq<User>) | ErrorBody(error: string) | NoBody

  /** What a handler ends with: a reply, or an error that escapes the handler uncaught. */
  datatype Response = Reply(status: int, body: Body) | Unhandled(cause: string)

  const OK: int := 200
  const CREATED: int := 201
  const NO_CONTENT: int := 204
  const BAD_REQUEST: int := 400
  const NOT_FOUND: int := 404
  const CONFLICT: int := 409

  const InvalidUserData: string := "Invalid user data"
  const UserAlreadyExists: string := "User already exists"
  const UserNotFound: string := "User not found"
  const MissingFilters: string := "At least email or name must be provided"
  /** The driver's error code for a violated constraint. */
  const SqliteConstraint: string := "SQLITE_CONSTRAINT"

  /** JavaScript truthiness of an optional string field: present and not "". */
  predicate Truthy(v: Option<string>) {
    v.Some? && v.value != ""
  }

  /** SQL `COALESCE(?, column)`: the bound value unless it is NULL (an absent field). */
  function Coalesce(v: Option<string>, column: string): (value: string) {
    if v.Some? then v.value else column
  }

  /** No two rows share an email (the column's UNIQUE constraint). */
  ghost predicate EmailsUnique(rows: map<int, User>) {
    forall a, b :: a in rows && b in rows && a != b ==> rows[a].email != rows[b].email
  }

  /** Some row other than `except` has this email. */
  predicate EmailTakenBy(rows: map<int, User>, email: string, except: int) {
    exists id :: id in rows && id != except && rows[id].email == email
  }

  /** The row satisfies every filter that is given (a truthy query parameter). */
  predicate MatchesFilters(u: User, email: Option<string>, name: Option<string>) {
    (Truthy(email) ==> u.email == email.value) && (Truthy(name) ==> u.name == name.value)
  }

  /** With an email filter at most one row can match: the search's answer is then determined. */
  lemma EmailFilterMatchesAtMostOne(rows: map<int, User>, email: Option<string>, name: Option<string>, a: int, b: int)
    requires EmailsUnique(rows) && Truthy(email)
    requires a in rows && MatchesFilters(rows[a], email, name)
    requires b in rows && MatchesFilters(rows[b], email, name)
    ensures a == b
  {
  }

  class UserController {
    /** The table's rows by id. */
    var users: map<int, User>
    /** The largest id ever assigned (the table's sqlite_sequence entry). */
    var lastId: nat

    ghost predicate Valid()
      reads this
    {
      (forall id :: id in users ==> users[id].id == id && 1 <= id <= lastId) &&
      EmailsUnique(users)
    }

    /** A freshly created, empty table. */
    constructor ()
      ensures Valid() && users == map[] && lastId == 0
    {
      users := map[];
      lastId := 0;
    }

    /**
     * `createUser`: 400 unless both fields are truthy; 409 when the email is
     * taken; otherwise one row with the next id is inserted and returned with 201.
     */
    method CreateUser(name: Option<string>, email: Option<string>) returns (resp: Response)
      requires Valid()
      modifies this
      ensures Valid()
      ensures !Truthy(name) || !Truthy(email) ==>
        resp == Reply(BAD_REQUEST, ErrorBody(InvalidUserData)) && users == old(users) && lastId == old(lastId)
      ensures Truthy(name) && Truthy(email) && EmailTakenBy(old(users), email.value, 0) ==>
        resp == Reply(CONFLICT, ErrorBody(UserAlreadyExists)) && users == old(users) && lastId == old(lastId)
      ensures Truthy(name) && Truthy(email) && !EmailTakenBy(old(users), email.value, 0) ==>
        var u := User(old(lastId) + 1, name.value, email.value);
        resp == Reply(CREATED, UserBody(u)) && users == old(users)[u.id := u] && lastId == u.id &&
        (forall id :: id in old(users) ==> id < u.id)
    {
      if !Truthy(name) || !Truthy(email) {
        return Reply(BAD_REQUEST, ErrorBody(InvalidUserData));
      }
      // ids are positive, so no row is excluded by `except` 0
      if EmailTakenBy(users, email.value, 0) {
        return Reply(CONFLICT, ErrorBody(UserAlreadyExists));
      }
      var id := lastId + 1;
      var u := User(id, name.value, email.value);
      users := users[id := u];
      lastId := id;
      resp := Reply(CREATED, UserBody(u));
    }

    /** `getUser`: the row with that id, or 404. */
    method GetUser(id: int) returns (resp: Response)
      requires Valid()
      ensures id in users ==> resp == Reply(OK, UserBody(users[id]))
      ensures id !in users ==> resp == Reply(NOT_FOUND, ErrorBody(UserNotFound))
    {
      if id !in users {
        return Reply(NOT_FOUND, ErrorBody(UserNotFound));
      }
      resp := Reply(OK, UserBody(users[id]));
    }

    /**
     * `findUser`: 400 without a truthy filter; otherwise some row matching every
     * given filter, or 404 when none does. The query has no ORDER BY, so which
     * matching row comes back is left open.
     */
    method FindUser(email: Option<string>, name: Option<string>) returns (resp: Response)
      requires Valid()
      ensures !Truthy(email) && !Truthy(name) ==> resp == Reply(BAD_REQUEST, ErrorBody(MissingFilters))
      ensures (Truthy(email) || Truthy(name)) && resp.Reply? && resp.status == OK ==>
        resp.body.UserBody? && resp.body.user.id in users && users[resp.body.user.id] == resp.body.user &&
        MatchesFilters(resp.body.user, email, name)
      ensures Truthy(email) || Truthy(name) ==>
        (resp == Reply(NOT_FOUND, ErrorBody(UserNotFound)) <==> forall id :: id in users ==> !MatchesFilters(users[id], email, name))
      ensures Truthy(email) || Truthy(name) ==>
        (resp.Reply? && resp.status == OK <==> exists id :: id in users && MatchesFilters(users[id], email, name))
      ensures Truthy(email) || Truthy(name) ==>
        resp.Reply? && (resp.status == OK || resp == Reply(NOT_FOUND, ErrorBody(UserNotFound)))
    {
      if !Truthy(email) && !Truthy(name) {
        return Reply(BAD_REQUEST, ErrorBody(MissingFilters));
      }
      if id :| id in users && MatchesFilters(users[id], email, name) {
        resp := Reply(OK, UserBody(users[id]));
      } else {
        resp := Reply(NOT_FOUND, ErrorBody(UserNotFound));
      }
    }

    /** `getAllUsers`: every row exactly once, in no promised order. */
    method GetAllUsers() returns (resp: Response)
      requires Valid()
      ensures resp.Reply? && resp.status == OK && resp.body.UserList?
      ensures forall u :: u in resp.body.users <==> u.id in users && users[u.id] == u
      ensures |resp.body.users| == |users|
    {
      var rows: seq<User> := [];
      var rest := users.Keys;
      while rest != {}
        invariant rest <= users.Keys
        invariant forall u :: u in rows <==> u.id in users && u.id !in rest && users[u.id] == u
        invariant |rows| + |rest| == |users.Keys|
      {
        assert exists id :: id in rest by {
          if forall id :: id !in rest { assert false; }
        }
        var id :| id in rest;
        rows := rows + [users[id]];
        rest := rest - {id};
      }
      resp := Reply(OK, UserList(rows));
    }

    /**
     * `updateUser`: 404 for an absent id. Otherwise the row becomes the merge
     * `COALESCE(new, old)` of each field and is returned; an email that another
     * row already has violates UNIQUE, which the handler does not catch.
     */
    method UpdateUser(id: int, name: Option<string>, email: Option<string>) returns (resp: Response)
      requires Valid()
      modifies this
      ensures Valid() && lastId == old(lastId)
      ensures id !in old(users) ==> resp == Reply(NOT_FOUND, ErrorBody(UserNotFound)) && users == old(users)
      ensures id in old(users) ==>
        var merged := User(id, Coalesce(name, old(users)[id].name), Coalesce(email, old(users)[id].email));
        if EmailTakenBy(old(users), merged.email, id) then
          resp == Unhandled(SqliteConstraint) && users == old(users)
        else
          resp == Reply(OK, UserBody(merged)) && users == old(users)[id := merged]
    {
      if id !in users {
        return Reply(NOT_FOUND, ErrorBody(UserNotFound));
      }
      var merged := User(id, Coalesce(name, users[id].name), Coalesce(email, users[id].email));
      if EmailTakenBy(users, merged.email, id) {
        return Unhandled(SqliteConstraint);
      }
      users := users[id := merged];
      resp := Reply(OK, UserBody(users[id]));
    }

    /** `deleteUser`: removes the row and answers 204, or 404 for an absent id. */
    method DeleteUser(id: int) returns (resp: Response)
      requires Valid()
      modifies this
      ensures Valid() && lastId == old(lastId)
      ensures id in old(users) ==> resp == Reply(NO_CONTENT, NoBody) && users == old(users) - {id}
      ensures id !in old(users) ==> resp == Reply(NOT_FOUND, ErrorBody(UserNotFound)) && users == old(users)
    {
      if id !in users {
        return Reply(NOT_FOUND, ErrorBody(UserNotFound));
      }
      users := users - {id};
      resp := Reply(NO_CONTENT, NoBody);
    }
  }
}
