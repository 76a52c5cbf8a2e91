/** The server's module-level `users` array and the five route handlers that
    read and change it in place. */
module Store {
  import opened Users

  class UserStore {
    /** The table, in insertion order. */
    var users: seq<User>

    /** The table as the process starts: the two sample records. */
    constructor ()
      ensures users == Seed
    {
      users := Seed;
    }

    /** The `findIndex` scan the handlers run with the id callback. */
    method IndexOf(id: RequestId) returns (i: int)
      ensures i == FindIndex(users, id)
    {
      i := 0;
      while i < |users|
        invariant 0 <= i <= |users|
        invariant forall j :: 0 <= j < i ==> !Matches(users[j], id)
      {
        if Matches(users[i], id) {
          assert IsFirstMatch(users, id, i);
          return;
        }
        i := i + 1;
      }
      i := -1;
    }

    /** GET /users: the whole table, in stored order. */
    method List() returns (r: Response)
      ensures r == Response(200, AllUsers(users))
    {
      r := Response(200, AllUsers(users));
    }

    /** GET /users/{id}. */
    method Get(id: RequestId) returns (r: Response)
      ensures r == GetUser(users, id)
    {
      var i := IndexOf(id);
      if i == -1 {
        r := NotFound;
      } else {
        r := Response(200, OneUser(users[i]));
      }
    }

    /** POST /users: reads the payload, validates the name, pushes the new record. */
    method Create(p: Payload) returns (r: Response)
      modifies this
      ensures Outcome(users, r) == PostUser(old(users), p)
    {
      match p
      case NoBody =>
        r := ServerError;
      case Body(name) =>
        if !ValidName(name) {
          r := InvalidInput;
        } else {
          var newUser := User(|users| + 1, name.text);
          users := users + [newUser];
          r := Response(201, OneUser(newUser));
        }
    }

    /** PUT /users/{id}: looks the id up, then reads the payload and validates
        the name, then assigns the name of the record in place. */
    method Update(id: RequestId, p: Payload) returns (r: Response)
      modifies this
      ensures Outcome(users, r) == PutUser(old(users), id, p)
    {
      var i := IndexOf(id);
      if i == -1 {
        return NotFound;
      }
      match p
      case NoBody =>
        r := ServerError;
      case Body(name) =>
        if !ValidName(name) {
          r := InvalidInput;
        } else {
          users := users[i := users[i].(name := name.text)];
          r := Response(200, OneUser(users[i]));
        }
    }

    /** DELETE /users/{id}: looks the id up and splices the record out. */
    method Delete(id: RequestId) returns (r: Response)
      modifies this
      ensures Outcome(users, r) == DeleteUser(old(users), id)
    {
      var i := IndexOf(id);
      if i == -1 {
        return NotFound;
      }
      var deletedUser := users[i];
      users := users[..i] + users[i + 1..];
      r := Response(200, OneUser(deletedUser));
    }
  }
}
