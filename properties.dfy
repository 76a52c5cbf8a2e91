/** Properties of the user table that relate several handler calls: the
    lookup depends on ids alone, PUT is idempotent and keeps every id, DELETE
    removes one record, and what the `users.length + 1` id scheme does and
    does not guarantee. */
module UserProperties {
  import opened Users

  /** No two records share an id. */
  predicate UniqueIds(s: seq<User>) {
    forall a, b :: 0 <= a < |s| && 0 <= b < |s| && s[a].id == s[b].id ==> a == b
  }

  /** The ids are exactly 1, 2, ..., |s| in stored order: the shape of a table
      that has only ever been appended to. */
  predicate Dense(s: seq<User>) {
    forall k :: 0 <= k < |s| ==> s[k].id == k + 1
  }

  /** The table after POSTing each name in turn. */
  function PostAll(s: seq<User>, names: seq<string>): seq<User>
    decreases |names|
  {
    if names == [] then s
    else PostAll(PostUser(s, Body(Text(names[0]))).users, names[1..])
  }

  /** The lookup reads ids only: two tables with the same ids position by
      position give the same index. */
  lemma FindIndexSameIds(s: seq<User>, t: seq<User>, id: RequestId)
    requires |s| == |t|
    requires forall k :: 0 <= k < |s| ==> s[k].id == t[k].id
    ensures FindIndex(s, id) == FindIndex(t, id)
  {
  }

  /** A second identical PUT leaves the table as the first one did and gives
      the same answer. */
  lemma PutIdempotent(s: seq<User>, id: RequestId, p: Payload)
    ensures PutUser(PutUser(s, id, p).users, id, p) == PutUser(s, id, p)
  {
  }

  /** After a successful PUT, GET on the same id answers with the updated
      record. */
  lemma GetAfterPut(s: seq<User>, id: RequestId, p: Payload)
    requires PutUser(s, id, p).response.code == 200
    ensures GetUser(PutUser(s, id, p).users, id) == PutUser(s, id, p).response
  {
  }

  /** DELETE removes one record when the id is present and none otherwise:
      the records left and the record answered make up the old table. */
  lemma DeleteKeepsOthers(s: seq<User>, id: RequestId)
    ensures var o := DeleteUser(s, id);
      if o.response.code == 200
      then o.response.content.OneUser? && multiset(o.users) + multiset{o.response.content.user} == multiset(s)
      else multiset(o.users) == multiset(s)
  {
    var i := FindIndex(s, id);
    if i != -1 {
      assert s == s[..i] + [s[i]] + s[i + 1..];
    }
  }

  /** The seed table has dense ids. */
  lemma SeedDense()
    ensures Dense(Seed) && UniqueIds(Seed)
  {
  }

  /** Dense ids are unique. */
  lemma DenseUnique(s: seq<User>)
    requires Dense(s)
    ensures UniqueIds(s)
  {
  }

  /** On a table that has only been appended to, POST keeps the ids dense and
      the new id is one no record had; GET on it then finds the new record. */
  lemma PostKeepsDense(s: seq<User>, p: Payload)
    requires Dense(s)
    ensures var o := PostUser(s, p);
      && Dense(o.users)
      && (o.response.code == 201 ==>
            && NoMatch(s, Some(o.response.content.user.id))
            && GetUser(o.users, Some(o.response.content.user.id)) == Response(200, o.response.content))
  {
  }

  /** PUT changes names only, so it keeps dense ids and unique ids. */
  lemma PutKeepsIds(s: seq<User>, id: RequestId, p: Payload)
    ensures var o := PutUser(s, id, p);
      && (Dense(s) ==> Dense(o.users))
      && (UniqueIds(s) ==> UniqueIds(o.users))
  {
  }

  /** DELETE keeps ids unique (it does not keep them dense). */
  lemma DeleteKeepsUnique(s: seq<User>, id: RequestId)
    requires UniqueIds(s)
    ensures UniqueIds(DeleteUser(s, id).users)
  {
  }

  /** While ids are unique, GET after DELETE of the same id answers 404. */
  lemma DeleteThenGetNotFound(s: seq<User>, id: RequestId)
    requires UniqueIds(s)
    ensures GetUser(DeleteUser(s, id).users, id) == NotFound
  {
  }

  /** From the seed table, DELETE /users/1 then POST gives the new record the
      id 2 that the remaining record already has. */
  lemma IdReusedAfterDelete()
    ensures var deleted := DeleteUser(Seed, Some(1));
      var posted := PostUser(deleted.users, Body(Text("Alex")));
      && posted.response == Response(201, OneUser(User(2, "Alex")))
      && posted.users == [User(2, "Sunny Patil"), User(2, "Alex")]
      && !UniqueIds(posted.users)
  {
  }

  /** Continuing from there, DELETE /users/2 removes only the first of the two
      records, so GET /users/2 still answers 200: GET after DELETE of the same
      id is not always 404. */
  lemma GetAfterDeleteStillFinds()
    ensures var s := [User(2, "Sunny Patil"), User(2, "Alex")];
      && DeleteUser(s, Some(2)) == Outcome([User(2, "Alex")], Response(200, OneUser(User(2, "Sunny Patil"))))
      && GetUser(DeleteUser(s, Some(2)).users, Some(2)) == Response(200, OneUser(User(2, "Alex")))
  {
  }

  /** PUT looks the id up before it validates the name: on the seed table an
      invalid name answers 404 for an absent id and 400 for a present one. */
  lemma PutLooksUpFirst()
    ensures PutUser(Seed, Some(99), Body(NotText)) == Outcome(Seed, NotFound)
    ensures PutUser(Seed, Some(99), NoBody) == Outcome(Seed, NotFound)
    ensures PutUser(Seed, Some(1), Body(Text(""))) == Outcome(Seed, InvalidInput)
  {
  }

  /** POSTing non-empty names in turn onto a table with dense ids appends one
      record per name, in order, with ids counting on from the table's length. */
  lemma {:induction false} PostSession(s: seq<User>, names: seq<string>)
    requires Dense(s)
    requires forall k :: 0 <= k < |names| ==> names[k] != ""
    decreases |names|
    ensures var r := PostAll(s, names);
      && |r| == |s| + |names|
      && r[..|s|] == s
      && (forall k :: 0 <= k < |names| ==> r[|s| + k] == User(|s| + k + 1, names[k]))
      && Dense(r)
  {
    if names != [] {
      var t := PostUser(s, Body(Text(names[0]))).users;
      PostKeepsDense(s, Body(Text(names[0])));
      PostSession(t, names[1..]);
      var r := PostAll(s, names);
      assert r == PostAll(t, names[1..]);
      assert r[..|s|] == r[..|t|][..|s|];
      forall k | 0 <= k < |names|
        ensures r[|s| + k] == User(|s| + k + 1, names[k])
      {
        if k == 0 {
          assert r[|s|] == r[..|t|][|s|];
        } else {
          assert r[|s| + k] == r[|t| + (k - 1)];
        }
      }
    }
  }
}
