# User table of the CRUD server, in Dafny

The server keeps its users in a module-level array that starts with two
records, `{id: 1, name: 'Akshay Patil'}` and `{id: 2, name: 'Sunny Patil'}`.
Five route handlers work on that array:

- GET /users returns the whole array.
- GET /users/{id} returns the first record with that id.
- POST /users validates `name` and pushes `{id: users.length + 1, name}`.
- PUT /users/{id} looks the id up, then validates `name`, then assigns the name in place.
- DELETE /users/{id} looks the id up and splices the record out.

The project is organised in three modules:

- `Users` (users.dfy) holds the values. A record is `User(id, name)`. The id
  from the path, after `parseInt`, is `Option<int>`; `None` stands for `NaN`,
  which is strictly equal to no id. The request payload is `NoBody` or
  `Body(name)`, and the name field is `Absent`, `Text(s)` or `NotText`. A
  response is a status code with a content. The module also has the
  `findIndex` lookup (`FindIndex`) and the validation rule
  `Joi.string().required()` (`ValidName`: present, a string, not empty).
  Each handler's effect is a pure function from the old table to an
  `Outcome`, the new table together with the response. Each function's
  contract states that handler's error cases, its frame and what it returns.
- `Store` (store.dfy) is the server's state: the class `UserStore` with a
  `users: seq<User>` field. `Create`, `Update` and `Delete` change it in
  place; `List` and `Get` only read it. `Get`, `Create`, `Update` and
  `Delete` are each proved to give exactly the table and response of the
  matching `Users` function. `List` answers the stored sequence. `IndexOf`
  is the `findIndex` scan as a loop, proved equal to `FindIndex`.
- `UserProperties` (properties.dfy) holds lemmas that relate several calls:
  PUT is idempotent, GET after PUT returns the new name, DELETE conserves
  records, and the id scheme's guarantees and its counterexamples.

What the code guarantees, and what it does not:

- The `users.length + 1` scheme does not keep ids unique: after a DELETE, a
  POST can hand out an id still in use (`IdReusedAfterDelete`, from the seed
  table), and GET can then answer 200 for an id just deleted
  (`GetAfterDeleteStillFinds`). GET after DELETE of the same id does answer
  404 while ids are unique (`DeleteThenGetNotFound`, `DeleteKeepsUnique`),
  and ids stay 1..n on a table that has only been appended to
  (`PostKeepsDense`, `PostSession`).
- PUT looks the id up before it reads the payload or validates the name, so
  an absent id answers 404 even when the name is invalid or the body is
  missing (`PutUser`, `PutLooksUpFirst`).
- A request without a body reaches the handler with no payload object, so
  destructuring `{ name }` throws. The framework then answers 500. The model
  keeps this as `ServerError`, and it comes after the lookup in PUT.

## Model

| member | source | states |
|---|---|---|
| `Users.FindIndex` | server.js:72 | the result is -1 exactly when no record has the requested id; otherwise it is the position of the first record that has it (a NaN id matches nothing) |
| `Users.MatchesStrictEquality` | server.js:29 | the lookup callback `u => u.id === userId` holds exactly when the record's id equals the parsed id; a `NaN` id (`None`) matches no record |
| `Users.ValidNameRule` | server.js:46-52 | the name check `Joi.string().required()` refuses a missing name, a non-string value and the empty string, and accepts every non-empty string; the same check guards PUT at server.js:81-89 |
| `Users.GetUser` | server.js:27-35 | 404 "User not found" exactly when no record has the id; otherwise 200 with the first record that has it |
| `Users.PostUser` | server.js:42-64 | no body: 500 and the table unchanged; a name that is missing, not a string or empty: 400 "Invalid input" and the table unchanged; otherwise the old table is kept as a prefix, exactly one record `(old length + 1, name)` is appended, and it is answered with 201 |
| `Users.PutUser` | server.js:70-94 | an absent id answers 404 and leaves the table unchanged whatever the payload; then a missing body answers 500 and an invalid name 400, both leaving the table unchanged; otherwise the length and every id stay the same, every record but the first match stays the same, that record gets the new name, and it is answered with 200 |
| `Users.DeleteUser` | server.js:100-111 | an absent id answers 404 and leaves the table unchanged; otherwise the length drops by one, the first matching record is answered with 200, the records before it stay in place and the ones after it shift down by one in the same order |
| `Store.UserStore.constructor` | server.js:10-13 | the table starts as the two sample records |
| `Store.UserStore.IndexOf` | server.js:102 | the `findIndex` scan loop returns exactly `FindIndex` of the current table |
| `Store.UserStore.List` | server.js:19-21 | answers 200 with the stored sequence exactly, in stored order; it cannot change the table (no modifies clause) |
| `Store.UserStore.Get` | server.js:27-35 | the answer is `GetUser` of the current table; it cannot change the table |
| `Store.UserStore.Create` | server.js:42-64 | the new table and the answer are exactly `PostUser` of the old table |
| `Store.UserStore.Update` | server.js:70-94 | the new table and the answer are exactly `PutUser` of the old table |
| `Store.UserStore.Delete` | server.js:100-111 | the new table and the answer are exactly `DeleteUser` of the old table |
| `UserProperties.FindIndexSameIds` | server.js:72 | the lookup depends on ids alone: two tables with the same ids at every position give the same index |
| `UserProperties.PutIdempotent` | server.js:91-93 | a second identical PUT gives the same table and the same answer as the first |
| `UserProperties.GetAfterPut` | server.js:91-93 | after a PUT that answered 200, GET on the same id answers with the updated record |
| `UserProperties.DeleteKeepsOthers` | server.js:108-110 | after DELETE the remaining records plus the answered record make up the old table as a multiset; a 404 leaves it whole |
| `UserProperties.SeedDense` | server.js:10-13 | the seed table has ids 1, 2 in order, so its ids are unique |
| `UserProperties.DenseUnique` | server.js:57 | a table whose ids are 1..n in order has unique ids |
| `UserProperties.PostKeepsDense` | server.js:56-61 | on a table with ids 1..n, POST keeps ids 1..n+1; the new id is held by no earlier record, and GET on it answers 200 with the new record |
| `UserProperties.PostSession` | server.js:56-63 | POSTing non-empty names in turn onto a table with ids 1..n appends one record per name, in order, with ids n+1, n+2, ..., and keeps the old records as a prefix |
| `UserProperties.PutKeepsIds` | server.js:91 | PUT keeps ids 1..n and keeps ids unique |
| `UserProperties.DeleteKeepsUnique` | server.js:108 | DELETE keeps ids unique |
| `UserProperties.DeleteThenGetNotFound` | server.js:102-108 | while ids are unique, GET after DELETE of the same id answers 404 |
| `UserProperties.IdReusedAfterDelete` | server.js:57 | from the seed table, DELETE /users/1 then POST creates a second record with id 2, so ids are no longer unique |
| `UserProperties.GetAfterDeleteStillFinds` | server.js:108 | with two records of id 2, DELETE /users/2 removes only the first, and GET /users/2 then answers 200 with the second |
| `UserProperties.PutLooksUpFirst` | server.js:72-89 | on the seed table, PUT with an invalid name or no body answers 404 for an absent id, and an empty name answers 400 for a present one |

## Left out

- Server construction, route registration, start-up, logging and process exit are left out. They are framework and I/O plumbing.
- `parseInt` is left out: the model takes the path id as already parsed. Note that `parseInt` accepts a numeric prefix, so `"1abc"` means 1.
- Serialisation of responses to JSON is left out. The 500 answer keeps only its status and its error phrase, not the framework's whole error body.
- Joi's internals are left out. The rule it applies here is written out as `ValidName`.
- Aliasing of the record object that PUT returns is left out. Records are values in this model.
- Concurrency is left out because there is none: each handler runs to completion on one thread.
- JavaScript numbers are modelled as unbounded integers. The table can never grow large enough for `users.length + 1` to lose precision.
