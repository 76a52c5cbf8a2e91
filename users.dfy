/** The in-memory user table of the CRUD server: its records, what a request
    hands to a route handler, what the handler answers, and the effect of each
    handler on the table, written as functions of the table. */
module Users {

  datatype Option<+T> = None | Some(value: T)

  /** A stored record `{ id, name }`. */
  datatype User = User(id: int, name: string)

  /** The path parameter `id` after `parseInt`; `None` stands for `NaN`,
      which is strictly equal to no id. */
  type RequestId = Option<int>

  /** The `name` member of the request payload, as the handler destructures it:
      missing, a string, or any other JSON value (number, boolean, null, ...). */
  datatype NameField = Absent | Text(text: string) | NotText

  /** The parsed request payload. `NoBody` is a request without a body: the
      framework then hands the handler no payload object, destructuring it
      throws, and the framework answers 500. */
  datatype Payload = NoBody | Body(name: NameField)

  /** What a handler puts in its response. */
  datatype Content = OneUser(user: User) | AllUsers(users: seq<User>) | Error(message: string)

  /** A response: the status code and the content. */
  datatype Response = Response(code: int, content: Content)

  const NotFound := Response(404, Error("User not found"))
  const InvalidInput := Response(400, Error("Invalid input"))
  /** The framework's answer when a handler throws. */
  const ServerError := Response(500, Error("Internal Server Error"))

  /** The table as the process starts. */
  const Seed: seq<User> := [User(1, "Akshay Patil"), User(2, "Sunny Patil")]

  /** The table after a handler ran, and the handler's answer. */
  datatype Outcome = Outcome(users: seq<User>, response: Response)

  /** The lookup callback `u => u.id === userId`. */
  predicate Matches(u: User, id: RequestId) {
    id == Some(u.id)
  }

  /** The callback is strict equality on the id: `NaN` matches no record. */
  lemma MatchesStrictEquality(u: User, id: RequestId)
    ensures id == None ==> !Matches(u, id)
    ensures id.Some? ==> (Matches(u, id) <==> u.id == id.value)
  {
  }

  /** No record of `s` has the requested id. */
  predicate NoMatch(s: seq<User>, id: RequestId) {
    forall j :: 0 <= j < |s| ==> !Matches(s[j], id)
  }

  /** `i` is the position of the first record of `s` with the requested id. */
  predicate IsFirstMatch(s: seq<User>, id: RequestId, i: int) {
    0 <= i < |s| && Matches(s[i], id) && forall j :: 0 <= j < i ==> !Matches(s[j], id)
  }

  /** `Array.prototype.findIndex` with the id callback: the first matching
      position, or -1 when there is none. */
  function FindIndex(s: seq<User>, id: RequestId): (i: int)
    ensures -1 <= i < |s|
    ensures i == -1 <==> NoMatch(s, id)
    ensures i != -1 ==> IsFirstMatch(s, id, i)
  {
    if |s| == 0 then -1
    else if Matches(s[0], id) then 0
    else
      var k := FindIndex(s[1..], id);
      assert forall j :: 1 <= j < |s| ==> s[j] == s[1..][j - 1];
      if k == -1 then -1 else k + 1
  }

  /** `Joi.object({ name: Joi.string().required() })` on `{ name }`: the name
      must be present, must be a string, and a string must not be empty. */
  predicate ValidName(f: NameField) {
    f.Text? && f.text != ""
  }

  /** The name check refuses a missing name (`required()`), a value that is
      not a string (`string()`) and the empty string (refused by default), and
      accepts every other string. */
  lemma ValidNameRule(f: NameField)
    ensures f == Absent ==> !ValidName(f)
    ensures f == NotText ==> !ValidName(f)
    ensures f == Text("") ==> !ValidName(f)
    ensures f.Text? && |f.text| > 0 ==> ValidName(f)
  {
  }

  /** GET /users/{id}: the first record with that id, or 404. */
  function GetUser(s: seq<User>, id: RequestId): (r: Response)
    ensures r == NotFound <==> NoMatch(s, id)
    ensures r != NotFound ==> exists i :: IsFirstMatch(s, id, i) && r == Response(200, OneUser(s[i]))
  {
    var i := FindIndex(s, id);
    if i == -1 then NotFound else Response(200, OneUser(s[i]))
  }

  /** POST /users: the payload is read, the name validated, and a record with
      id `users.length + 1` appended. */
  function PostUser(s: seq<User>, p: Payload): (o: Outcome)
    ensures p.NoBody? ==> o == Outcome(s, ServerError)
    ensures p.Body? && !ValidName(p.name) ==> o == Outcome(s, InvalidInput)
    ensures p.Body? && ValidName(p.name) ==>
      && |o.users| == |s| + 1
      && o.users[..|s|] == s
      && o.users[|s|] == User(|s| + 1, p.name.text)
      && o.response == Response(201, OneUser(o.users[|s|]))
  {
    match p
    case NoBody => Outcome(s, ServerError)
    case Body(name) =>
      if !ValidName(name) then Outcome(s, InvalidInput)
      else
        var u := User(|s| + 1, name.text);
        Outcome(s + [u], Response(201, OneUser(u)))
  }

  /** PUT /users/{id}: the id is looked up first, then the payload is read and
      the name validated, then the name of the first matching record set. */
  function PutUser(s: seq<User>, id: RequestId, p: Payload): (o: Outcome)
    ensures NoMatch(s, id) ==> o == Outcome(s, NotFound)
    ensures !NoMatch(s, id) && p.NoBody? ==> o == Outcome(s, ServerError)
    ensures !NoMatch(s, id) && p.Body? && !ValidName(p.name) ==> o == Outcome(s, InvalidInput)
    ensures !NoMatch(s, id) && p.Body? && ValidName(p.name) ==>
      && |o.users| == |s|
      && (forall k :: 0 <= k < |s| ==> o.users[k].id == s[k].id)
      && (forall k :: 0 <= k < |s| && !IsFirstMatch(s, id, k) ==> o.users[k] == s[k])
      && exists i :: IsFirstMatch(s, id, i) && o.users[i].name == p.name.text
                     && o.response == Response(200, OneUser(o.users[i]))
  {
    var i := FindIndex(s, id);
    if i == -1 then Outcome(s, NotFound)
    else
      match p
      case NoBody => Outcome(s, ServerError)
      case Body(name) =>
        if !ValidName(name) then Outcome(s, InvalidInput)
        else
          var u := s[i].(name := name.text);
          Outcome(s[i := u], Response(200, OneUser(u)))
  }

  /** DELETE /users/{id}: the first matching record is spliced out and
      returned, or 404. */
  function DeleteUser(s: seq<User>, id: RequestId): (o: Outcome)
    ensures NoMatch(s, id) ==> o == Outcome(s, NotFound)
    ensures !NoMatch(s, id) ==>
      && |o.users| == |s| - 1
      && exists i :: IsFirstMatch(s, id, i)
                     && o.response == Response(200, OneUser(s[i]))
                     && (forall k :: 0 <= k < i ==> o.users[k] == s[k])
                     && (forall k :: i <= k < |o.users| ==> o.users[k] == s[k + 1])
  {
    var i := FindIndex(s, id);
    if i == -1 then Outcome(s, NotFound)
    else Outcome(s[..i] + s[i + 1..], Response(200, OneUser(s[i])))
  }
}
