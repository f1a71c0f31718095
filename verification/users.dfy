/** The user registry behind the user handlers. Creation checks the required
    fields and refuses a registered email; update applies the body with no
    such check, so email uniqueness survives create but not update. */
module Users {
  import opened Common

  /** A stored user. The handlers require a `username`, but the user document
      has no such field, so it is checked and then not kept; password hashing
      happens outside this model, so `password` is the value as submitted. */
  datatype User = User(
    email: string,
    password: string,
    firstName: Option<string>,
    lastName: Option<string>)

  datatype UserBody = UserBody(
    email: Option<string>,
    password: Option<string>,
    username: Option<string>,
    firstName: Option<string>,
    lastName: Option<string>)

  /** Users keyed by their id. */
  type Registry = map<Id, User>

  predicate ValidUser(body: UserBody) {
    TruthyString(body.email) && TruthyString(body.password) && TruthyString(body.username)
  }

  predicate EmailTaken(users: Registry, email: string) {
    exists u :: u in users && users[u].email == email
  }

  /** No two users share an email. */
  predicate UniqueEmails(users: Registry) {
    forall a, b :: a in users && b in users && users[a].email == users[b].email ==> a == b
  }

  /** `POST /users`, with `id` the identifier the database assigns. */
  function CreateUser(users: Registry, id: Id, body: UserBody): (t: Transition<Registry, User>)
    ensures !ValidUser(body) ==> t == Transition(users, Err(BadRequest(IncompleteRequest)))
    ensures ValidUser(body) && EmailTaken(users, body.email.value) ==>
      t == Transition(users, Err(BadRequest(DuplicateEmail)))
    ensures t.result.Ok? <==> ValidUser(body) && !EmailTaken(users, body.email.value) && id !in users
    ensures t.result.Ok? ==>
      && t.result.value == User(body.email.value, body.password.value, body.firstName, body.lastName)
      && t.next.Keys == users.Keys + {id}
      && t.next[id] == t.result.value
      && (forall u :: u in users ==> t.next[u] == users[u])
    ensures t.result.Err? ==> t.next == users
    ensures UniqueEmails(users) ==> UniqueEmails(t.next)
  {
    if !ValidUser(body) then Transition(users, Err(BadRequest(IncompleteRequest)))
    else if EmailTaken(users, body.email.value) then Transition(users, Err(BadRequest(DuplicateEmail)))
    else if id in users then Transition(users, Err(BadRequest(DuplicateKey)))
    else
      var user := User(body.email.value, body.password.value, body.firstName, body.lastName);
      Transition(users[id := user], Ok(user))
  }

  /** `PUT /users/:id`: every field the body carries replaces the stored one,
      without validation of any kind. */
  function UpdateUser(users: Registry, id: Id, body: UserBody): (t: Transition<Registry, User>)
    ensures id !in users ==> t == Transition(users, Err(NotFound))
    ensures id in users ==>
      && t.result.Ok?
      && t.result.value.email == (if body.email.Some? then body.email.value else users[id].email)
      && t.result.value.password == (if body.password.Some? then body.password.value else users[id].password)
      && t.result.value.firstName == (if body.firstName.Some? then body.firstName else users[id].firstName)
      && t.result.value.lastName == (if body.lastName.Some? then body.lastName else users[id].lastName)
      && t.next.Keys == users.Keys
      && t.next[id] == t.result.value
      && (forall u :: u in users && u != id ==> t.next[u] == users[u])
  {
    if id !in users then Transition(users, Err(NotFound))
    else
      var current := users[id];
      var user := User(
        if body.email.Some? then body.email.value else current.email,
        if body.password.Some? then body.password.value else current.password,
        if body.firstName.Some? then body.firstName else current.firstName,
        if body.lastName.Some? then body.lastName else current.lastName);
      Transition(users[id := user], Ok(user))
  }

  /** Update does not keep emails unique: moving a second user onto the
      first one's email is accepted. */
  lemma UpdateUserBreaksUniqueEmails()
    ensures var users := map["a" := User("x@y", "pw", None, None), "b" := User("z@y", "pw", None, None)];
      var t := UpdateUser(users, "b", UserBody(Some("x@y"), None, None, None, None));
      UniqueEmails(users) && t.result.Ok? && !UniqueEmails(t.next)
  {
    var users := map["a" := User("x@y", "pw", None, None), "b" := User("z@y", "pw", None, None)];
    var t := UpdateUser(users, "b", UserBody(Some("x@y"), None, None, None, None));
    assert t.next["a"].email == t.next["b"].email;
  }

  /** `DELETE /users/:id`. */
  function DeleteUser(users: Registry, id: Id): (t: Transition<Registry, ()>)
    ensures id !in users ==> t == Transition(users, Err(NotFound))
    ensures id in users ==> t.result.Ok?
    ensures t.next.Keys == users.Keys - {id}
    ensures forall u :: u in t.next ==> t.next[u] == users[u]
    ensures UniqueEmails(users) ==> UniqueEmails(t.next)
  {
    if id !in users then Transition(users, Err(NotFound))
    else Transition(users - {id}, Ok(()))
  }

  /** `GET /users/:id`. */
  function GetUserById(users: Registry, id: Id): (r: Result<User>)
    ensures r.Ok? <==> id in users
    ensures r.Ok? ==> r.value == users[id]
    ensures r.Err? ==> r.error == NotFound
  {
    if id in users then Ok(users[id]) else Err(NotFound)
  }
}
