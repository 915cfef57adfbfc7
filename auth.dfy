/** Login, logout and the `protect` middleware (src/controllers/auth.js,
    src/middleware/protect.js). Signing and verifying the JWT and the cookie
    transport are left out: a token is the pair of claims it carries. */
module Auth {
  import opened Common
  import opened Text
  import opened UserModel
  import opened Db

  /** The claims `jwt.sign` puts in the token: the user's id and role. */
  datatype Token = Token(id: Id, role: Role)

  /** The cookie's `maxAge`: one day in milliseconds. */
  const CookieMaxAge: nat := 24 * 60 * 60 * 1000
  /** The token lifetime used when JWT_EXPIRES_IN is not set. */
  const DefaultExpiresIn: string := "1d"

  const MissingFields: string := "Email and password required"
  const InvalidCredentials: string := "Invalid credentials"
  const LoginSuccessful: string := "Login successful"

  /** What login sends: status, message, and on success the summary and the token. */
  datatype LoginReply = LoginReply(code: int, message: string, user: Option<Summary>, token: Option<Token>)

  /** The one answer for every failed credential check. */
  const Rejected: LoginReply := LoginReply(Unauthorized, InvalidCredentials, None, None)

  /** POST /api/auth/login: 400 when the email or the password is missing or
      empty; 401 "Invalid credentials" both for an unknown email and for a
      wrong password; otherwise 200 with the user's summary (never the
      password) and a token for the user's id and role. Soft deletion is not
      consulted. */
  function Login(users: map<Id, User>, email: Option<string>, password: Option<string>): (r: LoginReply)
    requires UniqueEmails(users)
    ensures !Truthy(email) || !Truthy(password) ==> r == LoginReply(BadRequest, MissingFields, None, None)
    ensures Truthy(email) && Truthy(password) ==>
      (r.code == Ok <==> exists id :: id in users && users[id].email == Lower(email.value)
                                    && ComparePassword(users[id].password, password.value))
    ensures Truthy(email) && Truthy(password) && r.code != Ok ==> r == Rejected
    ensures r.code == Ok ==>
      && r.user.Some? && r.token.Some?
      && var id := r.user.value.id;
      && id in users && users[id].email == Lower(email.value)
      && ComparePassword(users[id].password, password.value)
      && r.user.value == Summary(id, users[id].name, users[id].email, users[id].role)
      && r.token.value == Token(id, users[id].role)
  {
    if !Truthy(email) || !Truthy(password) then
      LoginReply(BadRequest, MissingFields, None, None)
    else
      match FindByEmail(users, email.value)
      case None => Rejected
      case Some(id) =>
        if !ComparePassword(users[id].password, password.value) then Rejected
        else
          var u := users[id];
          LoginReply(Ok, LoginSuccessful, Some(Summary(id, u.name, u.email, u.role)), Some(Token(id, u.role)))
  }

  /** A user created with an email and a password can log in with them, in any
      letter case of the email, and gets a token for itself. */
  lemma LoginAfterCreate(users: map<Id, User>, id: Id, email: string, password: string)
    requires UniqueEmails(users) && id in users
    requires users[id].email == Lower(email) && users[id].password == HashOnSave(Clear(password), true)
    requires email != "" && password != ""
    ensures Login(users, Some(email), Some(password)).code == Ok
    ensures Login(users, Some(email), Some(password)).token == Some(Token(id, users[id].role))
  {
    assert ComparePassword(users[id].password, password);
  }

  /** A stored user's password is matched by exactly the clear text it was set from. */
  lemma OnlyTheSetPasswordLogsIn(users: map<Id, User>, id: Id, chosen: string, tried: string)
    requires UsersValid(users) && id in users && users[id].password == Digest(Clear(chosen))
    requires users[id].email != "" && tried != ""
    ensures Login(users, Some(users[id].email), Some(tried)).code == Ok <==> tried == chosen
  {
    LowerFixesLower(users[id].email);
    SavedPasswordMatchesOnlyItsText(chosen, tried);
  }

  /** Soft-deleting a user changes nothing about logging in: the lookup is by
      email alone. */
  lemma LoginIgnoresDeletion(users: map<Id, User>, id: Id, email: Option<string>, password: Option<string>)
    requires UniqueEmails(users) && id in users
    ensures UniqueEmails(users[id := users[id].(isDeleted := true)])
    ensures Login(users[id := users[id].(isDeleted := true)], email, password) == Login(users, email, password)
  {
    var users' := users[id := users[id].(isDeleted := true)];
    assert forall k :: k in users' ==> users'[k].email == users[k].email && users'[k].password == users[k].password;
    if Truthy(email) && Truthy(password) {
      var a, b := FindByEmail(users', email.value), FindByEmail(users, email.value);
      if a.Some? {
        assert b.Some? && b.value == a.value;
      }
    }
  }

  /** POST /api/auth/logout: the cookie is cleared and the answer is always 200. */
  function Logout(): (code: int)
    ensures code == Ok
  {
    Ok
  }

  /** The `protect` middleware: 401 without a token that verifies, and 401 when
      its user is gone; otherwise the caller is the stored user, with the role
      stored now rather than the role claimed when the token was signed. */
  function Protect(users: map<Id, User>, token: Option<Token>): (r: Reply<Caller>)
    ensures r.code == Ok <==> token.Some? && token.value.id in users
    ensures r.code != Ok ==> r.code == Unauthorized && r.body.None?
    ensures r.code == Ok ==>
      r.body.Some? && r.body.value.id == token.value.id && r.body.value.role == users[token.value.id].role
  {
    if token.None? then Reply(Unauthorized, None)
    else if token.value.id !in users then Reply(Unauthorized, None)
    else Reply(Ok, Some(Caller(token.value.id, users[token.value.id].role)))
  }

  /** The caller `protect` admits is exactly what the handlers assume of it. */
  lemma ProtectAdmitsAuthenticated(st: Store, token: Option<Token>)
    requires Protect(st.users, token).code == Ok
    ensures st.Authenticated(Protect(st.users, token).body.value)
  {
  }

  /** A token issued at login lets its holder through `protect` as long as the
      user is stored; soft deletion does not revoke it. */
  lemma LoginTokenPassesProtect(users: map<Id, User>, email: Option<string>, password: Option<string>, id: Id)
    requires UniqueEmails(users)
    requires Login(users, email, password).code == Ok
    requires Login(users, email, password).token.value.id == id
    ensures Protect(users, Login(users, email, password).token).code == Ok
    ensures Protect(users[id := users[id].(isDeleted := true)], Login(users, email, password).token).code == Ok
  {
  }
}
