/** The user handlers (src/controllers/user.js) with the role lists of
    src/routes/userRoutes.js as preconditions. Deletion is soft: it sets
    `isDeleted`, a path the handlers use although the schema never declares it. */
module Users {
  import opened Common
  import opened Text
  import opened UserModel
  import opened Db

  /** `User.findOne({ email, isDeleted: false })` finds someone. */
  predicate ActiveWithEmail(users: map<Id, User>, email: string) {
    exists id | id in users :: users[id].email == Lower(email) && !users[id].isDeleted
  }

  /** The unique index already holds the (lower-cased) email, deleted or not. */
  predicate AnyWithEmail(users: map<Id, User>, email: string) {
    exists id | id in users :: users[id].email == Lower(email)
  }

  /** The status POST /api/users answers, decided before anything is written:
      400 when a field is missing, when the role is not employee or client, or
      when an active user has the email; 500 when `User.create` fails, on an
      all-space name (the required check runs after trimming) or on an email
      still held by a soft-deleted user (the unique index); 201 otherwise. */
  function CreateStatus(users: map<Id, User>, name: Option<string>, email: Option<string>,
                        password: Option<string>, role: Option<string>): (code: int)
    ensures !(Truthy(name) && Truthy(email) && Truthy(password) && Truthy(role)) ==> code == BadRequest
    ensures (Truthy(name) && Truthy(email) && Truthy(password) && Truthy(role)
             && role.value != "employee" && role.value != "client") ==> code == BadRequest
    ensures (Truthy(name) && Truthy(email) && Truthy(password)
             && (role == Some("employee") || role == Some("client"))) ==>
      && (code == BadRequest <==> ActiveWithEmail(users, email.value))
      && (code == ServerError <==>
            !ActiveWithEmail(users, email.value) && (Trim(name.value) == "" || AnyWithEmail(users, email.value)))
      && (code == Created <==>
            !AnyWithEmail(users, email.value) && Trim(name.value) != "")
    ensures code == BadRequest || code == ServerError || code == Created
  {
    if !(Truthy(name) && Truthy(email) && Truthy(password) && Truthy(role)) then BadRequest
    else if role.value != "employee" && role.value != "client" then BadRequest
    else if ActiveWithEmail(users, email.value) then BadRequest
    else if Trim(name.value) == "" || AnyWithEmail(users, email.value) then ServerError
    else Created
  }

  /** The record `User.create` stores: name trimmed, email lower-cased, the
      password hashed once by the pre-save hook, no avatar, not deleted. It is
      never an admin, and it has the shape every stored user has. */
  function Registered(name: string, email: string, password: string, role: string, company: Option<string>): (u: User)
    requires role == "employee" || role == "client"
    ensures u.role != Admin && RoleName(u.role) == role
    ensures u.name == Trim(name) && u.email == Lower(email) && ComparePassword(u.password, password)
    ensures u.company == company && u.avatar.None? && !u.isDeleted
    ensures Trim(name) != "" && email != "" ==> Stored(u)
  {
    User(Trim(name), Lower(email), HashOnSave(Clear(password), true), ParseRole(role).value, company, None, false)
  }

  /** POST /api/users (admins only): the guards write nothing, so their verdict is
      CreateStatus; on 201 the Registered record is stored under a fresh id
      and the reply is its summary, never the password. */
  method CreateUser(st: Store, caller: Caller, name: Option<string>, email: Option<string>,
                    password: Option<string>, role: Option<string>, company: Option<string>)
    returns (code: int, summary: Option<Summary>)
    requires st.Valid() && st.Authenticated(caller) && caller.role == Admin
    modifies st
    ensures st.Valid()
    ensures code == CreateStatus(old(st.users), name, email, password, role)
    ensures code != Created ==> summary.None? && unchanged(st)
    ensures code == Created ==>
      && (role == Some("employee") || role == Some("client"))
      && var u := Registered(name.value, email.value, password.value, role.value, company);
      && summary == Some(Summary(old(st.clock), u.name, u.email, u.role))
      && old(st.clock) !in old(st.users)
      && st.Snapshot() == old(st.Snapshot()).(users := old(st.users)[old(st.clock) := u],
                                              clock := old(st.clock) + 1)
  {
    code := CreateStatus(st.users, name, email, password, role);
    if code != Created {
      return code, None;
    }
    var fields := User(Trim(name.value), Lower(email.value), Clear(password.value),
                       ParseRole(role.value).value, company, None, false);
    var doc := new UserDocument.Create(fields);
    doc.Save();
    var id := st.AddUser(doc.fields);
    return Created, Some(Summary(id, doc.fields.name, doc.fields.email, doc.fields.role));
  }

  /** The filter getUsers builds: `isDeleted` from `?deleted=true`, and `role`
      when the query gives one. */
  predicate MatchesUserFilter(u: User, deleted: Option<string>, role: Option<string>) {
    && u.isDeleted == (deleted == Some("true"))
    && (Truthy(role) ==> RoleName(u.role) == role.value)
  }

  /** GET /api/users (admins only): exactly the deleted users for `deleted=true`,
      exactly the active ones otherwise, narrowed to one role name when given,
      each without the password. */
  function GetUsers(users: map<Id, User>, deleted: Option<string>, role: Option<string>): (r: map<Id, PublicUser>)
    ensures forall id :: id in r <==> id in users && MatchesUserFilter(users[id], deleted, role)
    ensures forall id :: id in r ==> r[id] == Public(users[id])
  {
    map id | id in users && MatchesUserFilter(users[id], deleted, role) :: Public(users[id])
  }

  /** The deleted and the active listings split the users between them: no user
      is in both, and every user is in one. */
  lemma DeletedAndActivePartition(users: map<Id, User>, role: Option<string>)
    ensures GetUsers(users, Some("true"), role).Keys !! GetUsers(users, None, role).Keys
    ensures !Truthy(role) ==>
      GetUsers(users, Some("true"), role).Keys + GetUsers(users, None, role).Keys == users.Keys
  {
  }

  /** GET /api/users/:id (admins only): 404 for an unknown id, otherwise the user
      without the password, deleted or not. */
  function GetUserById(users: map<Id, User>, id: Id): (r: Reply<PublicUser>)
    ensures r.code == NotFound <==> id !in users
    ensures r.code == Ok <==> id in users
    ensures r.code == Ok ==> r.body == Some(Public(users[id]))
    ensures r.code == NotFound ==> r.body.None?
  {
    if id !in users then Reply(NotFound, None) else Reply(Ok, Some(Public(users[id])))
  }

  /** DELETE /api/users/:id (admins only): 404 for an unknown id, 403 for an admin,
      400 for a user already deleted. The save validates the document, so a user
      whose name an unvalidated profile update left empty fails with 500.
      Otherwise `isDeleted` becomes true and the save leaves the password hash as
      it was, since the password was not modified. */
  method DeleteUser(st: Store, caller: Caller, id: Id) returns (code: int)
    requires st.Valid() && st.Authenticated(caller) && caller.role == Admin
    modifies st
    ensures st.Valid()
    ensures id !in old(st.users) ==> code == NotFound && unchanged(st)
    ensures id in old(st.users) && old(st.users)[id].role == Admin ==> code == Forbidden && unchanged(st)
    ensures (id in old(st.users) && old(st.users)[id].role != Admin && old(st.users)[id].isDeleted) ==>
      code == BadRequest && unchanged(st)
    ensures (id in old(st.users) && old(st.users)[id].role != Admin && !old(st.users)[id].isDeleted
             && old(st.users)[id].name == "") ==>
      code == ServerError && unchanged(st)
    ensures (id in old(st.users) && old(st.users)[id].role != Admin && !old(st.users)[id].isDeleted
             && old(st.users)[id].name != "") ==>
      && code == Ok
      && st.Snapshot() == old(st.Snapshot()).(users := old(st.users)[id := old(st.users)[id].(isDeleted := true)])
  {
    if id !in st.users {
      return NotFound;
    }
    var doc := new UserDocument.Load(st.users[id]);
    if doc.fields.role == Admin {
      return Forbidden;
    }
    if doc.fields.isDeleted {
      return BadRequest;
    }
    doc.MarkDeleted();
    if doc.fields.name == "" {
      return ServerError;
    }
    doc.Save();
    st.users := st.users[id := doc.fields];
    return Ok;
  }

  /** The updates object updateProfile assembles: the trimmed name and the company
      when truthy, the avatar when an upload produced one; nothing else. */
  function ProfileUpdate(u: User, name: Option<string>, company: Option<string>, avatar: Option<string>): (v: User)
    ensures v.(name := u.name, company := u.company, avatar := u.avatar) == u
    ensures v.name == (if Truthy(name) then Trim(name.value) else u.name)
    ensures v.company == (if Truthy(company) then company else u.company)
    ensures v.avatar == (if avatar.Some? then avatar else u.avatar)
  {
    u.(name := if Truthy(name) then Trim(name.value) else u.name,
       company := if Truthy(company) then company else u.company,
       avatar := if avatar.Some? then avatar else u.avatar)
  }

  /** PATCH /api/users/profile (any logged-in user): only the caller's own record
      changes, and only in name, company and avatar. `avatar` is the URL the
      upload returned, when a file was sent. */
  method UpdateProfile(st: Store, caller: Caller, name: Option<string>, company: Option<string>, avatar: Option<string>)
    returns (code: int, user: PublicUser)
    requires st.Valid() && st.Authenticated(caller)
    modifies st
    ensures st.Valid()
    ensures code == Ok
    ensures st.Snapshot() == old(st.Snapshot()).(
      users := old(st.users)[caller.id := ProfileUpdate(old(st.users)[caller.id], name, company, avatar)])
    ensures user == Public(st.users[caller.id])
  {
    var updated := ProfileUpdate(st.users[caller.id], name, company, avatar);
    TrimmedIsTrimmed(updated, st.users[caller.id], name);
    st.users := st.users[caller.id := updated];
    return Ok, Public(updated);
  }

  lemma TrimmedIsTrimmed(v: User, u: User, name: Option<string>)
    requires Stored(u)
    requires v.email == u.email && v.password == u.password
    requires v.name == (if Truthy(name) then Trim(name.value) else u.name)
    ensures Stored(v)
  {
  }
}
