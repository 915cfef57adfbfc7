/** The User schema (src/models/userModel.js): fields, the role enum, the
    lowercase/trim setters, the unique email index, the pre-save hashing
    hook and comparePassword. */
module UserModel {
  import opened Common
  import opened Text

  datatype Role = Admin | Employee | Client

  function RoleName(r: Role): string {
    match r
    case Admin => "admin"
    case Employee => "employee"
    case Client => "client"
  }

  /** The schema's enum check on `role`: exactly the three role names are accepted. */
  function ParseRole(s: string): (r: Option<Role>)
    ensures r.Some? ==> RoleName(r.value) == s
    ensures r.None? ==> forall x :: RoleName(x) != s
  {
    if s == "admin" then Some(Admin)
    else if s == "employee" then Some(Employee)
    else if s == "client" then Some(Client)
    else None
  }

  /** A password value: the clear text a request supplied, or bcrypt's digest
      of an earlier value. `Digest` stands for the one-way hash: it is injective
      and never equal to a clear text, and the model reads its argument only
      through ComparePassword, which recomputes the digest of a candidate. */
  datatype Password = Clear(text: string) | Digest(of: Password)

  /** bcrypt.compare(plain, stored): true exactly when `stored` is the digest of `plain`. */
  function ComparePassword(stored: Password, plain: string): (b: bool)
    ensures b ==> stored.Digest? && stored.of.Clear? && stored.of.text == plain
    ensures stored.Clear? ==> !b
  {
    stored == Digest(Clear(plain))
  }

  /** The pre-save hook: hash the password only when it was modified since the last save. */
  function HashOnSave(pw: Password, modified: bool): Password {
    if modified then Digest(pw) else pw
  }

  /** A password set from clear text and saved once matches exactly that text. */
  lemma SavedPasswordMatchesOnlyItsText(p: string, q: string)
    ensures ComparePassword(HashOnSave(Clear(p), true), q) <==> p == q
  {
    if ComparePassword(HashOnSave(Clear(p), true), q) {
      assert Digest(Clear(p)) == Digest(Clear(q));
      assert Clear(p).text == Clear(q).text;
    }
  }

  /** Why the hook checks isModified: a digest hashed a second time matches no
      clear text at all, so the user could never log in again. */
  lemma DoubleHashMatchesNothing(p: string, q: string)
    ensures !ComparePassword(HashOnSave(HashOnSave(Clear(p), true), true), q)
  {
    assert HashOnSave(HashOnSave(Clear(p), true), true) == Digest(Digest(Clear(p)));
    assert Digest(Clear(p)) != Clear(q);
  }

  datatype User = User(
    name: string,
    email: string,
    password: Password,
    role: Role,
    company: Option<string>,
    avatar: Option<string>,
    isDeleted: bool)

  /** What a stored user looks like after the setters and the hook have run:
      name trimmed, email lower-case and non-empty, password hashed exactly once. */
  predicate Stored(u: User) {
    && IsTrimmed(u.name)
    && IsLower(u.email) && u.email != ""
    && u.password.Digest? && u.password.of.Clear?
  }

  /** The unique index on `email`, which covers deleted users as well. */
  predicate UniqueEmails(users: map<Id, User>) {
    forall a, b :: a in users && b in users && users[a].email == users[b].email ==> a == b
  }

  predicate UsersValid(users: map<Id, User>) {
    && (forall id :: id in users ==> Stored(users[id]))
    && UniqueEmails(users)
  }

  /** The user as the handlers send it back after `select("-password")`. */
  datatype PublicUser = PublicUser(
    name: string,
    email: string,
    role: Role,
    company: Option<string>,
    avatar: Option<string>,
    isDeleted: bool)

  function Public(u: User): PublicUser {
    PublicUser(u.name, u.email, u.role, u.company, u.avatar, u.isDeleted)
  }

  /** The `{ id, name, email, role }` summary that login and createUser return. */
  datatype Summary = Summary(id: Id, name: string, email: string, role: Role)

  /** `User.findOne({ email, ... })`: Mongoose casts the filter through the schema,
      so the lowercase setter applies to the query value as well. With the unique
      index there is at most one such user. */
  function FindByEmail(users: map<Id, User>, email: string): (r: Option<Id>)
    requires UniqueEmails(users)
    ensures r.Some? ==> r.value in users && users[r.value].email == Lower(email)
    ensures r.None? ==> forall id :: id in users ==> users[id].email != Lower(email)
  {
    var key := Lower(email);
    if exists id | id in users :: users[id].email == key then
      var id :| id in users && users[id].email == key;
      Some(id)
    else
      None
  }

  /** A Mongoose document of the User model, with the one piece of change
      tracking the pre-save hook consults: whether `password` was modified. */
  class UserDocument {
    var fields: User
    var passwordModified: bool

    /** A document built by `User.create`: every path counts as modified. */
    constructor Create(u: User)
      ensures fields == u && passwordModified
    {
      fields := u;
      passwordModified := true;
    }

    /** A document returned by `findById`: nothing modified yet. */
    constructor Load(u: User)
      ensures fields == u && !passwordModified
    {
      fields := u;
      passwordModified := false;
    }

    /** `user.isDeleted = true`: an assignment to another path. */
    method MarkDeleted()
      modifies this
      ensures fields == old(fields).(isDeleted := true)
      ensures passwordModified == old(passwordModified)
    {
      fields := fields.(isDeleted := true);
    }

    /** `save()`: the pre-save hook, then the write, after which nothing counts as modified. */
    method Save()
      modifies this
      ensures fields == old(fields).(password := HashOnSave(old(fields.password), old(passwordModified)))
      ensures !passwordModified
    {
      if passwordModified {
        fields := fields.(password := Digest(fields.password));
      }
      passwordModified := false;
    }
  }
}
