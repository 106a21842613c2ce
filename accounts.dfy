/** The `User` row shared by both variants (app/models.py, src/models.py), the
    password hashing it delegates to Flask-Bcrypt, and the login decision. */
module Accounts {
  import opened Common

  /** A bcrypt hash, opaque to the application: the salt drawn when it was made
      and the password it was made from. Two hashes of one password differ only
      in their salt. */
  datatype PasswordHash = Bcrypt(salt: nat, password: string)

  datatype User = User(username: string, email: string, passwordHash: PasswordHash, isAdmin: bool)

  /** `bcrypt.check_password_hash(hash, password)`: None stands for the TypeError
      a missing password raises. */
  function CheckPasswordHash(h: PasswordHash, password: Option<string>): (r: Option<bool>)
    ensures r.None? <==> password.None?
    ensures r.Some? ==> (r.value <==> password.value == h.password)
  {
    if password.None? then None else Some(password.value == h.password)
  }

  /** `bcrypt.generate_password_hash(password)`: refuses (ValueError, here None) a
      missing or empty password. */
  function GeneratePasswordHash(password: Option<string>, salt: nat): (h: Option<PasswordHash>)
    ensures h.None? <==> password.None? || password.value == ""
    ensures h.Some? ==> forall p: string :: CheckPasswordHash(h.value, Some(p)) == Some(p == password.value)
  {
    if password.None? || password.value == "" then None else Some(Bcrypt(salt, password.value))
  }

  /** `User.set_password`: the record with the new hash, or None when hashing fails. */
  function SetPassword(u: User, password: Option<string>, salt: nat): (r: Option<User>)
    ensures r.None? <==> password.None? || password.value == ""
    ensures r.Some? ==> r.value.username == u.username && r.value.email == u.email && r.value.isAdmin == u.isAdmin
    ensures r.Some? ==> forall p: string :: CheckPasswordHash(r.value.passwordHash, Some(p)) == Some(p == password.value)
  {
    var h := GeneratePasswordHash(password, salt);
    if h.None? then None else Some(u.(passwordHash := h.value))
  }

  /** `User(username=..., email=...)` followed by `set_password`: `is_admin` takes
      its column default, False. */
  function NovoUsuario(username: string, email: string, password: Option<string>, salt: nat): (r: Option<User>)
    ensures r.None? <==> password.None? || password.value == ""
    ensures r.Some? ==> r.value.username == username && r.value.email == email && !r.value.isAdmin
    ensures r.Some? ==> forall p: string :: CheckPasswordHash(r.value.passwordHash, Some(p)) == Some(p == password.value)
  {
    var h := GeneratePasswordHash(password, salt);
    if h.None? then None else Some(User(username, email, h.value, false))
  }

  /** The unique constraint on `username`. */
  predicate UsernamesUnicos(users: map<int, User>) {
    forall a, b | a in users && b in users && users[a].username == users[b].username :: a == b
  }

  /** The unique constraint on `email`. */
  predicate EmailsUnicos(users: map<int, User>) {
    forall a, b | a in users && b in users && users[a].email == users[b].email :: a == b
  }

  predicate UsernameEmUso(users: map<int, User>, username: string) {
    exists id | id in users :: users[id].username == username
  }

  predicate EmailEmUso(users: map<int, User>, email: string) {
    exists id | id in users :: users[id].email == email
  }

  /** As long as there is any user, one of them is an administrator. */
  predicate TemAdmin(users: map<int, User>) {
    users != map[] ==> exists id | id in users :: users[id].isAdmin
  }

  /** Replacing a user's record by one with the same name and email keeps both unique. */
  lemma SubstituicaoMantemUnicos(users: map<int, User>, id: int, u: User)
    requires id in users && u.username == users[id].username && u.email == users[id].email
    requires UsernamesUnicos(users) && EmailsUnicos(users)
    ensures UsernamesUnicos(users[id := u]) && EmailsUnicos(users[id := u])
  {
    var depois := users[id := u];
    assert forall k | k in depois :: k in users && depois[k].username == users[k].username && depois[k].email == users[k].email;
  }

  datatype LoginResult = LoggedIn(id: int) | Refused | LoginError

  /** The login decision: `filter_by(username=...).first()` (a missing name matches
      no row, as `IS NULL` on a NOT NULL column), then `check_password`. */
  function Login(users: map<int, User>, username: Option<string>, password: Option<string>): (r: LoginResult)
    requires UsernamesUnicos(users)
    ensures r.LoggedIn? <==>
      exists id | id in users :: Some(users[id].username) == username && CheckPasswordHash(users[id].passwordHash, password) == Some(true)
    ensures r.LoggedIn? ==> r.id in users && Some(users[r.id].username) == username
    ensures r.LoginError? <==> password.None? && username.Some? && UsernameEmUso(users, username.value)
  {
    if username.None? || !UsernameEmUso(users, username.value) then Refused
    else
      var id :| id in users && users[id].username == username.value;
      match CheckPasswordHash(users[id].passwordHash, password)
      case None => LoginError
      case Some(ok) => if ok then LoggedIn(id) else Refused
  }

  /** A user stored with the hash of `password` logs in with exactly that password. */
  lemma LoginAposRegisto(users: map<int, User>, id: int, u: User, password: string, salt: nat, tentativa: string)
    requires UsernamesUnicos(users) && id !in users && !UsernameEmUso(users, u.username)
    requires GeneratePasswordHash(Some(password), salt) == Some(u.passwordHash)
    ensures UsernamesUnicos(users[id := u])
    ensures Login(users[id := u], Some(u.username), Some(tentativa)) == if tentativa == password then LoggedIn(id) else Refused
  {
    var depois := users[id := u];
    forall a, b | a in depois && b in depois && depois[a].username == depois[b].username
      ensures a == b
    {
      if a != id && b != id {
        assert users[a].username == users[b].username;
      }
    }
    assert forall k | k in depois && depois[k].username == u.username :: k == id;
    var r := Login(depois, Some(u.username), Some(tentativa));
    assert CheckPasswordHash(u.passwordHash, Some(tentativa)) == Some(tentativa == password);
    if tentativa == password {
      assert depois[id].username == u.username;
      assert r.LoggedIn?;
      assert r.id == id;
    } else {
      assert !r.LoggedIn?;
    }
  }

  // ---------------------------------------------------------------------------
  // Outcomes of the account routes, in place of redirects, flashes and HTTP codes.

  datatype AuthOutcome =
    | Created(id: int)
    | Updated
    | Deleted
    | Unauthenticated
    | Forbidden
    | BadRequest
    | Conflict
    | NotFound
    | Closed
    | DuplicateUsername
    | RolledBack
    | ServerError
}
