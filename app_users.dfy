/** The user table of the `finalizada` variant: self-registration
    (app/routes/main.py) and the administrators' user API (app/routes/user_api.py). */
module AppUsers {
  import opened Common
  import opened Accounts

  /** The admin gate run before every user-API request: a login is required,
      then the administrator flag. None lets the request through. */
  function Porteiro(users: map<int, User>, current: Option<int>): (r: Option<AuthOutcome>)
    ensures r.None? <==> current.Some? && current.value in users && users[current.value].isAdmin
    ensures r.Some? ==> r.value == Unauthenticated || r.value == AuthOutcome.Forbidden
    ensures r == Some(AuthOutcome.Forbidden) <==> current.Some? && current.value in users && !users[current.value].isAdmin
  {
    if current.None? || current.value !in users then Some(Unauthenticated)
    else if !users[current.value].isAdmin then Some(AuthOutcome.Forbidden)
    else None
  }

  /** A request field the API demands: `not value` rejects a missing or empty one. */
  predicate Preenchido(s: Option<string>) {
    s.Some? && s.value != ""
  }

  class UserDb {
    var users: map<int, User>
    var proximoId: int

    ghost predicate Valid()
      reads this
    {
      && UsernamesUnicos(users)
      && EmailsUnicos(users)
      && TemAdmin(users)
      && (forall id | id in users :: id < proximoId)
    }

    constructor ()
      ensures Valid() && users == map[]
    {
      users := map[];
      proximoId := 1;
    }

    /** register (POST): closed once a user exists unless `allow_init` is '1';
        a taken username is refused first; the first user becomes administrator;
        NOT NULL and unique-email violations roll back at commit. */
    method Register(allowInit: Option<string>, username: Option<string>, email: Option<string>,
                    password: Option<string>, salt: nat)
      returns (o: AuthOutcome)
      requires Valid()
      modifies this
      ensures Valid()
      ensures old(users) != map[] && allowInit != Some("1") ==> o == Closed && unchanged(this)
      ensures o == Closed ==> old(users) != map[] && allowInit != Some("1")
      ensures o == DuplicateUsername <==>
        (old(users) == map[] || allowInit == Some("1")) && username.Some? && UsernameEmUso(old(users), username.value)
      ensures o == DuplicateUsername ==> unchanged(this)
      ensures o == AuthOutcome.ServerError <==>
        && (old(users) == map[] || allowInit == Some("1"))
        && !(username.Some? && UsernameEmUso(old(users), username.value))
        && (password.None? || password.value == "")
      ensures o == RolledBack <==>
        && (old(users) == map[] || allowInit == Some("1"))
        && !(username.Some? && UsernameEmUso(old(users), username.value))
        && password.Some? && password.value != ""
        && (username.None? || email.None? || EmailEmUso(old(users), email.value))
      ensures o == AuthOutcome.ServerError || o == RolledBack ==> unchanged(this)
      ensures o.Created? <==>
        && (old(users) == map[] || allowInit == Some("1"))
        && username.Some? && !UsernameEmUso(old(users), username.value)
        && email.Some? && !EmailEmUso(old(users), email.value)
        && password.Some? && password.value != ""
      ensures o.Created? ==>
        && o.id == old(proximoId) && o.id !in old(users)
        && users == old(users)[o.id := User(username.value, email.value, Bcrypt(salt, password.value), old(users) == map[])]
        && proximoId == old(proximoId) + 1
      ensures o == Closed || o == DuplicateUsername || o == AuthOutcome.ServerError || o == RolledBack || o.Created?
    {
      if users != map[] && allowInit != Some("1") {
        return Closed;
      }
      if username.Some? && UsernameEmUso(users, username.value) {
        return DuplicateUsername;
      }
      var novo := NovoUsuario(if username.Some? then username.value else "",
                              if email.Some? then email.value else "", password, salt);
      if novo.None? {
        return AuthOutcome.ServerError;
      }
      var u := novo.value;
      if users == map[] {
        u := u.(isAdmin := true);
      }
      if username.None? || email.None? || EmailEmUso(users, email.value) {
        return RolledBack;
      }
      var id := proximoId;
      if users != map[] {
        var a :| a in users && users[a].isAdmin;
        users := users[id := u];
        assert users[a].isAdmin;
      } else {
        users := users[id := u];
        assert users[id].isAdmin;
      }
      proximoId := proximoId + 1;
      o := Created(id);
    }

    /** create_user: all three fields required, username and email not taken,
        the new user is not an administrator. */
    method CreateUser(current: Option<int>, username: Option<string>, email: Option<string>,
                      password: Option<string>, salt: nat)
      returns (o: AuthOutcome)
      requires Valid()
      modifies this
      ensures Valid()
      ensures Porteiro(old(users), current).Some? ==> o == Porteiro(old(users), current).value && unchanged(this)
      ensures Porteiro(old(users), current).None? && !(Preenchido(username) && Preenchido(email) && Preenchido(password)) ==>
        o == BadRequest && unchanged(this)
      ensures && Porteiro(old(users), current).None?
              && Preenchido(username) && Preenchido(email) && Preenchido(password)
              && (UsernameEmUso(old(users), username.value) || EmailEmUso(old(users), email.value))
              ==>
        o == AuthOutcome.Conflict && unchanged(this)
      ensures o.Created? <==>
        && Porteiro(old(users), current).None?
        && Preenchido(username) && Preenchido(email) && Preenchido(password)
        && !UsernameEmUso(old(users), username.value) && !EmailEmUso(old(users), email.value)
      ensures o.Created? ==>
        && o.id == old(proximoId) && o.id !in old(users)
        && users == old(users)[o.id := User(username.value, email.value, Bcrypt(salt, password.value), false)]
        && proximoId == old(proximoId) + 1
    {
      var barrado := Porteiro(users, current);
      if barrado.Some? {
        return barrado.value;
      }
      if !Preenchido(username) || !Preenchido(email) || !Preenchido(password) {
        return BadRequest;
      }
      if UsernameEmUso(users, username.value) || EmailEmUso(users, email.value) {
        return AuthOutcome.Conflict;
      }
      var novo := NovoUsuario(username.value, email.value, password, salt);
      var id := proximoId;
      var admin := current.value;
      users := users[id := novo.value];
      assert admin in users && users[admin].isAdmin;
      proximoId := proximoId + 1;
      o := Created(id);
    }

    /** update_user: a supplied password is re-hashed (an empty one raises before
        anything is committed); `is_admin` is applied only to another user. */
    method UpdateUser(current: Option<int>, userId: int, password: Option<string>, isAdmin: Option<bool>, salt: nat)
      returns (o: AuthOutcome)
      requires Valid()
      modifies this
      ensures Valid()
      ensures proximoId == old(proximoId)
      ensures Porteiro(old(users), current).Some? ==> o == Porteiro(old(users), current).value && unchanged(this)
      ensures Porteiro(old(users), current).None? && userId !in old(users) ==> o == AuthOutcome.NotFound && unchanged(this)
      ensures Porteiro(old(users), current).None? && userId in old(users) && password.Some? && password.value == "" ==>
        o == AuthOutcome.ServerError && unchanged(this)
      ensures o == Updated <==>
        Porteiro(old(users), current).None? && userId in old(users) && !(password.Some? && password.value == "")
      ensures o == Updated ==>
        && users.Keys == old(users).Keys
        && (forall id | id in users && id != userId :: users[id] == old(users)[id])
        && users[userId].username == old(users)[userId].username
        && users[userId].email == old(users)[userId].email
        && users[userId].passwordHash == (if password.Some? then Bcrypt(salt, password.value) else old(users)[userId].passwordHash)
        && users[userId].isAdmin == (if isAdmin.Some? && current.value != userId then isAdmin.value else old(users)[userId].isAdmin)
      ensures current.Some? && current.value in old(users) && old(users)[current.value].isAdmin ==>
        current.value in users && users[current.value].isAdmin
    {
      var barrado := Porteiro(users, current);
      if barrado.Some? {
        return barrado.value;
      }
      if userId !in users {
        return AuthOutcome.NotFound;
      }
      var u := users[userId];
      if password.Some? {
        var comSenha := SetPassword(u, password, salt);
        if comSenha.None? {
          return AuthOutcome.ServerError;
        }
        u := comSenha.value;
      }
      if isAdmin.Some? && current.value != userId {
        u := u.(isAdmin := isAdmin.value);
      }
      var admin := current.value;
      assert users[admin].isAdmin;
      SubstituicaoMantemUnicos(users, userId, u);
      users := users[userId := u];
      assert admin in users && users[admin].isAdmin;
      o := Updated;
    }

    /** delete_user: an administrator cannot delete the account they are logged in with. */
    method DeleteUser(current: Option<int>, userId: int) returns (o: AuthOutcome)
      requires Valid()
      modifies this
      ensures Valid()
      ensures Porteiro(old(users), current).Some? ==> o == Porteiro(old(users), current).value && unchanged(this)
      ensures Porteiro(old(users), current).None? && userId !in old(users) ==> o == AuthOutcome.NotFound && unchanged(this)
      ensures Porteiro(old(users), current).None? && userId in old(users) && userId == current.value ==>
        o == AuthOutcome.Forbidden && unchanged(this)
      ensures o == Deleted <==>
        Porteiro(old(users), current).None? && userId in old(users) && userId != current.value
      ensures o == Deleted ==> users == old(users) - {userId} && proximoId == old(proximoId)
      ensures current.Some? && current.value in old(users) && old(users)[current.value].isAdmin ==>
        current.value in users && users[current.value].isAdmin
    {
      var barrado := Porteiro(users, current);
      if barrado.Some? {
        return barrado.value;
      }
      if userId !in users {
        return AuthOutcome.NotFound;
      }
      if userId == current.value {
        return AuthOutcome.Forbidden;
      }
      assert users[current.value].isAdmin;
      users := users - {userId};
      assert current.value in users && users[current.value].isAdmin;
      o := Deleted;
    }
  }

  // ---------------------------------------------------------------------------
  // Scenarios.

  /** The first registration needs no `allow_init` and makes an administrator;
      afterwards only `allow_init=1` reopens registration, and then for a plain user. */
  method CenarioRegisto() returns (primeiro: AuthOutcome, semConvite: AuthOutcome, conviteTrue: AuthOutcome,
                                   conviteUm: AuthOutcome, primeiroAdmin: bool, segundoAdmin: bool)
    ensures primeiro.Created? && primeiroAdmin
    ensures semConvite == Closed && conviteTrue == Closed
    ensures conviteUm.Created? && conviteUm.id != primeiro.id && !segundoAdmin
  {
    var db := new UserDb();
    primeiro := db.Register(None, Some("ana"), Some("ana@example.org"), Some("s3nha"), 7);
    primeiroAdmin := db.users[primeiro.id].isAdmin;
    semConvite := db.Register(None, Some("bia"), Some("bia@example.org"), Some("outra"), 8);
    conviteTrue := db.Register(Some("true"), Some("bia"), Some("bia@example.org"), Some("outra"), 8);
    conviteUm := db.Register(Some("1"), Some("bia"), Some("bia@example.org"), Some("outra"), 8);
    segundoAdmin := db.users[conviteUm.id].isAdmin;
  }

  /** A non-administrator is refused by the gate; the administrator can neither
      delete nor demote themselves. */
  method CenarioApiUsuarios() returns (criado: AuthOutcome, pelaComum: AuthOutcome, autoExclusao: AuthOutcome,
                                       autoRebaixamento: AuthOutcome, aindaAdmin: bool)
    ensures criado.Created? && pelaComum == AuthOutcome.Forbidden && autoExclusao == AuthOutcome.Forbidden
    ensures autoRebaixamento == Updated && aindaAdmin
  {
    var db := new UserDb();
    var admin := db.Register(None, Some("ana"), Some("ana@example.org"), Some("s3nha"), 7);
    criado := db.CreateUser(Some(admin.id), Some("bia"), Some("bia@example.org"), Some("outra"), 8);
    pelaComum := db.DeleteUser(Some(criado.id), admin.id);
    autoExclusao := db.DeleteUser(Some(admin.id), admin.id);
    autoRebaixamento := db.UpdateUser(Some(admin.id), admin.id, None, Some(false), 9);
    aindaAdmin := db.users[admin.id].isAdmin;
  }

  /** The registered user logs in with their password and with no other. */
  method CenarioLogin() returns (entrada: LoginResult, senhaErrada: LoginResult)
    ensures entrada.LoggedIn? && senhaErrada == Refused
  {
    var db := new UserDb();
    var ana := db.Register(None, Some("ana"), Some("ana@example.org"), Some("s3nha"), 7);
    LoginAposRegisto(map[], ana.id, db.users[ana.id], "s3nha", 7, "s3nha");
    LoginAposRegisto(map[], ana.id, db.users[ana.id], "s3nha", 7, "errada");
    entrada := Login(db.users, Some("ana"), Some("s3nha"));
    senhaErrada := Login(db.users, Some("ana"), Some("errada"));
  }
}
