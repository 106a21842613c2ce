/** The user table of the explicit-status variant: self-registration as
    src/routes/auth.py does it. Nothing here catches a failed commit. */
module SrcAuth {
  import opened Common
  import opened Accounts

  /** `not request.args.get('allow_init')`: registration stays shut for a missing
      or empty value; any other value opens it. */
  predicate Trancado(allowInit: Option<string>) {
    allowInit.None? || allowInit.value == ""
  }

  class UserDb {
    var users: map<int, User>
    var proximoId: int

    ghost predicate Valid()
      reads this
    {
      && UsernamesUnicos(users)
      && EmailsUnicos(users)
      && TemAdmin(users)
      && (forall id | id in users :: id < proximoId)
    }

    constructor ()
      ensures Valid() && users == map[]
    {
      users := map[];
      proximoId := 1;
    }

    /** register (POST): closed once a user exists unless `allow_init` is non-empty;
        a taken username is refused; the first user becomes administrator. A
        failed hash and every constraint violation at commit surface as errors. */
    method Register(allowInit: Option<string>, username: Option<string>, email: Option<string>,
                    password: Option<string>, salt: nat)
      returns (o: AuthOutcome)
      requires Valid()
      modifies this
      ensures Valid()
      ensures old(users) != map[] && Trancado(allowInit) ==> o == Closed && unchanged(this)
      ensures o == Closed ==> old(users) != map[] && Trancado(allowInit)
      ensures o == DuplicateUsername <==>
        (old(users) == map[] || !Trancado(allowInit)) && username.Some? && UsernameEmUso(old(users), username.value)
      ensures o == DuplicateUsername ==> unchanged(this)
      ensures o == AuthOutcome.ServerError <==>
        && (old(users) == map[] || !Trancado(allowInit))
        && !(username.Some? && UsernameEmUso(old(users), username.value))
        && (|| password.None? || password.value == ""
            || username.None? || email.None? || EmailEmUso(old(users), email.value))
      ensures o == AuthOutcome.ServerError ==> unchanged(this)
      ensures o.Created? <==>
        && (old(users) == map[] || !Trancado(allowInit))
        && username.Some? && !UsernameEmUso(old(users), username.value)
        && email.Some? && !EmailEmUso(old(users), email.value)
        && password.Some? && password.value != ""
      ensures o.Created? ==>
        && o.id == old(proximoId) && o.id !in old(users)
        && users == old(users)[o.id := User(username.value, email.value, Bcrypt(salt, password.value), old(users) == map[])]
        && proximoId == old(proximoId) + 1
      ensures o == Closed || o == DuplicateUsername || o == AuthOutcome.ServerError || o.Created?
    {
      if users != map[] && Trancado(allowInit) {
        return Closed;
      }
      if username.Some? && UsernameEmUso(users, username.value) {
        return DuplicateUsername;
      }
      var novo := NovoUsuario(if username.Some? then username.value else "",
                              if email.Some? then email.value else "", password, salt);
      if novo.None? {
        return AuthOutcome.ServerError;
      }
      var u := novo.value;
      if users == map[] {
        u := u.(isAdmin := true);
      }
      if username.None? || email.None? || EmailEmUso(users, email.value) {
        return AuthOutcome.ServerError;
      }
      var id := proximoId;
      if users != map[] {
        var a :| a in users && users[a].isAdmin;
        users := users[id := u];
        assert users[a].isAdmin;
      } else {
        users := users[id := u];
        assert users[id].isAdmin;
      }
      proximoId := proximoId + 1;
      o := Created(id);
    }
  }

  /** Unlike the other variant, any non-empty `allow_init` reopens registration;
      a username already taken is still refused. */
  method CenarioRegisto() returns (primeiro: AuthOutcome, semConvite: AuthOutcome, conviteVazio: AuthOutcome,
                                   conviteTrue: AuthOutcome, repetido: AuthOutcome,
                                   primeiroAdmin: bool, segundoAdmin: bool)
    ensures primeiro.Created? && primeiroAdmin
    ensures semConvite == Closed && conviteVazio == Closed
    ensures conviteTrue.Created? && conviteTrue.id != primeiro.id && !segundoAdmin
    ensures repetido == DuplicateUsername
  {
    var db := new UserDb();
    primeiro := db.Register(None, Some("ana"), Some("ana@example.org"), Some("s3nha"), 7);
    primeiroAdmin := db.users[primeiro.id].isAdmin;
    semConvite := db.Register(None, Some("bia"), Some("bia@example.org"), Some("outra"), 8);
    conviteVazio := db.Register(Some(""), Some("bia"), Some("bia@example.org"), Some("outra"), 8);
    conviteTrue := db.Register(Some("true"), Some("bia"), Some("bia@example.org"), Some("outra"), 8);
    segundoAdmin := db.users[conviteTrue.id].isAdmin;
    repetido := db.Register(Some("true"), Some("bia"), Some("bia2@example.org"), Some("outra"), 9);
  }
}
