/** `/api/auth/register`: creating an account. The password hash
    (`bcrypt.hash`) is a parameter. */
module Register {
  import opened Http
  import opened Json
  import opened Rows
  import opened Store
  import Validation

  /** No two accounts share an e-mail address or a username. */
  ghost predicate UniqueAccounts(users: seq<User>) {
    forall i, j :: 0 <= i < j < |users| ==>
      users[i].email != users[j].email && users[i].username != users[j].username
  }

  /** The account already taken by that e-mail address or that username. */
  predicate Clashes(u: User, email: string, username: string) {
    u.email == email || u.username == username
  }

  /** The checks before the insert: the schema (a schema failure is neither
      a bad request nor a conflict, so 500), then no account may have the
      same e-mail address or the same username (409). */
  function CheckRegistration(users: seq<User>, body: Value, isEmail: string -> bool): (r: Checked<Validation.Registration>)
    ensures Validation.RegisterUser(body, isEmail).None? ==> r == Reject(Internal)
    ensures var v := Validation.RegisterUser(body, isEmail);
            v.Some? ==>
              (r == Reject(Conflict) <==> exists u :: u in users && Clashes(u, v.value.email, v.value.username))
    ensures r.Accept? <==>
              var v := Validation.RegisterUser(body, isEmail);
              v.Some? && forall u :: u in users ==> !Clashes(u, v.value.email, v.value.username)
    ensures r.Accept? ==> r.value == Validation.RegisterUser(body, isEmail).value
  {
    match Validation.RegisterUser(body, isEmail)
    case None => Reject(Internal)
    case Some(v) =>
      if FindFirst(users, (u: User) => Clashes(u, v.email, v.username)).Some? then Reject(Conflict)
      else Accept(v)
  }

  /** An account that passes the checks keeps e-mail addresses and
      usernames unique. */
  lemma {:induction false} RegisterKeepsUnique(users: seq<User>, body: Value, isEmail: string -> bool, row: User)
    requires UniqueAccounts(users)
    requires CheckRegistration(users, body, isEmail).Accept?
    requires row.email == CheckRegistration(users, body, isEmail).value.email
    requires row.username == CheckRegistration(users, body, isEmail).value.username
    ensures UniqueAccounts(users + [row])
  {
    var g := users + [row];
    forall i, j | 0 <= i < j < |g| ensures g[i].email != g[j].email && g[i].username != g[j].username {
      if j == |users| {
        assert g[i] in users;
      }
    }
  }

  /** `SafeUser`: the account without its password; `deactivated` is
      always null here. */
  datatype SafeUser = SafeUser(
    id: int, username: string, email: string, role: Role, profilePicture: Option<string>,
    createdAt: int, lastActive: int, deactivated: Option<int>)

  function ToSafeUser(u: User): (s: SafeUser)
    ensures s.id == u.id && s.username == u.username && s.email == u.email && s.role == u.role
    ensures s.profilePicture == u.profilePicture && s.createdAt == u.createdAt && s.lastActive == u.lastActive
    ensures s.deactivated.None?
  {
    SafeUser(u.id, u.username, u.email, u.role, u.profilePicture, u.createdAt, u.lastActive, None)
  }

  /** The handler: any verb but POST, 405 (no `Allow` header); failed checks
      store nothing; otherwise one USER account whose stored password is the
      hash of the one sent, answered with its safe projection (201). */
  method Handle(db: Db, verb: Verb, body: Value, isEmail: string -> bool, hash: string -> string, now: int)
    returns (r: Response<SafeUser>)
    requires db.Valid()
    modifies db
    ensures db.Valid()
    ensures UniqueAccounts(old(db.users)) ==> UniqueAccounts(db.users)
    ensures verb != POST ==> r == Err(MethodNotAllowed([])) && db.Snapshot() == old(db.Snapshot())
    ensures verb == POST ==>
              var c := CheckRegistration(old(db.users), body, isEmail);
              if c.Reject? then
                r == Err(c.failure) && db.Snapshot() == old(db.Snapshot())
              else
                var row := User(old(db.nextId), c.value.username, c.value.email, hash(c.value.password),
                                USER, None, now, now);
                r == Ok(201, ToSafeUser(row)) &&
                db.Snapshot() == old(db.Snapshot()).(users := old(db.users) + [row])
  {
    if verb != POST {
      return Err(MethodNotAllowed([]));
    }
    var c := CheckRegistration(db.users, body, isEmail);
    if c.Reject? {
      return Err(c.failure);
    }
    var row := db.CreateUser(c.value.username, c.value.email, hash(c.value.password), now);
    if UniqueAccounts(old(db.users)) {
      RegisterKeepsUnique(old(db.users), body, isEmail, row);
    }
    r := Ok(201, ToSafeUser(row));
  }
}
