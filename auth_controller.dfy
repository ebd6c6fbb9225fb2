/**
 * Registration and login over the user collection. Password hashing and its
 * check are the parameters `hash` and `compare`; the access token is its
 * claims, the user's id and role.
 */
module AuthController {
  import opened Wrappers
  import opened Http

  /** A stored user; `password` holds the hash, never the password itself. */
  datatype User = User(id: nat, name: string, email: string, password: string, role: Role, isActive: bool)

  datatype RegisterRequest = RegisterRequest(name: string, email: string, password: string, role: Role)

  const EmailTaken: Failure := Reply(400, "Email already registered")
  const InvalidCredentials: Failure := Reply(401, "Invalid credentials")
  const Registered := "User registered successfully"

  /** What the user collection keeps true: every user filed under its id, below the clock, emails distinct. */
  ghost predicate WellFormed(users: map<nat, User>, clock: nat) {
    && (forall id :: id in users ==> id < clock && users[id].id == id)
    && (forall a, b :: a in users && b in users && users[a].email == users[b].email ==> a == b)
  }

  ghost predicate HasEmail(users: map<nat, User>, email: string) {
    exists id :: id in users && users[id].email == email
  }

  /** `User.findOne({email})` among the ids below `n`: the first user holding `email`. */
  function FindByEmail(users: map<nat, User>, n: nat, email: string): (r: Option<nat>)
    ensures r.Some? ==> r.value < n && r.value in users && users[r.value].email == email
    ensures r.Some? ==> forall id :: id < r.value && id in users ==> users[id].email != email
    ensures r.None? ==> forall id :: id < n && id in users ==> users[id].email != email
    decreases n
  {
    if n == 0 then None
    else
      match FindByEmail(users, n - 1, email)
      case Some(id) => Some(id)
      case None => if n - 1 in users && users[n - 1].email == email then Some(n - 1) else None
  }

  /**
   * `register`: after the request schema, a taken email is refused; otherwise
   * exactly one user is added, active, with the hash of the password. The reply
   * is a message, not a token.
   */
  function Register(
    users: map<nat, User>, clock: nat, req: RegisterRequest, schemaError: Option<string>, hash: string -> string)
    : (o: (Result<string>, map<nat, User>))
    requires WellFormed(users, clock)
    ensures schemaError.Some? ==> o.0 == Err(Reply(400, schemaError.value))
    ensures schemaError.None? && HasEmail(users, req.email) ==> o.0 == Err(EmailTaken)
    ensures o.0.Err? ==> o.1 == users
    ensures o.0.Ok? <==> schemaError.None? && !HasEmail(users, req.email)
    ensures o.0.Ok? ==>
      && o.0.value == Registered
      && clock !in users && o.1 == users[clock := User(clock, req.name, req.email, hash(req.password), req.role, true)]
      && |o.1| == |users| + 1
    ensures WellFormed(o.1, if o.0.Ok? then clock + 1 else clock)
  {
    if schemaError.Some? then (Err(Reply(400, schemaError.value)), users)
    else if FindByEmail(users, clock, req.email).Some? then (Err(EmailTaken), users)
    else
      var user := User(clock, req.name, req.email, hash(req.password), req.role, true);
      (Ok(Registered), users[clock := user])
  }

  /**
   * `login`: after the request schema, an unknown email, an inactive user and a
   * wrong password all get the same 401; otherwise the token carries exactly
   * the user's id and role. Nothing is written.
   */
  function Login(
    users: map<nat, User>, clock: nat, email: string, password: string, schemaError: Option<string>,
    compare: (string, string) -> bool)
    : (r: Result<Claims>)
    requires WellFormed(users, clock)
    ensures schemaError.Some? ==> r == Err(Reply(400, schemaError.value))
    ensures schemaError.None? && r.Err? ==> r == Err(InvalidCredentials)
    ensures r.Ok? <==> (schemaError.None? &&
      exists id :: id in users && users[id].email == email && users[id].isActive && compare(password, users[id].password))
    ensures r.Ok? ==> exists id :: id in users && users[id].email == email && r.value == Claims(id, users[id].role)
  {
    if schemaError.Some? then Err(Reply(400, schemaError.value))
    else
      match FindByEmail(users, clock, email)
      case None => Err(InvalidCredentials)
      case Some(id) =>
        var user := users[id];
        if !user.isActive then Err(InvalidCredentials)
        else if !compare(password, user.password) then Err(InvalidCredentials)
        else Ok(Claims(user.id, user.role))
  }

  /**
   * Registering and then logging in with the same password succeeds, with the
   * new user's id and the requested role, whenever the password check accepts
   * a password against its own hash.
   */
  lemma RegisterThenLogin(
    users: map<nat, User>, clock: nat, req: RegisterRequest,
    hash: string -> string, compare: (string, string) -> bool)
    requires WellFormed(users, clock)
    requires Register(users, clock, req, None, hash).0.Ok?
    requires compare(req.password, hash(req.password))
    ensures Login(Register(users, clock, req, None, hash).1, clock + 1, req.email, req.password, None, compare)
      == Ok(Claims(clock, req.role))
  {
    var after := Register(users, clock, req, None, hash).1;
    var found := FindByEmail(after, clock + 1, req.email);
    assert clock in after && after[clock].email == req.email;
    assert found == Some(clock);
  }
}
