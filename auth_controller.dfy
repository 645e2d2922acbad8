/**
 * User registration, user login and admin login: each an ordered chain of
 * checks where the first failing check decides the response.
 */
module AuthController {
  import opened Wrappers
  import opened Text
  import opened Crypto
  import opened Http
  import opened UserModel

  /** The email domain reserved for administrators. */
  const AdminDomain := "@admin.com"

  const AllFieldsRequired := "All fields are required"
  const AdminRegistration := "Cannot register with @admin.com email. Contact system administrator."
  const UserExists := "User already exists"
  const CredentialsRequired := "Email and password are required"
  const AdminPortalOnly := "Admin accounts must use the admin login portal at /admin/login"
  const InvalidEmailOrPassword := "Invalid email or password"
  const AdminDomainRequired := "Access denied. Admin accounts must use @admin.com email address."
  const InvalidCredentials := "Invalid credentials"
  const NotAnAdmin := "Access denied. This account is not authorized as admin."

  datatype RegisterBody = RegisterBody(name: Option<string>, email: Option<string>, password: Option<string>)
  datatype LoginBody = LoginBody(email: Option<string>, password: Option<string>)

  /** The JSON body of a successful registration or login. */
  datatype Session = Session(id: nat, name: string, email: string, role: string, token: string)

  /** A token carrying the user's id and role. */
  function GenerateToken(keys: Keys, id: nat, role: string): (token: string)
    ensures Sound(keys) ==> Verify(keys, Some(token)) == Some(Claims(id, Some(role)))
  {
    keys.issue(Claims(id, Some(role)))
  }

  /** `user.role || 'user'`: an unset or empty role reads as "user". */
  function RoleOrUser(role: Option<string>): (r: string)
    ensures r != ""
    ensures Present(role) ==> r == role.value
    ensures !Present(role) ==> r == "user"
  {
    if Present(role) then role.value else "user"
  }

  predicate AllPresent(body: RegisterBody) {
    Present(body.name) && Present(body.email) && Present(body.password)
  }

  /** The reply and the User table after a call of registerUser. */
  function Registration(rows: seq<User>, clock: nat, body: RegisterBody, keys: Keys): (out: (Reply<Session>, seq<User>))
    ensures !AllPresent(body) ==> out == (Refused(400, Message(AllFieldsRequired)), rows)
    ensures out.0.Sent? <==>
      AllPresent(body) && !EndsWith(body.email.value, AdminDomain) && FindByEmail(rows, body.email.value).None?
    ensures !out.0.Sent? ==> out.0.Refused? && out.1 == rows
    ensures out.0.Sent? ==>
      var u := User(clock, body.name.value, body.email.value, keys.hash(body.password.value), Some("user"), clock);
      && out.1 == rows + [u]
      && out.0 == Sent(201, Session(clock, u.name, u.email, "user", GenerateToken(keys, clock, "user")))
  {
    if !AllPresent(body) then (Refused(400, Message(AllFieldsRequired)), rows)
    else
      var email := body.email.value;
      if EndsWith(email, AdminDomain) then (Refused(403, Message(AdminRegistration)), rows)
      else if FindByEmail(rows, email).Some? then (Refused(400, Message(UserExists)), rows)
      else
        var u := User(clock, body.name.value, email, keys.hash(body.password.value), Some("user"), clock);
        (Sent(201, Session(u.id, u.name, u.email, "user", GenerateToken(keys, u.id, "user"))), rows + [u])
  }

  /** An @admin.com email is refused whatever the password and whether or not it is registered. */
  lemma AdminEmailCannotRegister(rows: seq<User>, clock: nat, body: RegisterBody, keys: Keys)
    requires AllPresent(body) && EndsWith(body.email.value, AdminDomain)
    ensures Registration(rows, clock, body, keys) == (Refused(403, Message(AdminRegistration)), rows)
  {
  }

  /** Registering an email that is already present changes nothing. */
  lemma ExistingEmailCannotRegister(rows: seq<User>, clock: nat, body: RegisterBody, keys: Keys, i: nat)
    requires AllPresent(body) && !EndsWith(body.email.value, AdminDomain)
    requires i < |rows| && rows[i].email == body.email.value
    ensures Registration(rows, clock, body, keys) == (Refused(400, Message(UserExists)), rows)
  {
  }

  /** The token of a successful registration verifies to the new id with role "user". */
  lemma RegistrationTokenVerifies(rows: seq<User>, clock: nat, body: RegisterBody, keys: Keys)
    requires Sound(keys) && Registration(rows, clock, body, keys).0.Sent?
    ensures Verify(keys, Some(Registration(rows, clock, body, keys).0.data.token)) == Some(Claims(clock, Some("user")))
  {
  }

  /** registerUser: the checks run in order; only the last step writes to the collection. */
  method RegisterUser(users: UserCollection, body: RegisterBody, keys: Keys) returns (reply: Reply<Session>)
    requires users.Valid()
    modifies users
    ensures users.Valid()
    ensures (reply, users.rows) == Registration(old(users.rows), old(users.clock), body, keys)
    ensures !reply.Sent? ==> users.clock == old(users.clock)
  {
    if !Present(body.name) || !Present(body.email) || !Present(body.password) {
      return Refused(400, Message(AllFieldsRequired));
    }
    var email := body.email.value;
    if EndsWith(email, AdminDomain) {
      return Refused(403, Message(AdminRegistration));
    }
    var userExists := FindByEmail(users.rows, email);
    if userExists.Some? {
      return Refused(400, Message(UserExists));
    }
    var hashedPassword := keys.hash(body.password.value);
    var user := users.Create(body.name.value, email, hashedPassword, Some("user"));
    reply := Sent(201, Session(user.id, user.name, user.email, "user", GenerateToken(keys, user.id, "user")));
  }

  /** The reply of loginUser; the User table is only read. */
  function LoginUser(rows: seq<User>, body: LoginBody, keys: Keys): (r: Reply<Session>)
    ensures r.Sent? <==>
      && Present(body.email) && Present(body.password)
      && !EndsWith(body.email.value, AdminDomain)
      && FindByEmail(rows, body.email.value).Some?
      && Match(keys, body.password.value, FindByEmail(rows, body.email.value).value.password)
    ensures r.Sent? ==>
      var u := FindByEmail(rows, body.email.value).value;
      r == Sent(200, Session(u.id, u.name, u.email, RoleOrUser(u.role), GenerateToken(keys, u.id, RoleOrUser(u.role))))
    ensures Present(body.email) && Present(body.password) && EndsWith(body.email.value, AdminDomain) ==>
      r == Refused(403, Message(AdminPortalOnly))
    ensures !r.Sent? ==> r.Refused? && r.status in {400, 401, 403}
  {
    if !Present(body.email) || !Present(body.password) then Refused(400, Message(CredentialsRequired))
    else if EndsWith(body.email.value, AdminDomain) then Refused(403, Message(AdminPortalOnly))
    else
      var user := FindByEmail(rows, body.email.value);
      if user.Some? && Match(keys, body.password.value, user.value.password) then
        var role := RoleOrUser(user.value.role);
        Sent(200, Session(user.value.id, user.value.name, user.value.email, role, GenerateToken(keys, user.value.id, role)))
      else
        Refused(401, Message(InvalidEmailOrPassword))
  }

  /**
   * An unknown email and a wrong password for a known one are answered
   * identically, so the response does not reveal which emails exist.
   */
  lemma LoginFailuresIndistinguishable(rows: seq<User>, keys: Keys, unknown: LoginBody, wrong: LoginBody)
    requires Present(unknown.email) && Present(unknown.password) && !EndsWith(unknown.email.value, AdminDomain)
    requires Present(wrong.email) && Present(wrong.password) && !EndsWith(wrong.email.value, AdminDomain)
    requires forall i :: 0 <= i < |rows| ==> rows[i].email != unknown.email.value
    requires FindByEmail(rows, wrong.email.value).Some?
    requires !Match(keys, wrong.password.value, FindByEmail(rows, wrong.email.value).value.password)
    ensures LoginUser(rows, unknown, keys) == LoginUser(rows, wrong, keys) == Refused(401, Message(InvalidEmailOrPassword))
  {
  }

  /** The reply of adminLogin; the User table is only read. */
  function AdminLogin(rows: seq<User>, body: LoginBody, keys: Keys): (r: Reply<Session>)
    ensures r.Sent? <==>
      && Present(body.email) && Present(body.password)
      && EndsWith(body.email.value, AdminDomain)
      && FindByEmail(rows, body.email.value).Some?
      && FindByEmail(rows, body.email.value).value.role == Some("admin")
      && Match(keys, body.password.value, FindByEmail(rows, body.email.value).value.password)
    ensures r.Sent? ==>
      var u := FindByEmail(rows, body.email.value).value;
      r == Sent(200, Session(u.id, u.name, u.email, "admin", GenerateToken(keys, u.id, "admin")))
    ensures !r.Sent? ==> r.Refused? && r.status in {400, 401, 403}
  {
    if !Present(body.email) || !Present(body.password) then Refused(400, Message(CredentialsRequired))
    else if !EndsWith(body.email.value, AdminDomain) then Refused(403, Message(AdminDomainRequired))
    else
      var user := FindByEmail(rows, body.email.value);
      if user.None? then Refused(401, Message(InvalidCredentials))
      else if user.value.role != Some("admin") then Refused(403, Message(NotAnAdmin))
      else if Match(keys, body.password.value, user.value.password) then
        Sent(200, Session(user.value.id, user.value.name, user.value.email, "admin", GenerateToken(keys, user.value.id, "admin")))
      else
        Refused(401, Message(InvalidCredentials))
  }

  /**
   * Each check of adminLogin, reached with all earlier checks passed, gives
   * its own response; the role is checked before the password.
   */
  lemma AdminLoginChecksInOrder(rows: seq<User>, body: LoginBody, keys: Keys)
    ensures !Present(body.email) || !Present(body.password) ==>
      AdminLogin(rows, body, keys) == Refused(400, Message(CredentialsRequired))
    ensures Present(body.email) && Present(body.password) ==>
      var email := body.email.value;
      var user := FindByEmail(rows, email);
      && (!EndsWith(email, AdminDomain) ==> AdminLogin(rows, body, keys) == Refused(403, Message(AdminDomainRequired)))
      && (EndsWith(email, AdminDomain) && user.None? ==>
            AdminLogin(rows, body, keys) == Refused(401, Message(InvalidCredentials)))
      && (EndsWith(email, AdminDomain) && user.Some? && user.value.role != Some("admin") ==>
            AdminLogin(rows, body, keys) == Refused(403, Message(NotAnAdmin)))
      && (EndsWith(email, AdminDomain) && user.Some? && user.value.role == Some("admin")
          && !Match(keys, body.password.value, user.value.password) ==>
            AdminLogin(rows, body, keys) == Refused(401, Message(InvalidCredentials)))
  {
  }

  /** The token of a successful admin login verifies to the admin's id with role "admin". */
  lemma AdminTokenVerifies(rows: seq<User>, body: LoginBody, keys: Keys)
    requires Sound(keys) && AdminLogin(rows, body, keys).Sent?
    ensures var u := FindByEmail(rows, body.email.value).value;
      Verify(keys, Some(AdminLogin(rows, body, keys).data.token)) == Some(Claims(u.id, Some("admin")))
  {
  }

  /**
   * getProfile: the authenticated user looked up again, without the password.
   * `None` is the handler's `res.json(null)` for a user deleted since the
   * token was issued: a 200 response whose body is null, not a 404.
   */
  function GetProfile(rows: seq<User>, principal: PublicUser): (r: Option<PublicUser>)
    ensures r.None? <==> forall i :: 0 <= i < |rows| ==> rows[i].id != principal.id
    ensures r.Some? ==> r.value.id == principal.id && exists u :: u in rows && WithoutPassword(u) == r.value
  {
    match FindById(rows, principal.id)
    case None => None
    case Some(u) => Some(WithoutPassword(u))
  }
}
