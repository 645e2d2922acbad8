/**
 * Seller registration and seller login. Each failed check sets status 400
 * and throws, so the error reaches the error middleware with that status.
 */
module SellerAuthController {
  import opened Wrappers
  import opened Text
  import opened Crypto
  import opened Http
  import opened SellerModel

  /** The suffix the handlers demand of the email as it was sent. */
  const HandlerDomain := "@edu.com"

  const FillRequired := "Please fill all required fields"
  const InstitutionalEmail := "Email must be an institutional @edu.com email"
  const PasswordsDiffer := "Passwords do not match"
  const SellerExists := "Seller with this email already exists"
  const ProvideCredentials := "Please provide email and password"
  const OnlyInstitutional := "Only @edu.com institutional emails are allowed"
  const InvalidEmailOrPassword := "Invalid email or password"

  datatype RegisterBody = RegisterBody(
    name: Option<string>, email: Option<string>, password: Option<string>,
    confirmPassword: Option<string>, phone: Option<string>,
    institutionName: Option<string>, address: Option<string>)

  datatype LoginBody = LoginBody(email: Option<string>, password: Option<string>)

  /** The seller part of a successful response. */
  datatype SellerView = SellerView(
    id: nat, name: string, email: string, phone: string, institutionName: string,
    address: Option<string>, isVerified: bool, isActive: bool)

  datatype SellerSession = SellerSession(token: string, seller: SellerView)

  function View(s: Seller): SellerView {
    SellerView(s.id, s.name, s.email, s.phone, s.institutionName, s.address, s.isVerified, s.isActive)
  }

  /** A seller token carries the id and no role claim. */
  function GenerateToken(keys: Keys, id: nat): (token: string)
    ensures Sound(keys) ==> Verify(keys, Some(token)) == Some(Claims(id, None))
  {
    keys.issue(Claims(id, None))
  }

  predicate RequiredPresent(body: RegisterBody) {
    && Present(body.name) && Present(body.email) && Present(body.password)
    && Present(body.confirmPassword) && Present(body.phone) && Present(body.institutionName)
  }

  /** The status 400 is set before each throw. */
  function Thrown<T>(message: string): Reply<T> {
    Raised(Some(400), Message(message))
  }

  function InputOf(body: RegisterBody): SellerInput {
    SellerInput(body.name, body.email, body.password, body.phone, body.institutionName, body.address)
  }

  /** The reply and the Seller table after a call of registerSeller. */
  function Registration(rows: seq<Seller>, clock: nat, body: RegisterBody, keys: Keys): (out: (Reply<SellerSession>, seq<Seller>))
    ensures !RequiredPresent(body) ==> out == (Thrown(FillRequired), rows)
    ensures RequiredPresent(body) && !EndsWith(body.email.value, HandlerDomain) ==> out == (Thrown(InstitutionalEmail), rows)
    ensures RequiredPresent(body) && EndsWith(body.email.value, HandlerDomain) && body.password != body.confirmPassword ==>
      out == (Thrown(PasswordsDiffer), rows)
    ensures (RequiredPresent(body) && EndsWith(body.email.value, HandlerDomain) && body.password == body.confirmPassword
      && FindByEmail(rows, body.email.value).Some?) ==> out == (Thrown(SellerExists), rows)
    ensures out.0.Sent? ==>
      var created := Created(rows, clock, InputOf(body), keys);
      && created.0.Success? && out.1 == created.1 && out.0.status == 201
      && out.0.data.seller.id == clock && out.0.data.token == GenerateToken(keys, clock)
      && out.0.data.seller.isActive && !out.0.data.seller.isVerified
    ensures !out.0.Sent? ==> out.1 == rows
  {
    if !RequiredPresent(body) then (Thrown(FillRequired), rows)
    else if !EndsWith(body.email.value, HandlerDomain) then (Thrown(InstitutionalEmail), rows)
    else if body.password != body.confirmPassword then (Thrown(PasswordsDiffer), rows)
    else if FindByEmail(rows, body.email.value).Some? then (Thrown(SellerExists), rows)
    else
      var created := Created(rows, clock, InputOf(body), keys);
      if created.0.Failure? then (Raised(None, created.0.error), rows)
      else (Sent(201, SellerSession(GenerateToken(keys, created.0.value.id), View(created.0.value))), created.1)
  }

  /**
   * No seller registration ever succeeds: every email the handler lets
   * through fails the schema's own email validator, so `Seller.create`
   * throws a validation error and the table is left as it was.
   */
  lemma RegistrationNeverPersists(rows: seq<Seller>, clock: nat, body: RegisterBody, keys: Keys)
    ensures Registration(rows, clock, body, keys).1 == rows
    ensures !Registration(rows, clock, body, keys).0.Sent?
    ensures (RequiredPresent(body) && EndsWith(body.email.value, HandlerDomain) && body.password == body.confirmPassword
      && FindByEmail(rows, body.email.value).None?) ==>
      && Registration(rows, clock, body, keys) == (Raised(None, Invalid(Violations(InputOf(body)))), rows)
      && Violation("email", EmailDomain) in Violations(InputOf(body))
  {
    if RequiredPresent(body) && EndsWith(body.email.value, HandlerDomain) {
      HandlerSuffixFailsSchema(body.email.value);
      assert Given(CastEmail(body.email));
    }
  }

  /** A password that differs from its confirmation is refused and creates nothing. */
  lemma MismatchedConfirmationRefused(rows: seq<Seller>, clock: nat, body: RegisterBody, keys: Keys)
    requires RequiredPresent(body) && EndsWith(body.email.value, HandlerDomain)
    requires body.password != body.confirmPassword
    ensures Registration(rows, clock, body, keys) == (Thrown(PasswordsDiffer), rows)
  {
  }

  /**
   * registerSeller on the collection: the handler's checks, then
   * `Seller.create`, the collection's only write.
   */
  method RegisterSeller(sellers: SellerCollection, body: RegisterBody, keys: Keys) returns (reply: Reply<SellerSession>)
    requires sellers.Valid()
    modifies sellers
    ensures sellers.Valid()
    ensures (reply, sellers.rows) == Registration(old(sellers.rows), old(sellers.clock), body, keys)
  {
    if !Present(body.name) || !Present(body.email) || !Present(body.password)
      || !Present(body.confirmPassword) || !Present(body.phone) || !Present(body.institutionName) {
      return Thrown(FillRequired);
    }
    var email := body.email.value;
    if !EndsWith(email, HandlerDomain) {
      return Thrown(InstitutionalEmail);
    }
    if body.password != body.confirmPassword {
      return Thrown(PasswordsDiffer);
    }
    var sellerExists := FindByEmail(sellers.rows, email);
    if sellerExists.Some? {
      return Thrown(SellerExists);
    }
    var created := sellers.Create(InputOf(body), keys);
    match created
    case Failure(f) =>
      reply := Raised(None, f);
    case Success(s) =>
      reply := Sent(201, SellerSession(GenerateToken(keys, s.id), View(s)));
  }

  /** The reply of loginSeller; the Seller table is only read. */
  function LoginSeller(rows: seq<Seller>, body: LoginBody, keys: Keys): (r: Reply<SellerSession>)
    ensures r.Sent? <==>
      && Present(body.email) && Present(body.password)
      && EndsWith(body.email.value, HandlerDomain)
      && FindByEmail(rows, body.email.value).Some?
      && Match(keys, body.password.value, FindByEmail(rows, body.email.value).value.password)
    ensures r.Sent? ==>
      var s := FindByEmail(rows, body.email.value).value;
      r == Sent(200, SellerSession(GenerateToken(keys, s.id), View(s)))
    ensures Present(body.email) && Present(body.password) && !EndsWith(body.email.value, HandlerDomain) ==>
      r == Thrown(OnlyInstitutional)
    ensures !r.Sent? ==> r.Raised? && r.statusSet == Some(400)
  {
    if !Present(body.email) || !Present(body.password) then Thrown(ProvideCredentials)
    else if !EndsWith(body.email.value, HandlerDomain) then Thrown(OnlyInstitutional)
    else
      var seller := FindByEmail(rows, body.email.value);
      if seller.None? then Thrown(InvalidEmailOrPassword)
      else if !Match(keys, body.password.value, seller.value.password) then Thrown(InvalidEmailOrPassword)
      else Sent(200, SellerSession(GenerateToken(keys, seller.value.id), View(seller.value)))
  }

  /** An unknown email and a wrong password get the same 400 and the same message. */
  lemma LoginFailuresIndistinguishable(rows: seq<Seller>, keys: Keys, unknown: LoginBody, wrong: LoginBody)
    requires Present(unknown.email) && Present(unknown.password) && EndsWith(unknown.email.value, HandlerDomain)
    requires Present(wrong.email) && Present(wrong.password) && EndsWith(wrong.email.value, HandlerDomain)
    requires FindByEmail(rows, unknown.email.value).None?
    requires FindByEmail(rows, wrong.email.value).Some?
    requires !Match(keys, wrong.password.value, FindByEmail(rows, wrong.email.value).value.password)
    ensures LoginSeller(rows, unknown, keys) == LoginSeller(rows, wrong, keys) == Thrown(InvalidEmailOrPassword)
  {
  }

  /**
   * Against a table whose every email passed the schema validator, no
   * seller login can succeed: the lookup uses the normalised "@edu.com"
   * email, which no stored "@edu" email equals.
   */
  lemma LoginNeverSucceedsOnSchemaValidTable(rows: seq<Seller>, body: LoginBody, keys: Keys)
    requires WellFormed(rows)
    ensures !LoginSeller(rows, body, keys).Sent?
    ensures Present(body.email) && Present(body.password) && EndsWith(body.email.value, HandlerDomain) ==>
      LoginSeller(rows, body, keys) == Thrown(InvalidEmailOrPassword)
  {
    if Present(body.email) && Present(body.password) && EndsWith(body.email.value, HandlerDomain) {
      HandlerSuffixFailsSchema(body.email.value);
      forall i | 0 <= i < |rows|
        ensures rows[i].email != NormaliseEmail(body.email.value)
      {
        assert EndsWith(rows[i].email, SchemaDomain);
      }
    }
  }

  /** A successful login's token verifies to the seller's id and carries no role. */
  lemma LoginTokenVerifies(rows: seq<Seller>, body: LoginBody, keys: Keys)
    requires Sound(keys) && LoginSeller(rows, body, keys).Sent?
    ensures Verify(keys, Some(LoginSeller(rows, body, keys).data.token)) ==
      Some(Claims(FindByEmail(rows, body.email.value).value.id, None))
  {
  }
}
