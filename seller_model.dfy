/**
 * The Seller schema: how an input document is cast (email lower-cased and
 * trimmed, name trimmed), which constraints it must meet, the defaults a
 * new record receives, the pre-save hook that hashes a modified password,
 * and password matching.
 */
module SellerModel {
  import opened Wrappers
  import opened Text
  import opened Crypto
  import opened Http
  import opened Tables

  /** The suffix the schema's email validator demands of the stored email. */
  const SchemaDomain := "@edu"
  const MinPasswordLength := 6

  const NameRequired := "Name is required"
  const EmailRequired := "Email is required"
  const EmailDomain := "Email must end with @edu domain"
  const PasswordRequired := "Password is required"
  const PasswordTooShort := "Password must be at least 6 characters"
  const PhoneRequired := "Phone number is required"
  const InstitutionRequired := "Institution name is required"
  /** The unique index on email refuses a second record with the same stored email. */
  const DuplicateEmail := "E11000 duplicate key error: email"

  datatype Seller = Seller(
    id: nat, name: string, email: string, password: string,
    phone: string, institutionName: string, address: Option<string>,
    profileImage: string, isVerified: bool, isActive: bool,
    totalCourses: int, totalProducts: int, totalRevenue: int,
    createdAt: nat)

  /** A seller as `select('-password')` returns it. */
  datatype PublicSeller = PublicSeller(
    id: nat, name: string, email: string,
    phone: string, institutionName: string, address: Option<string>,
    profileImage: string, isVerified: bool, isActive: bool,
    totalCourses: int, totalProducts: int, totalRevenue: int,
    createdAt: nat)

  function WithoutPassword(s: Seller): PublicSeller {
    PublicSeller(s.id, s.name, s.email, s.phone, s.institutionName, s.address,
      s.profileImage, s.isVerified, s.isActive, s.totalCourses, s.totalProducts,
      s.totalRevenue, s.createdAt)
  }

  function IdOf(s: Seller): int { s.id }
  function StampOf(s: Seller): int { s.createdAt }

  /** The fields `Seller.create` is given; a missing one is None. */
  datatype SellerInput = SellerInput(
    name: Option<string>, email: Option<string>, password: Option<string>,
    phone: Option<string>, institutionName: Option<string>, address: Option<string>)

  /** The email as the schema stores it: lower-cased, then trimmed. */
  function NormaliseEmail(email: string): string {
    Trim(Lower(email))
  }

  /** A `required` string path is missing when absent or empty after its setters. */
  predicate Given(value: Option<string>) {
    value.Some? && value.value != ""
  }

  function CastName(name: Option<string>): Option<string> {
    if name.Some? then Some(Trim(name.value)) else None
  }

  function CastEmail(email: Option<string>): Option<string> {
    if email.Some? then Some(NormaliseEmail(email.value)) else None
  }

  /** Every constraint of the schema, stated as one condition per path. */
  predicate Conforms(input: SellerInput) {
    && Given(CastName(input.name))
    && Given(CastEmail(input.email)) && EndsWith(CastEmail(input.email).value, SchemaDomain)
    && Given(input.password) && |input.password.value| >= MinPasswordLength
    && Given(input.phone)
    && Given(input.institutionName)
  }

  /** The required validator runs first on a path; the first failing validator reports. */
  function EmailViolations(email: Option<string>): (r: seq<Violation>)
    ensures |r| <= 1
  {
    var cast := CastEmail(email);
    if !Given(cast) then [Violation("email", EmailRequired)]
    else if !EndsWith(cast.value, SchemaDomain) then [Violation("email", EmailDomain)]
    else []
  }

  function PasswordViolations(password: Option<string>): (r: seq<Violation>)
    ensures |r| <= 1
  {
    if !Given(password) then [Violation("password", PasswordRequired)]
    else if |password.value| < MinPasswordLength then [Violation("password", PasswordTooShort)]
    else []
  }

  function RequiredViolation(path: string, value: Option<string>, message: string): (r: seq<Violation>)
    ensures |r| <= 1
  {
    if Given(value) then [] else [Violation(path, message)]
  }

  /**
   * The validation errors of an input, in schema order, at most one per
   * path; the address is optional and never reported.
   */
  function Violations(input: SellerInput): (r: seq<Violation>)
    ensures r == [] <==> Conforms(input)
    ensures |r| <= 5
    ensures forall v :: v in r ==> v.path in {"name", "email", "password", "phone", "institutionName"}
    ensures input.email.Some? && Given(CastEmail(input.email)) && !EndsWith(NormaliseEmail(input.email.value), SchemaDomain) ==>
      Violation("email", EmailDomain) in r
  {
    RequiredViolation("name", CastName(input.name), NameRequired)
    + EmailViolations(input.email)
    + PasswordViolations(input.password)
    + RequiredViolation("phone", input.phone, PhoneRequired)
    + RequiredViolation("institutionName", input.institutionName, InstitutionRequired)
  }

  /** A password shorter than six characters is reported, whatever the other paths hold. */
  lemma ShortPasswordRefused(input: SellerInput)
    requires Given(input.password) && |input.password.value| < MinPasswordLength
    ensures Violation("password", PasswordTooShort) in Violations(input)
    ensures !Conforms(input)
  {
    var before := RequiredViolation("name", CastName(input.name), NameRequired) + EmailViolations(input.email);
    var after := RequiredViolation("phone", input.phone, PhoneRequired)
      + RequiredViolation("institutionName", input.institutionName, InstitutionRequired);
    assert PasswordViolations(input.password) == [Violation("password", PasswordTooShort)];
    assert Violations(input) == before + [Violation("password", PasswordTooShort)] + after;
  }

  /**
   * A record built from a conforming input: the cast values, the given
   * password hash and the schema defaults.
   */
  function NewSeller(id: nat, input: SellerInput, passwordHash: string, stamp: nat): (s: Seller)
    requires Conforms(input)
    ensures s.email == NormaliseEmail(input.email.value) && EndsWith(s.email, SchemaDomain)
    ensures s.name == Trim(input.name.value) && s.name != ""
    ensures !s.isVerified && s.isActive && s.profileImage == ""
    ensures s.totalCourses == 0 && s.totalProducts == 0 && s.totalRevenue == 0
  {
    Seller(id, Trim(input.name.value), NormaliseEmail(input.email.value), passwordHash,
      input.phone.value, input.institutionName.value, input.address,
      "", false, true, 0, 0, 0, stamp)
  }

  /** `Seller.findOne({ email })`: the filter value passes through the email setters too. */
  function FindByEmail(rows: seq<Seller>, email: string): (r: Option<Seller>)
    ensures r.Some? ==> r.value in rows && r.value.email == NormaliseEmail(email)
    ensures r.None? <==> forall i :: 0 <= i < |rows| ==> rows[i].email != NormaliseEmail(email)
  {
    match IndexOf(rows, (s: Seller) => s.email, NormaliseEmail(email))
    case None => None
    case Some(i) => Some(rows[i])
  }

  /** `Seller.findById(id)`. */
  function FindById(rows: seq<Seller>, id: nat): (r: Option<Seller>)
    ensures r.Some? ==> r.value in rows && r.value.id == id
    ensures r.None? <==> forall i :: 0 <= i < |rows| ==> rows[i].id != id
  {
    match IndexOf(rows, IdOf, id)
    case None => None
    case Some(i) => Some(rows[i])
  }

  /** No string ends both in "@edu.com" (last letter 'm') and in "@edu" (last letter 'u'). */
  lemma SuffixesClash(n: string)
    requires EndsWith(n, "@edu.com")
    ensures !EndsWith(n, SchemaDomain)
  {
    var suffix := "@edu.com";
    var tail := n[|n| - |suffix|..];
    assert tail == suffix;
    assert n[|n| - |SchemaDomain|..][|SchemaDomain| - 1] == tail[|suffix| - 1] == 'm';
  }

  /**
   * The suffix gate of the registration and login handlers and the schema's
   * validator exclude each other: an email ending in "@edu.com" still ends
   * in "@edu.com" once lower-cased and trimmed, so it cannot end in "@edu".
   */
  lemma HandlerSuffixFailsSchema(raw: string)
    requires EndsWith(raw, "@edu.com")
    ensures EndsWith(NormaliseEmail(raw), "@edu.com")
    ensures !EndsWith(NormaliseEmail(raw), SchemaDomain)
  {
    LowerKeepsEduCom(raw);
    TrimKeepsEduCom(Lower(raw));
    SuffixesClash(NormaliseEmail(raw));
  }

  lemma LowerKeepsEduCom(raw: string)
    requires EndsWith(raw, "@edu.com")
    ensures EndsWith(Lower(raw), "@edu.com")
  {
    var suffix := "@edu.com";
    assert suffix == ['@', 'e', 'd', 'u', '.', 'c', 'o', 'm'];
    LowerOfLowerCase(suffix);
    LowerKeepsSuffix(raw, suffix);
  }

  lemma TrimKeepsEduCom(s: string)
    requires EndsWith(s, "@edu.com")
    ensures EndsWith(Trim(s), "@edu.com")
  {
    var suffix := "@edu.com";
    assert !IsSpace(suffix[0]) && !IsSpace(suffix[|suffix| - 1]);
    TrimKeepsSuffix(s, suffix);
  }

  /** A conforming input never passed the handlers' "@edu.com" gate. */
  lemma ConformingEmailFailsHandlerGate(input: SellerInput)
    requires Conforms(input)
    ensures !EndsWith(input.email.value, "@edu.com")
  {
    if EndsWith(input.email.value, "@edu.com") {
      HandlerSuffixFailsSchema(input.email.value);
    }
  }

  /** A seller record is a sound table row: a stored, normalised, schema-valid email. */
  ghost predicate WellFormed(rows: seq<Seller>) {
    && Increasing(rows, IdOf)
    && Increasing(rows, StampOf)
    && forall i :: 0 <= i < |rows| ==> EndsWith(rows[i].email, SchemaDomain)
  }

  /**
   * One document in memory: the record and whether its password path has
   * been modified since it was loaded or created (Mongoose's isModified).
   */
  class SellerDocument {
    var record: Seller
    var passwordModified: bool

    /** A new document: every path it was given counts as modified. */
    constructor New(record: Seller)
      ensures this.record == record && passwordModified
    {
      this.record := record;
      passwordModified := true;
    }

    /** A document loaded from the collection: nothing modified yet. */
    constructor Load(record: Seller)
      ensures this.record == record && !passwordModified
    {
      this.record := record;
      passwordModified := false;
    }

    /** Assigning the password marks it modified. */
    method SetPassword(password: string)
      modifies this
      ensures record == old(record).(password := password) && passwordModified
    {
      record := record.(password := password);
      passwordModified := true;
    }

    /** The pre-save hook: hash the password only when it was modified. */
    method PreSave(keys: Keys)
      modifies this
      ensures passwordModified == old(passwordModified)
      ensures old(passwordModified) ==> record == old(record).(password := keys.hash(old(record.password)))
      ensures !old(passwordModified) ==> record == old(record)
    {
      if !passwordModified {
        return;
      }
      record := record.(password := keys.hash(record.password));
    }

    /** save(): the hook, then the write, after which nothing is modified. */
    method Save(keys: Keys)
      modifies this
      ensures !passwordModified
      ensures old(passwordModified) ==> record == old(record).(password := keys.hash(old(record.password)))
      ensures old(passwordModified) ==> MatchPassword(keys, old(record.password))
      ensures !old(passwordModified) ==> record == old(record)
    {
      PreSave(keys);
      passwordModified := false;
    }

    /** matchPassword: the entered password hashes to the stored hash. */
    predicate MatchPassword(keys: Keys, entered: string)
      reads this
    {
      Match(keys, entered, record.password)
    }
  }

  /** The Seller collection, with ids and creation stamps drawn from one clock. */
  class SellerCollection {
    var rows: seq<Seller>
    var clock: nat

    ghost predicate Valid()
      reads this
    {
      && WellFormed(rows)
      && forall i :: 0 <= i < |rows| ==> rows[i].id < clock && rows[i].createdAt < clock
    }

    constructor ()
      ensures Valid() && rows == [] && clock == 0
    {
      rows := [];
      clock := 0;
    }

    /**
     * `Seller.create(input)`: validation, then the pre-save hook, then the
     * insert, which the unique email index can refuse.
     */
    method Create(input: SellerInput, keys: Keys) returns (r: Result<Seller, Failure>)
      requires Valid()
      modifies this
      ensures Valid()
      ensures (r, rows) == Created(old(rows), old(clock), input, keys)
      ensures r.Failure? ==> clock == old(clock)
    {
      var violations := Violations(input);
      if violations != [] {
        return Failure(Invalid(violations));
      }
      var doc := new SellerDocument.New(NewSeller(clock, input, input.password.value, clock));
      doc.Save(keys);
      var s := doc.record;
      if exists i :: 0 <= i < |rows| && rows[i].email == s.email {
        return Failure(Message(DuplicateEmail));
      }
      CreatedWellFormed(rows, clock, input, keys);
      rows := rows + [s];
      clock := clock + 1;
      r := Success(s);
    }
  }

  /** The result of `Seller.create` and the table afterwards. */
  function Created(rows: seq<Seller>, clock: nat, input: SellerInput, keys: Keys): (out: (Result<Seller, Failure>, seq<Seller>))
    ensures out.0.Failure? ==> out.1 == rows
    ensures out.0.Success? ==>
      && Conforms(input)
      && out.1 == rows + [out.0.value]
      && out.0.value.password == keys.hash(input.password.value)
      && out.0.value.id == clock
    ensures !Conforms(input) ==> out == (Failure(Invalid(Violations(input))), rows)
  {
    var violations := Violations(input);
    if violations != [] then (Failure(Invalid(violations)), rows)
    else
      var s := NewSeller(clock, input, keys.hash(input.password.value), clock);
      if exists i :: 0 <= i < |rows| && rows[i].email == s.email then (Failure(Message(DuplicateEmail)), rows)
      else (Success(s), rows + [s])
  }

  /**
   * `Seller.create` succeeds exactly for a conforming input whose normalised
   * email is not stored yet; it stores the new record with the schema's
   * defaults and the password's hash, and a taken email is refused by the
   * unique index.
   */
  lemma CreatedOutcome(rows: seq<Seller>, clock: nat, input: SellerInput, keys: Keys)
    ensures var out := Created(rows, clock, input, keys);
      out.0.Success? <==>
        Conforms(input) && forall i :: 0 <= i < |rows| ==> rows[i].email != NormaliseEmail(input.email.value)
    ensures var out := Created(rows, clock, input, keys);
      out.0.Success? ==>
        out == (Success(NewSeller(clock, input, keys.hash(input.password.value), clock)),
                rows + [NewSeller(clock, input, keys.hash(input.password.value), clock)])
    ensures Conforms(input) && (exists i :: 0 <= i < |rows| && rows[i].email == NormaliseEmail(input.email.value)) ==>
      Created(rows, clock, input, keys) == (Failure(Message(DuplicateEmail)), rows)
  {
  }

  /** A created seller's stored hash matches the password it was created with. */
  lemma CreatedMatchesOwnPassword(rows: seq<Seller>, clock: nat, input: SellerInput, keys: Keys)
    requires Created(rows, clock, input, keys).0.Success?
    ensures Match(keys, input.password.value, Created(rows, clock, input, keys).0.value.password)
  {
  }

  /** Creating keeps the table well formed. */
  lemma CreatedWellFormed(rows: seq<Seller>, clock: nat, input: SellerInput, keys: Keys)
    requires WellFormed(rows)
    requires forall i :: 0 <= i < |rows| ==> rows[i].id < clock && rows[i].createdAt < clock
    ensures WellFormed(Created(rows, clock, input, keys).1)
  {
    var out := Created(rows, clock, input, keys);
    if out.0.Success? {
      AppendPreservesIncreasing(rows, out.0.value, IdOf);
      AppendPreservesIncreasing(rows, out.0.value, StampOf);
    }
  }
}
