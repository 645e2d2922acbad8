/**
 * The Course and Product schemas: the paths a listing has, how they are
 * cast (four of them trimmed), which constraints they must meet, and the
 * defaults a new course receives. The two schemas share every listing path;
 * a course adds a duration, a level and an enrolment count.
 */
module ListingModel {
  import opened Wrappers
  import opened Text
  import opened Http
  import opened Tables

  datatype Kind = Product | Course

  /** A JavaScript number as parseFloat produces it: NaN or a value. */
  datatype Num = NaN | Num(value: real)

  /** The paths only a course has. */
  datatype CourseInfo = CourseInfo(duration: string, level: string, enrolledStudents: int)

  /**
   * A stored listing. `type` is written by the routes although neither
   * schema declares it; it is kept here as the routes write it.
   */
  datatype Listing = Listing(
    id: nat, title: string, name: string, authorName: string, description: string,
    price: real, originalPrice: real, category: string, image: string,
    createdBy: nat, typeTag: string, createdAt: nat, course: Option<CourseInfo>)

  /** The listing paths a create or an update writes, before casting. */
  datatype Fields = Fields(
    title: Option<string>, name: Option<string>, authorName: Option<string>,
    description: Option<string>, price: Num, originalPrice: Num,
    category: Option<string>, image: Option<string>)

  const DefaultDuration := "Self-paced"
  const DefaultLevel := "Beginner"
  const Levels: set<string> := {"Beginner", "Intermediate", "Advanced"}

  const AuthorRequired := "Author name is required"
  const DescriptionRequired := "Description is required"
  const PriceNegative := "Price cannot be negative"
  const OriginalPriceNegative := "Original price cannot be negative"
  const CategoryRequired := "Category is required"
  const CastToNumberFailed := "Cast to Number failed"
  const LevelNotAllowed := "`level` is not a valid enum value"

  function Noun(kind: Kind): string {
    match kind
    case Product => "Product"
    case Course => "Course"
  }

  function TitleRequired(kind: Kind): string { Noun(kind) + " title is required" }
  function NameRequired(kind: Kind): string { Noun(kind) + " name is required" }
  function ImageRequired(kind: Kind): string { Noun(kind) + " image is required" }

  /** A required string path: absent or empty fails. */
  predicate Given(value: Option<string>) {
    value.Some? && value.value != ""
  }

  /** A trimmed path's value after its setter. */
  function Trimmed(value: Option<string>): Option<string> {
    if value.Some? then Some(Trim(value.value)) else None
  }

  /** A number path with `min: 0`: NaN fails to cast, a negative value fails the minimum. */
  predicate NonNegative(n: Num) {
    n.Num? && n.value >= 0.0
  }

  /** Every constraint of the schema on the listing paths. */
  predicate Conforms(f: Fields) {
    && Given(Trimmed(f.title)) && Given(Trimmed(f.name)) && Given(Trimmed(f.authorName))
    && Given(f.description)
    && NonNegative(f.price) && NonNegative(f.originalPrice)
    && Given(Trimmed(f.category)) && Given(f.image)
  }

  function RequiredViolation(path: string, value: Option<string>, message: string): (r: seq<Violation>)
    ensures r == [] <==> Given(value)
  {
    if Given(value) then [] else [Violation(path, message)]
  }

  function NumberViolation(path: string, n: Num, message: string): (r: seq<Violation>)
    ensures r == [] <==> NonNegative(n)
    ensures n.NaN? ==> r == [Violation(path, CastToNumberFailed)]
    ensures n.Num? && n.value < 0.0 ==> r == [Violation(path, message)]
  {
    match n
    case NaN => [Violation(path, CastToNumberFailed)]
    case Num(v) => if v < 0.0 then [Violation(path, message)] else []
  }

  /** The validation errors of the listing paths, in schema order, at most one per path. */
  function Violations(kind: Kind, f: Fields): (r: seq<Violation>)
    ensures r == [] <==> Conforms(f)
    ensures |r| <= 8
    ensures f.price.Num? && f.price.value < 0.0 ==> Violation("price", PriceNegative) in r
    ensures f.originalPrice.Num? && f.originalPrice.value < 0.0 ==> Violation("originalPrice", OriginalPriceNegative) in r
  {
    RequiredViolation("title", Trimmed(f.title), TitleRequired(kind))
    + RequiredViolation("name", Trimmed(f.name), NameRequired(kind))
    + RequiredViolation("authorName", Trimmed(f.authorName), AuthorRequired)
    + RequiredViolation("description", f.description, DescriptionRequired)
    + NumberViolation("price", f.price, PriceNegative)
    + NumberViolation("originalPrice", f.originalPrice, OriginalPriceNegative)
    + RequiredViolation("category", Trimmed(f.category), CategoryRequired)
    + RequiredViolation("image", f.image, ImageRequired(kind))
  }

  /** The enum constraint on a course's level. */
  function LevelViolations(info: CourseInfo): (r: seq<Violation>)
    ensures r == [] <==> info.level in Levels
  {
    if info.level in Levels then [] else [Violation("level", LevelNotAllowed)]
  }

  /** What a new record of the kind holds beyond the listing paths. */
  function Defaults(kind: Kind): (c: Option<CourseInfo>)
    ensures kind == Product <==> c.None?
    ensures c.Some? ==> LevelViolations(c.value) == []
  {
    match kind
    case Product => None
    case Course => Some(CourseInfo(DefaultDuration, DefaultLevel, 0))
  }

  /** A stored listing meets the schema: the trimmed paths are trimmed and non-empty, the prices are not negative. */
  predicate Stored(l: Listing) {
    && l.title != "" && Trim(l.title) == l.title
    && l.name != "" && Trim(l.name) == l.name
    && l.authorName != "" && Trim(l.authorName) == l.authorName
    && l.description != ""
    && l.price >= 0.0 && l.originalPrice >= 0.0
    && l.category != "" && Trim(l.category) == l.category
    && l.image != ""
    && (l.course.Some? ==> l.course.value.level in Levels)
  }

  /** A new record from conforming fields: the cast values and the kind's defaults. */
  function NewListing(kind: Kind, id: nat, f: Fields, createdBy: nat, typeTag: string, stamp: nat): (l: Listing)
    requires Conforms(f)
    ensures Stored(l)
    ensures l.id == id && l.createdBy == createdBy && l.typeTag == typeTag && l.createdAt == stamp
    ensures l.title == Trim(f.title.value) && l.name == Trim(f.name.value)
    ensures l.authorName == Trim(f.authorName.value) && l.category == Trim(f.category.value)
    ensures l.description == f.description.value && l.image == f.image.value
    ensures l.price == f.price.value && l.originalPrice == f.originalPrice.value
    ensures l.course == Defaults(kind)
  {
    TrimIdempotent(f.title.value);
    TrimIdempotent(f.name.value);
    TrimIdempotent(f.authorName.value);
    TrimIdempotent(f.category.value);
    Listing(id, Trim(f.title.value), Trim(f.name.value), Trim(f.authorName.value),
      f.description.value, f.price.value, f.originalPrice.value,
      Trim(f.category.value), f.image.value, createdBy, typeTag, stamp, Defaults(kind))
  }

  /**
   * A record with the listing paths replaced by conforming fields; id,
   * owner, type, stamp and the course paths stay as they were.
   */
  function Updated(l: Listing, f: Fields): (u: Listing)
    requires Conforms(f)
    ensures Stored(l) ==> Stored(u)
    ensures u.id == l.id && u.createdBy == l.createdBy && u.typeTag == l.typeTag
    ensures u.createdAt == l.createdAt && u.course == l.course
    ensures u.title == Trim(f.title.value) && u.name == Trim(f.name.value)
    ensures u.authorName == Trim(f.authorName.value) && u.category == Trim(f.category.value)
    ensures u.description == f.description.value && u.image == f.image.value
    ensures u.price == f.price.value && u.originalPrice == f.originalPrice.value
  {
    TrimIdempotent(f.title.value);
    TrimIdempotent(f.name.value);
    TrimIdempotent(f.authorName.value);
    TrimIdempotent(f.category.value);
    l.(title := Trim(f.title.value), name := Trim(f.name.value), authorName := Trim(f.authorName.value),
       description := f.description.value, price := f.price.value, originalPrice := f.originalPrice.value,
       category := Trim(f.category.value), image := f.image.value)
  }

  /** The fields a stored record would write back: they conform. */
  function FieldsOf(l: Listing): (f: Fields)
    requires Stored(l)
    ensures Conforms(f)
  {
    Fields(Some(l.title), Some(l.name), Some(l.authorName), Some(l.description),
      Num(l.price), Num(l.originalPrice), Some(l.category), Some(l.image))
  }

  /** Writing back a stored record's own fields changes nothing. */
  lemma UpdatedWithOwnFields(l: Listing)
    requires Stored(l)
    ensures Updated(l, FieldsOf(l)) == l
  {
  }

  /** A negative price is refused whatever the other paths hold. */
  lemma NegativePriceRefused(kind: Kind, f: Fields)
    requires f.price.Num? && f.price.value < 0.0
    ensures Violations(kind, f) != [] && !Conforms(f)
  {
  }

  function IdOf(l: Listing): int { l.id }
  function StampOf(l: Listing): int { l.createdAt }

  /** `findById(id)`: the position of the listing with that id, if any. */
  function FindIndex(rows: seq<Listing>, id: nat): (r: Option<nat>)
    ensures r.None? <==> forall i :: 0 <= i < |rows| ==> rows[i].id != id
    ensures r.Some? ==> r.value < |rows| && rows[r.value].id == id
  {
    IndexOf(rows, IdOf, id)
  }

  /** A listing collection: increasing ids and stamps, every record meeting its schema. */
  ghost predicate WellFormed(rows: seq<Listing>) {
    && Increasing(rows, IdOf) && Increasing(rows, StampOf)
    && forall i :: 0 <= i < |rows| ==> Stored(rows[i])
  }

  /** Every id and stamp in the table was drawn before the clock reached `clock`. */
  ghost predicate Below(rows: seq<Listing>, clock: nat) {
    forall i :: 0 <= i < |rows| ==> rows[i].id < clock && rows[i].createdAt < clock
  }

  lemma AppendKeepsWellFormed(rows: seq<Listing>, clock: nat, l: Listing)
    requires WellFormed(rows) && Below(rows, clock)
    requires Stored(l) && l.id == clock && l.createdAt == clock
    ensures WellFormed(rows + [l]) && Below(rows + [l], clock + 1)
  {
    AppendPreservesIncreasing(rows, l, IdOf);
    AppendPreservesIncreasing(rows, l, StampOf);
  }

  lemma RemoveKeepsWellFormed(rows: seq<Listing>, clock: nat, i: nat)
    requires WellFormed(rows) && Below(rows, clock) && i < |rows|
    ensures WellFormed(RemoveAt(rows, i)) && Below(RemoveAt(rows, i), clock)
  {
    RemovePreservesIncreasing(rows, i, IdOf);
    RemovePreservesIncreasing(rows, i, StampOf);
    var r := RemoveAt(rows, i);
    forall j | 0 <= j < |r|
      ensures Stored(r[j]) && r[j].id < clock && r[j].createdAt < clock
    {
      assert r[j] == rows[if j < i then j else j + 1];
    }
  }

  /** Replacing a record by one with the same id and stamp keeps the table well formed. */
  lemma ReplaceKeepsWellFormed(rows: seq<Listing>, clock: nat, i: nat, u: Listing)
    requires i < |rows| && u.id == rows[i].id && u.createdAt == rows[i].createdAt
    requires Stored(rows[i]) ==> Stored(u)
    ensures WellFormed(rows) ==> WellFormed(rows[i := u])
    ensures Below(rows, clock) ==> Below(rows[i := u], clock)
  {
    if WellFormed(rows) {
      ReplacePreservesIncreasing(rows, i, u, IdOf);
      ReplacePreservesIncreasing(rows, i, u, StampOf);
    }
  }

  /** The Product or the Course collection, with ids and stamps drawn from one clock. */
  class ListingCollection {
    var rows: seq<Listing>
    var clock: nat

    ghost predicate Valid()
      reads this
    {
      WellFormed(rows) && Below(rows, clock)
    }

    constructor ()
      ensures Valid() && rows == [] && clock == 0
    {
      rows := [];
      clock := 0;
    }

    /** `create(fields)` for fields that passed validation. */
    method Create(kind: Kind, f: Fields, createdBy: nat, typeTag: string) returns (l: Listing)
      requires Valid() && Conforms(f)
      modifies this
      ensures Valid()
      ensures l == NewListing(kind, old(clock), f, createdBy, typeTag, old(clock))
      ensures rows == old(rows) + [l] && clock == old(clock) + 1
    {
      var stamp := clock;
      l := NewListing(kind, stamp, f, createdBy, typeTag, stamp);
      AppendKeepsWellFormed(rows, stamp, l);
      rows := rows + [l];
      clock := stamp + 1;
    }

    /** `findByIdAndUpdate(id, fields)` for the record at position `i`, fields validated. */
    method UpdateAt(i: nat, f: Fields) returns (l: Listing)
      requires Valid() && i < |rows| && Conforms(f)
      modifies this
      ensures Valid() && clock == old(clock)
      ensures l == Updated(old(rows)[i], f) && rows == old(rows)[i := l]
    {
      l := Updated(rows[i], f);
      ReplaceKeepsWellFormed(rows, clock, i, l);
      rows := rows[i := l];
    }

    /** `deleteOne()` on the record at position `i`. */
    method DeleteAt(i: nat)
      requires Valid() && i < |rows|
      modifies this
      ensures Valid() && clock == old(clock)
      ensures rows == RemoveAt(old(rows), i)
    {
      RemoveKeepsWellFormed(rows, clock, i);
      rows := RemoveAt(rows, i);
    }
  }
}
