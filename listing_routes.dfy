/**
 * The product and course routes. Both routers have the same shape: a
 * public listing of all records, a public listing per seller, a public
 * lookup by id, and create, update and delete behind protectSeller (create
 * and update also behind the image upload). They differ only in the
 * collection, the messages, the upload directory, the `type` tag written
 * on create and the filter of the listing of all records.
 */
module ListingRoutes {
  import opened Wrappers
  import opened Text
  import opened Crypto
  import opened Http
  import opened Tables
  import opened ListingModel
  import opened Upload
  import opened Requests
  import SellerModel
  import SellerAuthMiddleware
  import AuthMiddleware

  /**
   * A price field of the form body: the text as sent and what parseFloat
   * makes of that text when it is truthy.
   */
  datatype Price = Price(text: Option<string>, parsed: Num)

  /** The text fields of the body of a create or an update. */
  datatype Body = Body(
    title: Option<string>, name: Option<string>, authorName: Option<string>,
    description: Option<string>, price: Price, originalPrice: Price,
    category: Option<string>)

  /** The body of a listing response: the records and how many there are. */
  datatype Page = Page(data: seq<Listing>, count: nat)

  const NotAuthorized := "Not authorized"

  /** parseFloat: an absent or empty text is NaN. */
  function ParseFloat(p: Price): (n: Num)
    ensures !Present(p.text) ==> n.NaN?
  {
    if Present(p.text) then p.parsed else NaN
  }

  /** The `type` each router writes on create. */
  function TypeTag(kind: Kind): string {
    match kind
    case Product => "product"
    case Course => "course"
  }

  /** The public path of a stored upload. */
  function ImagePath(kind: Kind, file: File): (p: string)
    ensures p == (if kind == Product then "/uploads/products/" else "/uploads/courses/") + file.filename
    ensures p != ""
  {
    match kind
    case Product => "/uploads/products/" + file.filename
    case Course => "/uploads/courses/" + file.filename
  }

  function NotFound(kind: Kind): string { Noun(kind) + " not found" }
  function DeletedMessage(kind: Kind): string { Noun(kind) + " deleted successfully" }

  /** The fields a create passes to `create`: `originalPrice || price`, and the upload's path. */
  function CreateFields(kind: Kind, body: Body, file: File): (f: Fields)
    ensures f.title == body.title && f.name == body.name && f.authorName == body.authorName
    ensures f.description == body.description && f.category == body.category
    ensures f.price == ParseFloat(body.price)
    ensures Present(body.originalPrice.text) ==> f.originalPrice == body.originalPrice.parsed
    ensures !Present(body.originalPrice.text) ==> f.originalPrice == f.price
    ensures f.image == Some(ImagePath(kind, file))
  {
    var original := if Present(body.originalPrice.text) then body.originalPrice else body.price;
    Fields(body.title, body.name, body.authorName, body.description,
      ParseFloat(body.price), ParseFloat(original), body.category, Some(ImagePath(kind, file)))
  }

  /**
   * The create handler, after protectSeller attached `seller` and the upload
   * step handed on `file`. Its result is the reply and the table afterwards.
   */
  function Create(kind: Kind, rows: seq<Listing>, clock: nat, body: Body, file: Option<File>, seller: nat)
    : (out: (Reply<Listing>, seq<Listing>))
    ensures file.None? ==> out == (Refused(400, Message(ImageRequired(kind))), rows)
    ensures file.Some? && !Conforms(CreateFields(kind, body, file.value)) ==>
      out == (Refused(400, Invalid(Violations(kind, CreateFields(kind, body, file.value)))), rows)
    ensures out.0.Sent? <==> file.Some? && Conforms(CreateFields(kind, body, file.value))
    ensures out.0.Sent? ==>
      && out.0.status == 201 && out.1 == rows + [out.0.data] && Stored(out.0.data)
      && out.0.data.id == clock && out.0.data.createdAt == clock
      && out.0.data.createdBy == seller && out.0.data.typeTag == TypeTag(kind)
      && out.0.data.image == ImagePath(kind, file.value) && out.0.data.course == Defaults(kind)
    ensures out.0.Sent? ==> out.0.data == NewListing(kind, clock, CreateFields(kind, body, file.value), seller, TypeTag(kind), clock)
    ensures !out.0.Sent? ==> out.1 == rows
  {
    if file.None? then (Refused(400, Message(ImageRequired(kind))), rows)
    else
      var f := CreateFields(kind, body, file.value);
      var v := Violations(kind, f);
      if v != [] then (Refused(400, Invalid(v)), rows)
      else
        var l := NewListing(kind, clock, f, seller, TypeTag(kind), clock);
        (Sent(201, l), rows + [l])
  }

  /** POST /: protectSeller, then the upload, then the create handler. */
  function CreateRoute(kind: Kind, header: Option<string>, sellers: seq<SellerModel.Seller>, keys: Keys,
                       upload: Option<File>, rows: seq<Listing>, clock: nat, body: Body)
    : (out: (Reply<Listing>, seq<Listing>))
    ensures SellerAuthMiddleware.AuthenticateSeller(header, sellers, keys).Deny? ==>
      out == (Denied(SellerAuthMiddleware.AuthenticateSeller(header, sellers, keys)), rows)
    ensures SellerAuthMiddleware.AuthenticateSeller(header, sellers, keys).Pass? && Receive(upload).Failure? ==>
      out == (Raised(None, Receive(upload).error), rows)
    ensures SellerAuthMiddleware.AuthenticateSeller(header, sellers, keys).Pass? && Receive(upload).Success? ==>
      out == Create(kind, rows, clock, body, Receive(upload).value,
        SellerAuthMiddleware.AuthenticateSeller(header, sellers, keys).principal.id)
    ensures out.0.Sent? ==>
      && SellerAuthMiddleware.AuthenticateSeller(header, sellers, keys).Pass?
      && upload.Some? && FileFilter(upload.value) && upload.value.size <= MaxFileSize
      && out.1 == rows + [out.0.data]
      && out.0.data.createdBy == SellerAuthMiddleware.AuthenticateSeller(header, sellers, keys).principal.id
    ensures !out.0.Sent? ==> out.1 == rows
  {
    var gate := SellerAuthMiddleware.AuthenticateSeller(header, sellers, keys);
    if gate.Deny? then (Denied(gate), rows)
    else match Receive(upload)
      case Failure(e) => (Raised(None, e), rows)
      case Success(file) => Create(kind, rows, clock, body, file, gate.principal.id)
  }

  /**
   * Every new listing belongs to an active seller of the table whose id
   * the request's token carries.
   */
  lemma CreatedListingHasActiveOwner(kind: Kind, header: Option<string>, sellers: seq<SellerModel.Seller>, keys: Keys,
                                     upload: Option<File>, rows: seq<Listing>, clock: nat, body: Body)
    requires CreateRoute(kind, header, sellers, keys, upload, rows, clock, body).0.Sent?
    ensures exists s :: (s in sellers && s.isActive
      && s.id == CreateRoute(kind, header, sellers, keys, upload, rows, clock, body).0.data.createdBy)
  {
    var gate := SellerAuthMiddleware.AuthenticateSeller(header, sellers, keys);
    var s :| s in sellers && s.id == AuthMiddleware.Decoded(header.value, keys).value.id
      && gate.principal == SellerModel.WithoutPassword(s);
    assert s.isActive && s.id == gate.principal.id;
  }

  /**
   * The fields an update writes: each body field if truthy, else the
   * stored value; the image only when a file was uploaded.
   */
  function Merged(kind: Kind, l: Listing, body: Body, file: Option<File>): (f: Fields)
    ensures f.title == (if Present(body.title) then body.title else Some(l.title))
    ensures f.name == (if Present(body.name) then body.name else Some(l.name))
    ensures f.authorName == (if Present(body.authorName) then body.authorName else Some(l.authorName))
    ensures f.description == (if Present(body.description) then body.description else Some(l.description))
    ensures f.price == (if Present(body.price.text) then body.price.parsed else Num(l.price))
    ensures f.originalPrice == (if Present(body.originalPrice.text) then body.originalPrice.parsed else Num(l.originalPrice))
    ensures f.category == (if Present(body.category) then body.category else Some(l.category))
    ensures f.image == (if file.Some? then Some(ImagePath(kind, file.value)) else Some(l.image))
  {
    Fields(
      if Present(body.title) then body.title else Some(l.title),
      if Present(body.name) then body.name else Some(l.name),
      if Present(body.authorName) then body.authorName else Some(l.authorName),
      if Present(body.description) then body.description else Some(l.description),
      if Present(body.price.text) then ParseFloat(body.price) else Num(l.price),
      if Present(body.originalPrice.text) then ParseFloat(body.originalPrice) else Num(l.originalPrice),
      if Present(body.category) then body.category else Some(l.category),
      if file.Some? then Some(ImagePath(kind, file.value)) else Some(l.image))
  }

  /**
   * The update handler, for the seller protectSeller attached: not found,
   * then not the owner, then the validated update of the merged fields.
   */
  function Update(kind: Kind, rows: seq<Listing>, id: nat, body: Body, file: Option<File>, seller: nat)
    : (out: (Reply<Listing>, seq<Listing>))
    ensures FindIndex(rows, id).None? ==> out == (Refused(404, Message(NotFound(kind))), rows)
    ensures FindIndex(rows, id).Some? && rows[FindIndex(rows, id).value].createdBy != seller ==>
      out == (Refused(403, Message(NotAuthorized)), rows)
    ensures FindIndex(rows, id).Some? && rows[FindIndex(rows, id).value].createdBy == seller ==>
      var f := Merged(kind, rows[FindIndex(rows, id).value], body, file);
      !Conforms(f) ==> out == (Refused(400, Invalid(Violations(kind, f))), rows)
    ensures out.0.Sent? <==>
      && FindIndex(rows, id).Some? && rows[FindIndex(rows, id).value].createdBy == seller
      && Conforms(Merged(kind, rows[FindIndex(rows, id).value], body, file))
    ensures out.0.Sent? ==>
      var i := FindIndex(rows, id).value;
      && FindIndex(rows, id).Some? && rows[i].createdBy == seller
      && out.0.status == 200 && out.1 == rows[i := out.0.data]
      && out.0.data.id == id && out.0.data.createdBy == seller
      && out.0.data.createdAt == rows[i].createdAt && out.0.data.typeTag == rows[i].typeTag
      && out.0.data.course == rows[i].course
    ensures !out.0.Sent? ==> out.1 == rows
    ensures WellFormed(rows) ==> WellFormed(out.1)
  {
    match FindIndex(rows, id)
    case None => (Refused(404, Message(NotFound(kind))), rows)
    case Some(i) =>
      if rows[i].createdBy != seller then (Refused(403, Message(NotAuthorized)), rows)
      else
        var f := Merged(kind, rows[i], body, file);
        var v := Violations(kind, f);
        if v != [] then (Refused(400, Invalid(v)), rows)
        else
          var u := Updated(rows[i], f);
          ReplaceKeepsWellFormed(rows, 0, i, u);
          (Sent(200, u), rows[i := u])
  }

  /**
   * The record an accepted update writes, path by path: the trimmed body
   * field when one was sent, the stored value otherwise.
   */
  lemma MergedPathByPath(kind: Kind, l: Listing, body: Body, file: Option<File>)
    requires Stored(l) && Conforms(Merged(kind, l, body, file))
    ensures var u := Updated(l, Merged(kind, l, body, file));
      && u.title == (if Present(body.title) then Trim(body.title.value) else l.title)
      && u.name == (if Present(body.name) then Trim(body.name.value) else l.name)
      && u.authorName == (if Present(body.authorName) then Trim(body.authorName.value) else l.authorName)
      && u.category == (if Present(body.category) then Trim(body.category.value) else l.category)
    ensures var u := Updated(l, Merged(kind, l, body, file));
      && u.description == (if Present(body.description) then body.description.value else l.description)
      && u.price == (if Present(body.price.text) then body.price.parsed.value else l.price)
      && u.originalPrice == (if Present(body.originalPrice.text) then body.originalPrice.parsed.value else l.originalPrice)
      && u.image == (if file.Some? then ImagePath(kind, file.value) else l.image)
  {
    var f := Merged(kind, l, body, file);
    var u := Updated(l, f);
    assert u.title == Trim(f.title.value) && u.name == Trim(f.name.value);
    assert u.authorName == Trim(f.authorName.value) && u.category == Trim(f.category.value);
  }

  /** A successful update writes the merged record at the position of its id. */
  lemma UpdateMergesFieldByField(kind: Kind, rows: seq<Listing>, id: nat, body: Body, file: Option<File>, seller: nat)
    requires WellFormed(rows) && Update(kind, rows, id, body, file, seller).0.Sent?
    ensures var i := FindIndex(rows, id).value;
      && Conforms(Merged(kind, rows[i], body, file))
      && Update(kind, rows, id, body, file, seller).0.data == Updated(rows[i], Merged(kind, rows[i], body, file))
      && Stored(rows[i])
  {
  }

  /** An update that sends a negative price is refused with 400 and changes nothing. */
  lemma NegativePriceUpdateRefused(kind: Kind, rows: seq<Listing>, id: nat, body: Body, file: Option<File>, seller: nat)
    requires FindIndex(rows, id).Some? && rows[FindIndex(rows, id).value].createdBy == seller
    requires Present(body.price.text) && body.price.parsed.Num? && body.price.parsed.value < 0.0
    ensures var out := Update(kind, rows, id, body, file, seller);
      out.1 == rows && out.0.Refused? && out.0.status == 400
      && Violation("price", PriceNegative) in out.0.failure.violations
  {
    var f := Merged(kind, rows[FindIndex(rows, id).value], body, file);
    NegativePriceRefused(kind, f);
  }

  /** An update with an empty body and no file rewrites the record as it was. */
  lemma EmptyUpdateChangesNothing(kind: Kind, rows: seq<Listing>, id: nat, seller: nat, body: Body)
    requires WellFormed(rows) && FindIndex(rows, id).Some? && rows[FindIndex(rows, id).value].createdBy == seller
    requires !Present(body.title) && !Present(body.name) && !Present(body.authorName)
    requires !Present(body.description) && !Present(body.price.text) && !Present(body.originalPrice.text)
    requires !Present(body.category)
    ensures Update(kind, rows, id, body, None, seller) == (Sent(200, rows[FindIndex(rows, id).value]), rows)
  {
    var i := FindIndex(rows, id).value;
    var l := rows[i];
    assert Stored(l);
    assert Merged(kind, l, body, None) == FieldsOf(l);
    UpdatedWithOwnFields(l);
    assert Violations(kind, FieldsOf(l)) == [];
    assert rows[i := l] == rows;
  }

  /** PUT /:id: protectSeller, then the upload, then the update handler. */
  function UpdateRoute(kind: Kind, header: Option<string>, sellers: seq<SellerModel.Seller>, keys: Keys,
                       upload: Option<File>, rows: seq<Listing>, id: nat, body: Body)
    : (out: (Reply<Listing>, seq<Listing>))
    ensures SellerAuthMiddleware.AuthenticateSeller(header, sellers, keys).Deny? ==>
      out == (Denied(SellerAuthMiddleware.AuthenticateSeller(header, sellers, keys)), rows)
    ensures SellerAuthMiddleware.AuthenticateSeller(header, sellers, keys).Pass? && Receive(upload).Failure? ==>
      out == (Raised(None, Receive(upload).error), rows)
    ensures SellerAuthMiddleware.AuthenticateSeller(header, sellers, keys).Pass? && Receive(upload).Success? ==>
      out == Update(kind, rows, id, body, Receive(upload).value,
        SellerAuthMiddleware.AuthenticateSeller(header, sellers, keys).principal.id)
    ensures out.1 != rows ==>
      && SellerAuthMiddleware.AuthenticateSeller(header, sellers, keys).Pass?
      && FindIndex(rows, id).Some?
      && rows[FindIndex(rows, id).value].createdBy == SellerAuthMiddleware.AuthenticateSeller(header, sellers, keys).principal.id
    ensures !out.0.Sent? ==> out.1 == rows
    ensures WellFormed(rows) ==> WellFormed(out.1)
  {
    var gate := SellerAuthMiddleware.AuthenticateSeller(header, sellers, keys);
    if gate.Deny? then (Denied(gate), rows)
    else match Receive(upload)
      case Failure(e) => (Raised(None, e), rows)
      case Success(file) => Update(kind, rows, id, body, file, gate.principal.id)
  }

  /** The delete handler: not found, then not the owner, then `deleteOne`. */
  function Delete(kind: Kind, rows: seq<Listing>, id: nat, seller: nat): (out: (Reply<string>, seq<Listing>))
    ensures FindIndex(rows, id).None? ==> out == (Refused(404, Message(NotFound(kind))), rows)
    ensures FindIndex(rows, id).Some? && rows[FindIndex(rows, id).value].createdBy != seller ==>
      out == (Refused(403, Message(NotAuthorized)), rows)
    ensures out.0.Sent? <==> FindIndex(rows, id).Some? && rows[FindIndex(rows, id).value].createdBy == seller
    ensures out.0.Sent? ==> out.0 == Sent(200, DeletedMessage(kind)) && out.1 == RemoveAt(rows, FindIndex(rows, id).value)
    ensures !out.0.Sent? ==> out.1 == rows
  {
    match FindIndex(rows, id)
    case None => (Refused(404, Message(NotFound(kind))), rows)
    case Some(i) =>
      if rows[i].createdBy != seller then (Refused(403, Message(NotAuthorized)), rows)
      else (Sent(200, DeletedMessage(kind)), RemoveAt(rows, i))
  }

  /**
   * An owner's delete removes exactly the record with that id and keeps
   * every other record and the table's invariant.
   */
  lemma DeleteRemovesExactlyOne(kind: Kind, rows: seq<Listing>, id: nat, seller: nat)
    requires WellFormed(rows) && Delete(kind, rows, id, seller).0.Sent?
    ensures forall x :: x in Delete(kind, rows, id, seller).1 <==> x in rows && x.id != id
    ensures WellFormed(Delete(kind, rows, id, seller).1)
  {
    var i := FindIndex(rows, id).value;
    RemoveOnlyThat(rows, IdOf, id);
    RemovePreservesIncreasing(rows, i, StampOf);
    var r := RemoveAt(rows, i);
    forall j | 0 <= j < |r| ensures Stored(r[j]) {
      assert r[j] in rows;
    }
  }

  /** DELETE /:id: protectSeller, then the delete handler. */
  function DeleteRoute(kind: Kind, header: Option<string>, sellers: seq<SellerModel.Seller>, keys: Keys,
                       rows: seq<Listing>, id: nat)
    : (out: (Reply<string>, seq<Listing>))
    ensures SellerAuthMiddleware.AuthenticateSeller(header, sellers, keys).Deny? ==>
      out == (Denied(SellerAuthMiddleware.AuthenticateSeller(header, sellers, keys)), rows)
    ensures SellerAuthMiddleware.AuthenticateSeller(header, sellers, keys).Pass? ==>
      out == Delete(kind, rows, id, SellerAuthMiddleware.AuthenticateSeller(header, sellers, keys).principal.id)
    ensures out.1 != rows ==>
      && SellerAuthMiddleware.AuthenticateSeller(header, sellers, keys).Pass?
      && FindIndex(rows, id).Some?
      && rows[FindIndex(rows, id).value].createdBy == SellerAuthMiddleware.AuthenticateSeller(header, sellers, keys).principal.id
      && out.1 == RemoveAt(rows, FindIndex(rows, id).value)
  {
    var gate := SellerAuthMiddleware.AuthenticateSeller(header, sellers, keys);
    if gate.Deny? then (Denied(gate), rows)
    else Delete(kind, rows, id, gate.principal.id)
  }

  /** GET /:id: the record with that id, or 404. */
  function GetOne(kind: Kind, rows: seq<Listing>, id: nat): (r: Reply<Listing>)
    ensures r.Sent? <==> exists i :: 0 <= i < |rows| && rows[i].id == id
    ensures r.Sent? ==> r.status == 200 && r.data in rows && r.data.id == id
    ensures !r.Sent? ==> r == Refused(404, Message(NotFound(kind)))
  {
    match FindIndex(rows, id)
    case None => Refused(404, Message(NotFound(kind)))
    case Some(i) => Sent(200, rows[i])
  }

  function HasTag(tag: string): Listing -> bool {
    (l: Listing) => l.typeTag == tag
  }

  function OwnedAndTagged(seller: nat, tag: string): Listing -> bool {
    (l: Listing) => l.createdBy == seller && l.typeTag == tag
  }

  function PageOf(rows: seq<Listing>): (p: Page)
    ensures p.data == rows && p.count == |rows|
  {
    Page(rows, |rows|)
  }

  /**
   * GET /: the product router asks for `type: "product"`, the course
   * router for every record; both newest first.
   */
  function ListAll(kind: Kind, rows: seq<Listing>): (r: Reply<Page>)
    ensures r.Sent? && r.status == 200 && r.data.count == |r.data.data|
    ensures kind == Course ==> r.data.data == Reverse(rows)
  {
    match kind
    case Product => Sent(200, PageOf(Reverse(Filter(rows, HasTag(TypeTag(Product))))))
    case Course => Sent(200, PageOf(Reverse(rows)))
  }

  /** GET /seller/:sellerId: that seller's records of the router's type, newest first. */
  function ListBySeller(kind: Kind, rows: seq<Listing>, seller: nat): (r: Reply<Page>)
    ensures r.Sent? && r.status == 200 && r.data.count == |r.data.data|
  {
    Sent(200, PageOf(Reverse(Filter(rows, OwnedAndTagged(seller, TypeTag(kind))))))
  }

  /**
   * The product listing holds exactly the records tagged "product"; the
   * course listing holds every record, whatever its tag.
   */
  lemma ListAllMembers(kind: Kind, rows: seq<Listing>, x: Listing)
    ensures x in ListAll(kind, rows).data.data <==> x in rows && (kind == Product ==> x.typeTag == "product")
  {
    match kind
    case Product =>
      ReverseMembers(Filter(rows, HasTag("product")), x);
      FilterMembers(rows, HasTag("product"), x);
    case Course =>
      ReverseMembers(rows, x);
  }

  /** A seller's listing holds exactly that seller's records of the router's type. */
  lemma ListBySellerMembers(kind: Kind, rows: seq<Listing>, seller: nat, x: Listing)
    ensures x in ListBySeller(kind, rows, seller).data.data <==>
      x in rows && x.createdBy == seller && x.typeTag == TypeTag(kind)
  {
    ReverseMembers(Filter(rows, OwnedAndTagged(seller, TypeTag(kind))), x);
    FilterMembers(rows, OwnedAndTagged(seller, TypeTag(kind)), x);
  }

  /** Both listings are sorted newest first. */
  lemma ListingsNewestFirst(kind: Kind, rows: seq<Listing>, seller: nat)
    requires WellFormed(rows)
    ensures var d := ListAll(kind, rows).data.data;
      forall i, j :: 0 <= i < j < |d| ==> d[i].createdAt > d[j].createdAt
    ensures var d := ListBySeller(kind, rows, seller).data.data;
      forall i, j :: 0 <= i < j < |d| ==> d[i].createdAt > d[j].createdAt
  {
    FilterPreservesIncreasing(rows, HasTag("product"), StampOf);
    ReverseIsNewestFirst(Filter(rows, HasTag("product")), StampOf);
    ReverseIsNewestFirst(rows, StampOf);
    FilterPreservesIncreasing(rows, OwnedAndTagged(seller, TypeTag(kind)), StampOf);
    ReverseIsNewestFirst(Filter(rows, OwnedAndTagged(seller, TypeTag(kind))), StampOf);
  }

  /** A record appended with the router's tag is put in front of the listing of all records. */
  lemma ListAllAfterAppend(kind: Kind, rows: seq<Listing>, l: Listing)
    requires l.typeTag == TypeTag(kind)
    ensures ListAll(kind, rows + [l]).data.data == [l] + ListAll(kind, rows).data.data
  {
    match kind
    case Product =>
      FilterAppend(rows, l, HasTag("product"));
      ReverseAppend(Filter(rows, HasTag("product")), l);
    case Course =>
      ReverseAppend(rows, l);
  }

  /** A record appended with the router's tag is put in front of its seller's listing. */
  lemma ListBySellerAfterAppend(kind: Kind, rows: seq<Listing>, l: Listing)
    requires l.typeTag == TypeTag(kind)
    ensures ListBySeller(kind, rows + [l], l.createdBy).data.data == [l] + ListBySeller(kind, rows, l.createdBy).data.data
  {
    FilterAppend(rows, l, OwnedAndTagged(l.createdBy, TypeTag(kind)));
    ReverseAppend(Filter(rows, OwnedAndTagged(l.createdBy, TypeTag(kind))), l);
  }

  /** A record appended with an id no other record has is what its id finds. */
  lemma GetOneAfterAppend(kind: Kind, rows: seq<Listing>, l: Listing)
    requires Below(rows, l.id)
    ensures GetOne(kind, rows + [l], l.id) == Sent(200, l)
  {
    var after := rows + [l];
    assert after[|rows|] == l;
    assert forall i :: 0 <= i < |rows| ==> after[i] == rows[i];
    assert FindIndex(after, l.id).value == |rows|;
  }

  /**
   * What a create just stored comes first in the router's listing of all
   * records and in its seller's listing, ahead of everything listed
   * before, and its id finds it.
   */
  lemma CreatedComesFirst(kind: Kind, rows: seq<Listing>, clock: nat, body: Body, file: Option<File>, seller: nat)
    requires Below(rows, clock)
    requires Create(kind, rows, clock, body, file, seller).0.Sent?
    ensures var (reply, after) := Create(kind, rows, clock, body, file, seller);
      && ListAll(kind, after).data.data == [reply.data] + ListAll(kind, rows).data.data
      && ListBySeller(kind, after, seller).data.data == [reply.data] + ListBySeller(kind, rows, seller).data.data
      && GetOne(kind, after, clock) == Sent(200, reply.data)
  {
    var (reply, after) := Create(kind, rows, clock, body, file, seller);
    ListAllAfterAppend(kind, rows, reply.data);
    ListBySellerAfterAppend(kind, rows, reply.data);
    GetOneAfterAppend(kind, rows, reply.data);
  }

  /**
   * The create route on a request and a collection: protectSeller, the
   * upload, then `create` on the collection.
   */
  method CreateListing(kind: Kind, req: Request, sellers: seq<SellerModel.Seller>, keys: Keys,
                       upload: Option<File>, listings: ListingCollection, body: Body)
    returns (reply: Reply<Listing>)
    requires listings.Valid()
    modifies req, listings
    ensures listings.Valid()
    ensures (reply, listings.rows) ==
      CreateRoute(kind, req.authorization, sellers, keys, upload, old(listings.rows), old(listings.clock), body)
  {
    var events := SellerAuthMiddleware.ProtectSeller(req, sellers, keys);
    if events[0].Respond? {
      return Refused(events[0].status, Message(events[0].message));
    }
    var received := Receive(upload);
    if received.Failure? {
      return Raised(None, received.error);
    }
    var file := received.value;
    if file.None? {
      return Refused(400, Message(ImageRequired(kind)));
    }
    var f := CreateFields(kind, body, file.value);
    var v := Violations(kind, f);
    if v != [] {
      return Refused(400, Invalid(v));
    }
    var l := listings.Create(kind, f, req.seller.value.id, TypeTag(kind));
    reply := Sent(201, l);
  }

  /** The update route on a request and a collection. */
  method UpdateListing(kind: Kind, req: Request, sellers: seq<SellerModel.Seller>, keys: Keys,
                       upload: Option<File>, listings: ListingCollection, id: nat, body: Body)
    returns (reply: Reply<Listing>)
    requires listings.Valid()
    modifies req, listings
    ensures listings.Valid() && listings.clock == old(listings.clock)
    ensures (reply, listings.rows) ==
      UpdateRoute(kind, req.authorization, sellers, keys, upload, old(listings.rows), id, body)
  {
    var events := SellerAuthMiddleware.ProtectSeller(req, sellers, keys);
    if events[0].Respond? {
      return Refused(events[0].status, Message(events[0].message));
    }
    var received := Receive(upload);
    if received.Failure? {
      return Raised(None, received.error);
    }
    var found := FindIndex(listings.rows, id);
    if found.None? {
      return Refused(404, Message(NotFound(kind)));
    }
    var i := found.value;
    if listings.rows[i].createdBy != req.seller.value.id {
      return Refused(403, Message(NotAuthorized));
    }
    var f := Merged(kind, listings.rows[i], body, received.value);
    var v := Violations(kind, f);
    if v != [] {
      return Refused(400, Invalid(v));
    }
    var u := listings.UpdateAt(i, f);
    reply := Sent(200, u);
  }

  /** The delete route on a request and a collection. */
  method DeleteListing(kind: Kind, req: Request, sellers: seq<SellerModel.Seller>, keys: Keys,
                       listings: ListingCollection, id: nat)
    returns (reply: Reply<string>)
    requires listings.Valid()
    modifies req, listings
    ensures listings.Valid() && listings.clock == old(listings.clock)
    ensures (reply, listings.rows) == DeleteRoute(kind, req.authorization, sellers, keys, old(listings.rows), id)
  {
    var events := SellerAuthMiddleware.ProtectSeller(req, sellers, keys);
    if events[0].Respond? {
      return Refused(events[0].status, Message(events[0].message));
    }
    var found := FindIndex(listings.rows, id);
    if found.None? {
      return Refused(404, Message(NotFound(kind)));
    }
    var i := found.value;
    if listings.rows[i].createdBy != req.seller.value.id {
      return Refused(403, Message(NotAuthorized));
    }
    listings.DeleteAt(i);
    reply := Sent(200, DeletedMessage(kind));
  }
}
