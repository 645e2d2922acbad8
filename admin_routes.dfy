/**
 * The admin router. Every route runs authMiddleware and then the router's
 * own isAdmin, which looks the attached user up once more and checks the
 * stored role. Only the user routes read the User collection; the course
 * and product routes answer with fixed bodies.
 */
module AdminRoutes {
  import opened Wrappers
  import opened Crypto
  import opened Http
  import opened Tables
  import opened UserModel
  import opened Requests
  import AuthMiddleware

  const ServerError := "Server error"
  const CannotDeleteSelf := "Cannot delete your own account"
  const UserDeleted := "User deleted successfully"
  const CourseDeleted := "Course deleted successfully"
  const ProductDeleted := "Product deleted successfully"

  /** How many users the dashboard shows as recent. */
  const RecentCount: nat := 5
  const DefaultPage := 1
  const DefaultLimit := 10

  datatype Pagination = Pagination(total: nat, page: int, pages: int)

  /** One page of a listing and where it sits among all pages. */
  datatype ItemsPage<T> = ItemsPage(items: seq<T>, pagination: Pagination)

  datatype Stats = Stats(totalUsers: nat, totalCourses: nat, totalProducts: nat, recentUsers: seq<PublicUser>)

  /**
   * The router's own isAdmin, on the user authMiddleware attached: the
   * user is looked up again by id and its stored role must be "admin".
   */
  function CheckAdmin(rows: seq<User>, user: PublicUser): (g: Gate<PublicUser>)
    ensures g.Pass? <==> exists u :: u in rows && u.id == user.id && u.role == Some("admin") && FindById(rows, user.id) == Some(u)
    ensures FindById(rows, user.id).None? ==> g == Deny(404, AuthMiddleware.UserNotFound)
    ensures FindById(rows, user.id).Some? && FindById(rows, user.id).value.role != Some("admin") ==>
      g == Deny(403, AuthMiddleware.AdminOnly)
    ensures g.Pass? ==> g.principal == user
  {
    match FindById(rows, user.id)
    case None => Deny(404, AuthMiddleware.UserNotFound)
    case Some(u) => if u.role != Some("admin") then Deny(403, AuthMiddleware.AdminOnly) else Pass(user)
  }

  /** authMiddleware, then the router's isAdmin. */
  function AdminGate(header: Option<string>, rows: seq<User>, keys: Keys): Gate<PublicUser> {
    match AuthMiddleware.Authenticate(header, rows, keys)
    case Deny(status, message) => Deny(status, message)
    case Pass(user) => CheckAdmin(rows, user)
  }

  /**
   * On the table authMiddleware just read, the router's re-lookup always
   * finds the user again: its "User not found" 404 never happens, and the
   * router's gate decides exactly as authMiddleware followed by the
   * middleware file's own isAdmin.
   */
  lemma AdminGateMatchesMiddleware(header: Option<string>, rows: seq<User>, keys: Keys)
    ensures AdminGate(header, rows, keys) == AuthMiddleware.AuthenticateAdmin(header, rows, keys)
    ensures AdminGate(header, rows, keys) != Deny(404, AuthMiddleware.UserNotFound)
  {
    match AuthMiddleware.Authenticate(header, rows, keys)
    case Deny(_, _) =>
    case Pass(user) =>
      var u := FindById(rows, AuthMiddleware.Decoded(header.value, keys).value.id).value;
      assert user == WithoutPassword(u);
      assert FindById(rows, user.id) == Some(u);
  }

  /** `parseInt(q) || fallback`: a query that is not a number, or is 0, falls back. */
  function ParseOr(q: Option<int>, fallback: int): (n: int)
    ensures q.Some? && q.value != 0 ==> n == q.value
    ensures (q.None? || q.value == 0) ==> n == fallback
  {
    if q.None? || q.value == 0 then fallback else q.value
  }

  /** `(page - 1) * limit` for the parsed page and limit. */
  function Skip(page: Option<int>, limit: Option<int>): int {
    (ParseOr(page, DefaultPage) - 1) * ParseOr(limit, DefaultLimit)
  }

  function Abs(n: int): nat { if n < 0 then -n else n }

  /**
   * `Math.ceil(total / limit)`: the fewest pages of `limit` users that hold
   * `total` users; for a negative limit, the ceiling of a negative quotient.
   */
  function Pages(total: nat, limit: int): (p: int)
    requires limit != 0
    ensures limit > 0 ==> (p - 1) * limit < total <= p * limit
    ensures limit < 0 ==> p * limit <= total < (p - 1) * limit
  {
    if limit > 0 then CeilDiv(total, limit)
    else
      var q: int := FloorDiv(total, -limit);
      NegateBoth(q, -limit);
      -q
  }

  lemma NegateBoth(q: int, m: int)
    ensures (-q) * (-m) == q * m && (-q - 1) * (-m) == (q + 1) * m
  {
  }

  function CeilDiv(total: nat, limit: nat): (p: nat)
    requires limit > 0
    ensures (p - 1) * limit < total <= p * limit
  {
    if total == 0 then 0 else FloorDiv(total - 1, limit) + 1
  }

  function FloorDiv(total: nat, limit: nat): (p: nat)
    requires limit > 0
    ensures p * limit <= total < (p + 1) * limit
  {
    if total < limit then 0 else FloorDiv(total - limit, limit) + 1
  }

  /**
   * GET /users after the gate: one page of the users, newest first,
   * passwords removed. A negative skip is refused by the database and
   * reported as a server error; a negative limit returns one batch of
   * its absolute value.
   */
  function ListUsers(rows: seq<User>, page: Option<int>, limit: Option<int>): (r: Reply<ItemsPage<PublicUser>>)
    ensures Skip(page, limit) < 0 <==> r == Refused(500, Message(ServerError))
    ensures r.Sent? ==>
      && r.status == 200
      && r.data.pagination == Pagination(|rows|, ParseOr(page, DefaultPage), Pages(|rows|, ParseOr(limit, DefaultLimit)))
      && |r.data.items| <= Abs(ParseOr(limit, DefaultLimit))
      && forall i :: 0 <= i < |r.data.items| ==>
           Skip(page, limit) + i < |rows| && r.data.items[i] == WithoutPassword(rows[|rows| - 1 - (Skip(page, limit) + i)])
    ensures r.Sent? || r.Refused?
  {
    var p := ParseOr(page, DefaultPage);
    var l := ParseOr(limit, DefaultLimit);
    var skip := Skip(page, limit);
    if skip < 0 then Refused(500, Message(ServerError))
    else Sent(200, ItemsPage(AllWithoutPassword(Window(NewestFirst(rows), skip, Abs(l))), Pagination(|rows|, p, Pages(|rows|, l))))
  }

  /** With a positive limit, position `k` lies on page `k / limit + 1`, one of the announced pages. */
  lemma PageOfPosition(total: nat, limit: nat, k: nat)
    requires limit > 0 && k < total
    ensures var p := k / limit + 1;
      && (p - 1) * limit <= k < (p - 1) * limit + limit
      && 1 <= p <= Pages(total, limit)
  {
    var q := k / limit;
    assert k == q * limit + k % limit;
    var pages := Pages(total, limit);
    if q >= pages {
      MultiplyMonotone(pages, q, limit);
      assert false;
    }
  }

  /**
   * With a positive limit, every user shows up on the page its position in
   * the newest-first order puts it on, and that page is one of the
   * `pages` the response announces.
   */
  lemma EveryUserIsOnAPage(rows: seq<User>, limit: nat, k: nat)
    requires limit > 0 && k < |rows|
    ensures var p := k / limit + 1;
      && 1 <= p <= Pages(|rows|, limit)
      && ListUsers(rows, Some(p), Some(limit)).Sent?
      && WithoutPassword(NewestFirst(rows)[k]) in ListUsers(rows, Some(p), Some(limit)).data.items
  {
    var p := k / limit + 1;
    PageOfPosition(|rows|, limit, k);
    var skip := Skip(Some(p), Some(limit));
    assert skip == (p - 1) * limit;
    var r := ListUsers(rows, Some(p), Some(limit));
    assert r.Sent?;
    var items := r.data.items;
    assert |items| > k - skip;
    assert items[k - skip] == WithoutPassword(rows[|rows| - 1 - k]);
    assert NewestFirst(rows)[k] == rows[|rows| - 1 - k];
  }

  lemma MultiplyMonotone(a: int, b: int, c: nat)
    requires a <= b
    ensures a * c <= b * c
  {
  }

  /** The dashboard: the number of users, the two fixed counts and the newest users. */
  function Dashboard(rows: seq<User>): (r: Reply<Stats>)
    ensures r.Sent? && r.status == 200
    ensures r.data.totalUsers == |rows| && r.data.totalCourses == 0 && r.data.totalProducts == 0
    ensures |r.data.recentUsers| == if |rows| < RecentCount then |rows| else RecentCount
    ensures forall i :: 0 <= i < |r.data.recentUsers| ==> r.data.recentUsers[i] == WithoutPassword(rows[|rows| - 1 - i])
  {
    Sent(200, Stats(|rows|, 0, 0, AllWithoutPassword(Window(NewestFirst(rows), 0, RecentCount))))
  }

  /** The recent users are newer than every user left out of the list. */
  lemma RecentUsersAreTheNewest(rows: seq<User>)
    requires WellFormed(rows)
    ensures var recent := Dashboard(rows).data.recentUsers;
      forall i, j :: 0 <= i < |recent| && 0 <= j < |rows| - |recent| ==> recent[i].createdAt > rows[j].createdAt
  {
  }

  /** DELETE /users/:id after the gate, for the admin `requester`. */
  function DeleteUser(rows: seq<User>, id: nat, requester: nat): (out: (Reply<string>, seq<User>))
    ensures FindById(rows, id).None? ==> out == (Refused(404, Message(AuthMiddleware.UserNotFound)), rows)
    ensures FindById(rows, id).Some? && id == requester ==> out == (Refused(400, Message(CannotDeleteSelf)), rows)
    ensures out.0.Sent? <==> FindById(rows, id).Some? && id != requester
    ensures out.0.Sent? ==> out.0 == Sent(200, UserDeleted) && out.1 == RemoveAt(rows, IndexOf(rows, IdOf, id).value)
    ensures !out.0.Sent? ==> out.1 == rows
  {
    match FindById(rows, id)
    case None => (Refused(404, Message(AuthMiddleware.UserNotFound)), rows)
    case Some(u) =>
      if u.id == requester then (Refused(400, Message(CannotDeleteSelf)), rows)
      else (Sent(200, UserDeleted), RemoveAt(rows, IndexOf(rows, IdOf, id).value))
  }

  /** DELETE /users/:id: the gate, then the handler. */
  function DeleteUserRoute(header: Option<string>, rows: seq<User>, keys: Keys, id: nat): (out: (Reply<string>, seq<User>))
    ensures AdminGate(header, rows, keys).Deny? ==> out == (Denied(AdminGate(header, rows, keys)), rows)
    ensures AdminGate(header, rows, keys).Pass? ==> out == DeleteUser(rows, id, AdminGate(header, rows, keys).principal.id)
  {
    var gate := AdminGate(header, rows, keys);
    if gate.Deny? then (Denied(gate), rows)
    else DeleteUser(rows, id, gate.principal.id)
  }

  /**
   * Only an admin changes the table, never by removing their own record,
   * and removing exactly the user with the requested id.
   */
  lemma DeleteOnlyByAdminAndNeverSelf(header: Option<string>, rows: seq<User>, keys: Keys, id: nat)
    requires WellFormed(rows)
    ensures var out := DeleteUserRoute(header, rows, keys, id);
      out.1 != rows ==>
        && AdminGate(header, rows, keys).Pass?
        && AdminGate(header, rows, keys).principal.role == Some("admin")
        && AdminGate(header, rows, keys).principal.id != id
        && (forall u :: u in out.1 <==> u in rows && u.id != id)
        && WellFormed(out.1)
  {
    var out := DeleteUserRoute(header, rows, keys, id);
    if out.1 != rows {
      AdminGateMatchesMiddleware(header, rows, keys);
      RemoveOnlyThat(rows, IdOf, id);
      RemovePreservesIncreasing(rows, IndexOf(rows, IdOf, id).value, StampOf);
    }
  }

  /**
   * GET /courses and GET /products: the gate, then always an empty page
   * with total 0 and 0 pages, whatever the listing collections hold.
   */
  function EmptyListing<T>(header: Option<string>, rows: seq<User>, keys: Keys, page: Option<int>, limit: Option<int>)
    : (r: Reply<ItemsPage<T>>)
    ensures AdminGate(header, rows, keys).Deny? ==> r == Denied(AdminGate(header, rows, keys))
    ensures AdminGate(header, rows, keys).Pass? ==>
      r == Sent(200, ItemsPage([], Pagination(0, ParseOr(page, DefaultPage), 0)))
  {
    var gate := AdminGate(header, rows, keys);
    if gate.Deny? then Denied(gate) else Sent(200, ItemsPage([], Pagination(0, ParseOr(page, DefaultPage), 0)))
  }

  /**
   * DELETE /courses/:id and DELETE /products/:id: the gate, then the
   * success message; no collection is read or changed.
   */
  function AcknowledgeDelete(header: Option<string>, rows: seq<User>, keys: Keys, message: string): (r: Reply<string>)
    ensures AdminGate(header, rows, keys).Deny? ==> r == Denied(AdminGate(header, rows, keys))
    ensures AdminGate(header, rows, keys).Pass? ==> r == Sent(200, message)
  {
    var gate := AdminGate(header, rows, keys);
    if gate.Deny? then Denied(gate) else Sent(200, message)
  }

  /** GET /stats: the gate, then the dashboard. */
  function StatsRoute(header: Option<string>, rows: seq<User>, keys: Keys): (r: Reply<Stats>)
    ensures AdminGate(header, rows, keys).Deny? ==> r == Denied(AdminGate(header, rows, keys))
    ensures AdminGate(header, rows, keys).Pass? ==> r == Dashboard(rows)
  {
    var gate := AdminGate(header, rows, keys);
    if gate.Deny? then Denied(gate) else Dashboard(rows)
  }

  /** GET /users: the gate, then one page of users. */
  function UsersRoute(header: Option<string>, rows: seq<User>, keys: Keys, page: Option<int>, limit: Option<int>)
    : (r: Reply<ItemsPage<PublicUser>>)
    ensures AdminGate(header, rows, keys).Deny? ==> r == Denied(AdminGate(header, rows, keys))
    ensures AdminGate(header, rows, keys).Pass? ==> r == ListUsers(rows, page, limit)
  {
    var gate := AdminGate(header, rows, keys);
    if gate.Deny? then Denied(gate) else ListUsers(rows, page, limit)
  }

  /**
   * A request whose token belongs to a stored user without the "admin"
   * role gets 403 from every route that reads or changes the User
   * collection, and the collection is left as it was.
   */
  lemma NonAdminRefused(rows: seq<User>, keys: Keys, u: User, claim: Option<string>,
                        page: Option<int>, limit: Option<int>, id: nat)
    requires Sound(keys) && WellFormed(rows) && u in rows && u.role != Some("admin")
    ensures var header := Some("Bearer " + keys.issue(Claims(u.id, claim)));
      && StatsRoute(header, rows, keys) == Refused(403, Message(AuthMiddleware.AdminOnly))
      && UsersRoute(header, rows, keys, page, limit) == Refused(403, Message(AuthMiddleware.AdminOnly))
      && DeleteUserRoute(header, rows, keys, id) == (Refused(403, Message(AuthMiddleware.AdminOnly)), rows)
  {
    var header := Some("Bearer " + keys.issue(Claims(u.id, claim)));
    AuthMiddleware.IssuedTokenAuthenticates(rows, keys, u, claim);
    AdminGateMatchesMiddleware(header, rows, keys);
  }

  /** Without page and limit, the list is the ten newest users on page 1. */
  lemma DefaultPageIsTheTenNewest(rows: seq<User>)
    ensures ListUsers(rows, None, None).Sent?
    ensures ListUsers(rows, None, None).data.items == AllWithoutPassword(Window(NewestFirst(rows), 0, 10))
    ensures ListUsers(rows, None, None).data.pagination.page == 1
  {
  }

  /**
   * DELETE /users/:id on a request and the User collection: authMiddleware,
   * the router's isAdmin, then `findByIdAndDelete`.
   */
  method DeleteUserHandler(req: Request, users: UserCollection, keys: Keys, id: nat) returns (reply: Reply<string>)
    requires users.Valid()
    modifies req, users
    ensures users.Valid() && users.clock == old(users.clock)
    ensures (reply, users.rows) == DeleteUserRoute(req.authorization, old(users.rows), keys, id)
  {
    var events := AuthMiddleware.Protect(req, users.rows, keys);
    if events[0].Respond? {
      return Refused(events[0].status, Message(events[0].message));
    }
    var admin := CheckAdmin(users.rows, req.user.value);
    if admin.Deny? {
      return Denied(admin);
    }
    var user := FindById(users.rows, id);
    if user.None? {
      return Refused(404, Message(AuthMiddleware.UserNotFound));
    }
    if user.value.id == req.user.value.id {
      return Refused(400, Message(CannotDeleteSelf));
    }
    users.FindByIdAndDelete(id);
    reply := Sent(200, UserDeleted);
  }
}
