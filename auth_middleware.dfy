/**
 * The bearer-token gate for users (authMiddleware) and the role gate that
 * may follow it (isAdmin).
 */
module AuthMiddleware {
  import opened Wrappers
  import opened Text
  import opened Crypto
  import opened Http
  import opened Tables
  import opened UserModel
  import opened Requests

  const NoToken := "Not authorized, no token"
  const TokenFailed := "Not authorized, token failed"
  const UserNotFound := "User not found"
  const NotAuthorized := "Not authorized"
  const AdminOnly := "Access denied. Admin only."

  /** The header is set, non-empty and starts with "Bearer" (no space required). */
  predicate HasBearer(header: Option<string>) {
    Present(header) && StartsWith(header.value, "Bearer")
  }

  /** The claims of the second space-separated piece of the header, if it verifies. */
  function Decoded(header: string, keys: Keys): Option<Claims> {
    Verify(keys, SecondPiece(header, ' '))
  }

  /** The decision authMiddleware takes for one request. */
  function Authenticate(header: Option<string>, rows: seq<User>, keys: Keys): (g: Gate<PublicUser>)
    ensures !HasBearer(header) ==> g == Deny(401, NoToken)
    ensures HasBearer(header) && Decoded(header.value, keys).None? ==> g == Deny(401, TokenFailed)
    ensures g.Pass? <==>
      HasBearer(header) && Decoded(header.value, keys).Some?
      && exists i :: 0 <= i < |rows| && rows[i].id == Decoded(header.value, keys).value.id
    ensures g.Pass? ==>
      exists u :: u in rows && u.id == Decoded(header.value, keys).value.id && g.principal == WithoutPassword(u)
    ensures g.Deny? ==> g.status == 401
  {
    if !HasBearer(header) then Deny(401, NoToken)
    else match Decoded(header.value, keys)
      case None => Deny(401, TokenFailed)
      case Some(claims) =>
        match FindById(rows, claims.id)
        case None => Deny(401, UserNotFound)
        case Some(u) => Pass(WithoutPassword(u))
  }

  /** "Bearer " + an issued token passes the prefix check and decodes to the token's claims. */
  lemma BearerRoundTrip(keys: Keys, c: Claims)
    requires Sound(keys)
    ensures HasBearer(Some("Bearer " + keys.issue(c)))
    ensures Decoded("Bearer " + keys.issue(c), keys) == Some(c)
  {
    var token := keys.issue(c);
    var header := "Bearer " + token;
    assert header == "Bearer" + " " + token;
    assert header[..6] == "Bearer";
    SecondPieceOfJoin("Bearer", token);
  }

  /**
   * A token issued to a registered user, sent as "Bearer <token>", lets the
   * request through with that user, password removed, whatever role claim
   * the token carries.
   */
  lemma IssuedTokenAuthenticates(rows: seq<User>, keys: Keys, u: User, role: Option<string>)
    requires Sound(keys) && WellFormed(rows) && u in rows
    ensures Authenticate(Some("Bearer " + keys.issue(Claims(u.id, role))), rows, keys) == Pass(WithoutPassword(u))
  {
    BearerRoundTrip(keys, Claims(u.id, role));
    KeyFindsOwnRecord(rows, IdOf, u);
  }

  /** isAdmin: a principal must be attached and its role must be "admin". */
  function IsAdmin(user: Option<PublicUser>): (g: Gate<PublicUser>)
    ensures g.Pass? <==> user.Some? && user.value.role == Some("admin")
    ensures g.Pass? ==> g.principal == user.value
    ensures user.None? ==> g == Deny(401, NotAuthorized)
    ensures user.Some? && user.value.role != Some("admin") ==> g == Deny(403, AdminOnly)
  {
    if user.None? then Deny(401, NotAuthorized)
    else if user.value.role != Some("admin") then Deny(403, AdminOnly)
    else Pass(user.value)
  }

  /** authMiddleware followed by isAdmin, on the principal the first attached. */
  function AuthenticateAdmin(header: Option<string>, rows: seq<User>, keys: Keys): (g: Gate<PublicUser>)
    ensures g.Pass? <==>
      Authenticate(header, rows, keys).Pass? && Authenticate(header, rows, keys).principal.role == Some("admin")
    ensures Authenticate(header, rows, keys).Deny? ==> g == Authenticate(header, rows, keys)
    ensures g.Pass? ==> g == Authenticate(header, rows, keys)
  {
    match Authenticate(header, rows, keys)
    case Deny(status, message) => Deny(status, message)
    case Pass(user) => IsAdmin(Some(user))
  }

  /**
   * The admin gate trusts the stored role, not the token's role claim: two
   * tokens for the same user with different claims get the same outcome,
   * and a user whose record says "admin" passes with any claim.
   */
  lemma AdminGateIgnoresRoleClaim(rows: seq<User>, keys: Keys, u: User, claim1: Option<string>, claim2: Option<string>)
    requires Sound(keys) && WellFormed(rows) && u in rows
    ensures AuthenticateAdmin(Some("Bearer " + keys.issue(Claims(u.id, claim1))), rows, keys)
         == AuthenticateAdmin(Some("Bearer " + keys.issue(Claims(u.id, claim2))), rows, keys)
    ensures AuthenticateAdmin(Some("Bearer " + keys.issue(Claims(u.id, claim1))), rows, keys).Pass? <==> u.role == Some("admin")
  {
    IssuedTokenAuthenticates(rows, keys, u, claim1);
    IssuedTokenAuthenticates(rows, keys, u, claim2);
  }

  /**
   * authMiddleware on a request: sets `req.user` once the token verified
   * (to the looked-up user, or to nothing), then either calls the next
   * handler or sends one response.
   */
  method Protect(req: Request, rows: seq<User>, keys: Keys) returns (events: seq<Event>)
    modifies req
    ensures events == [EventOf(Authenticate(req.authorization, rows, keys))]
    ensures Authenticate(req.authorization, rows, keys).Pass? ==>
      req.user == Some(Authenticate(req.authorization, rows, keys).principal)
    ensures Authenticate(req.authorization, rows, keys) == Deny(401, UserNotFound) ==> req.user.None?
    ensures Authenticate(req.authorization, rows, keys) in {Deny(401, NoToken), Deny(401, TokenFailed)} ==>
      req.user == old(req.user)
    ensures req.seller == old(req.seller)
  {
    var header := req.authorization;
    if header.Some? && header.value != "" && StartsWith(header.value, "Bearer") {
      var token := SecondPiece(header.value, ' ');
      var decoded := Verify(keys, token);
      if decoded.None? {
        return [Respond(401, TokenFailed)];
      }
      var found := FindById(rows, decoded.value.id);
      req.user := if found.Some? then Some(WithoutPassword(found.value)) else None;
      if req.user.None? {
        return [Respond(401, UserNotFound)];
      }
      return [Next];
    } else {
      return [Respond(401, NoToken)];
    }
  }
}
