/**
 * protectSeller: the bearer-token gate for sellers, with an active-account
 * check and a trailing "no token" check after the header branch.
 */
module SellerAuthMiddleware {
  import opened Wrappers
  import opened Text
  import opened Crypto
  import opened Http
  import opened SellerModel
  import opened Tables
  import opened Requests
  import AuthMiddleware

  const SellerNotFound := "Seller not found"
  const Deactivated := "Your account has been deactivated"

  /** The decision protectSeller takes for one request. */
  function AuthenticateSeller(header: Option<string>, rows: seq<Seller>, keys: Keys): (g: Gate<PublicSeller>)
    ensures !AuthMiddleware.HasBearer(header) ==> g == Deny(401, AuthMiddleware.NoToken)
    ensures AuthMiddleware.HasBearer(header) && AuthMiddleware.Decoded(header.value, keys).None? ==> g == Deny(401, AuthMiddleware.TokenFailed)
    ensures g.Pass? <==>
      && AuthMiddleware.HasBearer(header) && AuthMiddleware.Decoded(header.value, keys).Some?
      && FindById(rows, AuthMiddleware.Decoded(header.value, keys).value.id).Some?
      && FindById(rows, AuthMiddleware.Decoded(header.value, keys).value.id).value.isActive
    ensures g.Pass? ==> g.principal.isActive
    ensures g.Pass? ==>
      exists s :: s in rows && s.id == AuthMiddleware.Decoded(header.value, keys).value.id && g.principal == WithoutPassword(s)
    ensures g.Deny? ==> g.status in {401, 403}
    ensures g.Deny? && g.status == 403 ==> g.message == Deactivated
  {
    if !AuthMiddleware.HasBearer(header) then Deny(401, AuthMiddleware.NoToken)
    else match AuthMiddleware.Decoded(header.value, keys)
      case None => Deny(401, AuthMiddleware.TokenFailed)
      case Some(claims) =>
        match FindById(rows, claims.id)
        case None => Deny(401, SellerNotFound)
        case Some(s) => if s.isActive then Pass(WithoutPassword(s)) else Deny(403, Deactivated)
  }

  /**
   * A deactivated seller is refused with 403 even with a token that was
   * issued to them and still verifies.
   */
  lemma DeactivatedSellerRefused(rows: seq<Seller>, keys: Keys, s: Seller)
    requires Sound(keys) && WellFormed(rows) && s in rows && !s.isActive
    ensures AuthenticateSeller(Some("Bearer " + keys.issue(Claims(s.id, None))), rows, keys) == Deny(403, Deactivated)
  {
    AuthMiddleware.BearerRoundTrip(keys, Claims(s.id, None));
    KeyFindsOwnRecord(rows, IdOf, s);
  }

  /** An active seller with an issued token gets through, without the password. */
  lemma ActiveSellerPasses(rows: seq<Seller>, keys: Keys, s: Seller)
    requires Sound(keys) && WellFormed(rows) && s in rows && s.isActive
    ensures AuthenticateSeller(Some("Bearer " + keys.issue(Claims(s.id, None))), rows, keys) == Pass(WithoutPassword(s))
  {
    AuthMiddleware.BearerRoundTrip(keys, Claims(s.id, None));
    KeyFindsOwnRecord(rows, IdOf, s);
  }

  /**
   * protectSeller on a request. The token variable is set inside the
   * header branch and tested once more after it; because a token that
   * verified is non-empty, that trailing test fires only when the branch
   * was skipped, and exactly one event happens per request.
   */
  method ProtectSeller(req: Request, rows: seq<Seller>, keys: Keys) returns (events: seq<Event>)
    modifies req
    ensures events == [EventOf(AuthenticateSeller(req.authorization, rows, keys))]
    ensures AuthenticateSeller(req.authorization, rows, keys).Pass? ==>
      req.seller == Some(AuthenticateSeller(req.authorization, rows, keys).principal)
    ensures AuthMiddleware.HasBearer(req.authorization) && AuthMiddleware.Decoded(req.authorization.value, keys).Some? ==>
      req.seller == (match FindById(rows, AuthMiddleware.Decoded(req.authorization.value, keys).value.id)
                     case None => None
                     case Some(s) => Some(WithoutPassword(s)))
    ensures !(AuthMiddleware.HasBearer(req.authorization) && AuthMiddleware.Decoded(req.authorization.value, keys).Some?) ==>
      req.seller == old(req.seller)
    ensures req.user == old(req.user)
  {
    var token: Option<string> := None;
    events := [];
    var header := req.authorization;
    if header.Some? && header.value != "" && StartsWith(header.value, "Bearer") {
      token := SecondPiece(header.value, ' ');
      var decoded := Verify(keys, token);
      if decoded.None? {
        return [Respond(401, AuthMiddleware.TokenFailed)];
      }
      var found := FindById(rows, decoded.value.id);
      req.seller := if found.Some? then Some(WithoutPassword(found.value)) else None;
      if req.seller.None? {
        return [Respond(401, SellerNotFound)];
      }
      if !req.seller.value.isActive {
        return [Respond(403, Deactivated)];
      }
      events := events + [Next];
    }
    if token.None? || token.value == "" {
      events := events + [Respond(401, AuthMiddleware.NoToken)];
    }
  }
}
