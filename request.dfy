/**
 * The request object the middlewares decorate: the Authorization header
 * as received, and the principal a gate attaches to it.
 */
module Requests {
  import opened Wrappers
  import UserModel
  import SellerModel

  class Request {
    const authorization: Option<string>
    var user: Option<UserModel.PublicUser>
    var seller: Option<SellerModel.PublicSeller>

    constructor (authorization: Option<string>)
      ensures this.authorization == authorization && user.None? && seller.None?
    {
      this.authorization := authorization;
      user := None;
      seller := None;
    }
  }
}
