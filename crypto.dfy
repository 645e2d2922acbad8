/**
 * The password hasher and the token signer, as abstract collaborators.
 * A deployment is described by three functions: the one-way hash, the
 * token issuer and the token verifier.
 */
module Crypto {
  import opened Wrappers

  /** What a token carries: the principal id and, for users, a role claim. */
  datatype Claims = Claims(id: nat, role: Option<string>)

  datatype Keys = Keys(
    hash: string -> string,
    issue: Claims -> string,
    verify: string -> Option<Claims>)

  /**
   * The assumptions the model makes of the collaborators: a freshly issued
   * token verifies to exactly the claims it was issued for, and it is a
   * non-empty string without spaces (a signed token in compact form).
   */
  ghost predicate Sound(keys: Keys) {
    forall c: Claims ::
      keys.verify(keys.issue(c)) == Some(c) && keys.issue(c) != "" && ' ' !in keys.issue(c)
  }

  /** A password matches a stored hash exactly when the hash is its hash. */
  predicate Match(keys: Keys, password: string, stored: string) {
    stored == keys.hash(password)
  }

  /**
   * Token verification as the gates call it: a missing or empty token is
   * refused before any signature is checked ("jwt must be provided").
   */
  function Verify(keys: Keys, token: Option<string>): (r: Option<Claims>)
    ensures token.None? || token == Some("") ==> r.None?
  {
    if token.None? || token.value == "" then None else keys.verify(token.value)
  }

  /** Every token the issuer produces verifies to its own claims. */
  lemma IssuedVerifies(keys: Keys, c: Claims)
    requires Sound(keys)
    ensures Verify(keys, Some(keys.issue(c))) == Some(c)
  {
  }
}
