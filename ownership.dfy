/** `ProductOwnershipValidator`: who may change a product (its seller or an admin) and who
    may view it (anyone when it is active, otherwise its seller or an admin). The current
    user's id, which the validator takes from the authentication, is a parameter. */
module Ownership {
  import opened Base

  datatype ProductStatus = Draft | Active | Inactive | Archived

  /** The product fields the rules read; a null seller id is `None`. */
  datatype ProductView = ProductView(sellerId: Option<UuidText>, status: Option<ProductStatus>)

  /** Reading the seller id of a product that has none throws. */
  datatype Fault = NullPointer

  /** `hasRole`: scans the granted authority names for `"ROLE_" + role`. */
  function HasRole(authorities: seq<string>, role: string): (r: bool)
    ensures r <==> ("ROLE_" + role) in authorities
  {
    if authorities == [] then false
    else authorities[0] == "ROLE_" + role || HasRole(authorities[1..], role)
  }

  predicate IsAdmin(authorities: seq<string>) {
    HasRole(authorities, "ADMIN")
  }

  /** Whether the product's seller id, written as text, equals the current user's id. */
  function IsSeller(product: ProductView, currentUserId: string): Result<bool, Fault> {
    match product.sellerId
    case None => Failure(NullPointer)
    case Some(s) => Success(s == currentUserId)
  }

  /** `isOwnerOrAdmin`, given what `findById` returned for the product id. Access is
      granted exactly to an admin, or to the seller of an existing product; the check
      throws only for a non-admin, a known user and an existing product without a seller. */
  function IsOwnerOrAdmin(authorities: seq<string>, product: Option<ProductView>, currentUserId: Option<string>)
    : (r: Result<bool, Fault>)
    ensures r == Success(true) <==>
      IsAdmin(authorities)
      || (product.Some? && currentUserId.Some? && product.value.sellerId == Some(currentUserId.value))
    ensures r.Failure? <==>
      !IsAdmin(authorities) && product.Some? && currentUserId.Some? && product.value.sellerId.None?
  {
    if IsAdmin(authorities) then Success(true)
    else if product.None? then Success(false)
    else if currentUserId.None? then Success(false)
    else IsSeller(product.value, currentUserId.value)
  }

  /** `canViewProduct`: an admin, or anyone for an active product, may view it; otherwise
      only its seller. */
  function CanViewProduct(authorities: seq<string>, product: ProductView, currentUserId: Option<string>)
    : (r: Result<bool, Fault>)
    ensures r == Success(true) <==>
      IsAdmin(authorities) || product.status == Some(Active)
      || (currentUserId.Some? && product.sellerId == Some(currentUserId.value))
    ensures r.Failure? <==>
      !IsAdmin(authorities) && product.status != Some(Active) && currentUserId.Some? && product.sellerId.None?
  {
    if IsAdmin(authorities) then Success(true)
    else if product.status == Some(Active) then Success(true)
    else if currentUserId.None? then Success(false)
    else IsSeller(product, currentUserId.value)
  }

  /** Whoever may change an existing product may also view it. */
  lemma OwnerCanView(authorities: seq<string>, product: ProductView, currentUserId: Option<string>)
    requires IsOwnerOrAdmin(authorities, Some(product), currentUserId) == Success(true)
    ensures CanViewProduct(authorities, product, currentUserId) == Success(true)
  {
  }

  /** An admin is granted both rights without the product being looked at, even when it
      does not exist. */
  lemma AdminIsAlwaysGranted(authorities: seq<string>, product: Option<ProductView>, view: ProductView,
                             currentUserId: Option<string>)
    requires "ROLE_ADMIN" in authorities
    ensures IsOwnerOrAdmin(authorities, product, currentUserId) == Success(true)
    ensures CanViewProduct(authorities, view, currentUserId) == Success(true)
  {
    assert "ROLE_" + "ADMIN" == "ROLE_ADMIN";
  }

  /** A role name is matched exactly: an authority without the `ROLE_` prefix, or with
      another case, grants nothing. */
  lemma RoleNamesMatchExactly()
    ensures !IsAdmin(["ADMIN", "role_admin", "ROLE_ADMINS"])
    ensures IsAdmin(["ROLE_USER", "ROLE_ADMIN"])
  {
    assert "ROLE_" + "ADMIN" == "ROLE_ADMIN";
    assert "ROLE_ADMIN" != "ADMIN" && "ROLE_ADMIN" != "role_admin" && "ROLE_ADMIN" != "ROLE_ADMINS";
  }

  /** For a non-admin, a user id that is not the canonical lower-case text of a UUID never
      matches a seller: the comparison is on exact text. */
  lemma NonCanonicalUserIdNeverOwns(authorities: seq<string>, product: ProductView, currentUserId: string)
    requires !IsAdmin(authorities) && !CanonicalUuid(currentUserId)
    ensures IsOwnerOrAdmin(authorities, Some(product), Some(currentUserId)) != Success(true)
    ensures product.status != Some(Active) ==>
      CanViewProduct(authorities, product, Some(currentUserId)) != Success(true)
  {
  }
}
