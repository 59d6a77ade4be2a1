/** The proof-of-existence pallet: each claimed content has exactly one owner. */
module ProofOfExistence {
  import opened Types

  /** The calls this pallet accepts from an extrinsic. */
  datatype Call = CreateClaim(claim: Content) | RevokeClaim(claim: Content)

  /** The owner of `claim`, if any. */
  function ClaimOwnerIn(claims: map<Content, AccountId>, claim: Content): (r: Option<AccountId>)
    ensures r.Some? <==> claim in claims
    ensures r.Some? ==> r.value == claims[claim]
  {
    if claim in claims then Some(claims[claim]) else None
  }

  /** `create_claim(caller, claim)` on the claim map: the result and the map afterwards. */
  function CreateClaimIn(claims: map<Content, AccountId>, caller: AccountId, claim: Content)
    : (r: (DispatchResult, map<Content, AccountId>))
    // an existing owner is never overwritten
    ensures claim in claims ==> r == (Err(ClaimAlreadyExists), claims)
    // an unclaimed content becomes the caller's, and no other entry changes
    ensures claim !in claims ==>
              && r.0 == Ok
              && ClaimOwnerIn(r.1, claim) == Some(caller)
              && r.1.Keys == claims.Keys + {claim}
              && forall c :: c != claim ==> ClaimOwnerIn(r.1, c) == ClaimOwnerIn(claims, c)
  {
    match ClaimOwnerIn(claims, claim)
    case Some(_) => (Err(ClaimAlreadyExists), claims)
    case None => (Ok, claims[claim := caller])
  }

  /** `revoke_claim(caller, claim)` on the claim map: the result and the map afterwards. */
  function RevokeClaimIn(claims: map<Content, AccountId>, caller: AccountId, claim: Content)
    : (r: (DispatchResult, map<Content, AccountId>))
    ensures claim !in claims ==> r == (Err(ClaimNotFound), claims)
    ensures claim in claims && claims[claim] != caller ==> r == (Err(NotClaimOwner), claims)
    // only the owner may revoke; the claim then disappears and nothing else changes
    ensures r.0 == Ok <==> claim in claims && claims[claim] == caller
    ensures r.0 == Ok ==>
              && ClaimOwnerIn(r.1, claim) == None
              && r.1.Keys == claims.Keys - {claim}
              && forall c :: c != claim ==> ClaimOwnerIn(r.1, c) == ClaimOwnerIn(claims, c)
  {
    match ClaimOwnerIn(claims, claim)
    case None => (Err(ClaimNotFound), claims)
    case Some(owner) =>
      if owner != caller then (Err(NotClaimOwner), claims)
      else (Ok, claims - {claim})
  }

  /** Creating a claim on unclaimed content and revoking it as the same caller
      restores the registry exactly. */
  lemma CreateThenRevoke(claims: map<Content, AccountId>, caller: AccountId, claim: Content)
    requires claim !in claims
    ensures CreateClaimIn(claims, caller, claim).0 == Ok
    ensures RevokeClaimIn(CreateClaimIn(claims, caller, claim).1, caller, claim) == (Ok, claims)
  {
    var created := CreateClaimIn(claims, caller, claim).1;
    var revoked := RevokeClaimIn(created, caller, claim).1;
    assert revoked == claims by {
      assert revoked.Keys == claims.Keys;
      forall c | c in claims ensures revoked[c] == claims[c] {
        assert ClaimOwnerIn(revoked, c) == ClaimOwnerIn(created, c) == ClaimOwnerIn(claims, c);
      }
    }
  }

  /** Once a claim is created, another caller cannot take it over nor revoke it. */
  lemma ClaimIsProtected(claims: map<Content, AccountId>, owner: AccountId, other: AccountId, claim: Content)
    requires claim !in claims
    requires other != owner
    ensures var created := CreateClaimIn(claims, owner, claim).1;
            && CreateClaimIn(created, other, claim) == (Err(ClaimAlreadyExists), created)
            && RevokeClaimIn(created, other, claim) == (Err(NotClaimOwner), created)
            && ClaimOwnerIn(created, claim) == Some(owner)
  {
  }

  class Pallet {
    var claims: map<Content, AccountId>

    constructor ()
      ensures claims == map[]
      ensures forall c :: GetClaim(c) == None
    {
      claims := map[];
    }

    /** The owner of `claim`, present exactly when the content has been claimed. */
    function GetClaim(claim: Content): (r: Option<AccountId>)
      reads this
      ensures r.Some? <==> claim in claims
      ensures r.Some? ==> r.value == claims[claim]
    {
      ClaimOwnerIn(claims, claim)
    }

    /** Claims `claim` for `caller`, failing when it already has an owner. */
    method CreateClaim(caller: AccountId, claim: Content) returns (r: DispatchResult)
      modifies this
      ensures (r, claims) == CreateClaimIn(old(claims), caller, claim)
    {
      match GetClaim(claim)
      case Some(_) =>
        r := Err(ClaimAlreadyExists);
      case None =>
        claims := claims[claim := caller];
        r := Ok;
    }

    /** Removes `claim`, failing when it is unclaimed or owned by someone else. */
    method RevokeClaim(caller: AccountId, claim: Content) returns (r: DispatchResult)
      modifies this
      ensures (r, claims) == RevokeClaimIn(old(claims), caller, claim)
    {
      var owner := GetClaim(claim);
      if owner.None? {
        return Err(ClaimNotFound);
      }
      if owner.value != caller {
        return Err(NotClaimOwner);
      }
      claims := claims - {claim};
      r := Ok;
    }
  }
}
