/** Shared-resource arbitration (orchestration/arbiter.py): exclusive claims by resource name. */
module Arbitration {
  import opened Results

  type Resource = string
  type Owner = string

  datatype ClaimHandle = ClaimHandle(resource: Resource, owner: Owner)

  datatype BusyError = ResourceBusy(holder: Owner)

  type Claims = map<Resource, Owner>

  /** The claims after `owner` claims `resource`; refused when someone else holds it. */
  function Claimed(claims: Claims, resource: Resource, owner: Owner): Result<Claims, BusyError> {
    if resource in claims && claims[resource] != owner then Err(ResourceBusy(claims[resource]))
    else Ok(claims[resource := owner])
  }

  /** The claims after a release; releasing what one does not hold changes nothing. */
  function Released(claims: Claims, handle: ClaimHandle): Claims {
    if handle.resource in claims && claims[handle.resource] == handle.owner then claims - {handle.resource} else claims
  }

  /** A release undoes the claim that first took the resource. */
  lemma ReleaseUndoesClaim(claims: Claims, resource: Resource, owner: Owner)
    requires resource !in claims
    ensures Claimed(claims, resource, owner).Ok?
    ensures Released(Claimed(claims, resource, owner).value, ClaimHandle(resource, owner)) == claims
  {
    var after := claims[resource := owner];
    assert after - {resource} == claims;
  }

  /** `InProcessArbiter`. */
  class InProcessArbiter {
    var claims: Claims

    constructor ()
      ensures claims == map[]
    {
      claims := map[];
    }

    /**
     `claim`: after a normal return the owner holds the resource and nobody else's claim has
     moved; it is refused exactly when a different owner holds the resource.
     */
    method Claim(resource: Resource, owner: Owner) returns (r: Result<ClaimHandle, BusyError>)
      modifies this
      ensures r.Err? <==> resource in old(claims) && old(claims)[resource] != owner
      ensures r.Ok? ==> claims == old(claims)[resource := owner] && r.value == ClaimHandle(resource, owner)
      ensures r.Ok? ==> Claimed(old(claims), resource, owner) == Ok(claims)
      ensures r.Err? ==> claims == old(claims) && r.error == ResourceBusy(old(claims)[resource])
    {
      if resource in claims && claims[resource] != owner {
        return Err(ResourceBusy(claims[resource]));
      }
      claims := claims[resource := owner];
      return Ok(ClaimHandle(resource, owner));
    }

    /** `release`: never fails, and only ever frees the handle's own claim. */
    method Release(handle: ClaimHandle)
      modifies this
      ensures handle.resource in claims ==> claims[handle.resource] != handle.owner
      ensures forall other :: other in claims ==> other in old(claims) && claims[other] == old(claims)[other]
      ensures forall other :: other in old(claims) && (other != handle.resource || old(claims)[other] != handle.owner) ==> other in claims
      ensures claims == Released(old(claims), handle)
    {
      if handle.resource in claims && claims[handle.resource] == handle.owner {
        claims := claims - {handle.resource};
      }
    }

    /** `is_claimed`. */
    method IsClaimed(resource: Resource) returns (b: bool)
      ensures b <==> resource in claims
    {
      return resource in claims;
    }
  }
}
