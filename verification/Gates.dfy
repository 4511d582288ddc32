/** One revocation gate: three nullable columns of a member, connection or integration row.
    A random claim id owns the gate; the two timestamps only serve to recover abandoned claims. */
module Gates {
  import opened Wrappers

  /** Milliseconds on one shared clock. */
  type Time = int
  /** Identifiers are opaque: only equality is ever used. */
  type Id = int

  const REVOCATION_CLAIM_STALE_MS: int := 5 * 60 * 1000

  datatype Gate = Gate(pendingAt: Option<Time>, claimedAt: Option<Time>, claimId: Option<Id>)

  const OPEN: Gate := Gate(None, None, None)

  /** What a successful claim hands to its caller. */
  datatype GateClaim = GateClaim(claimId: Id, claimedAt: Time, pendingAt: Time, firstPending: bool)

  /** The CHECK constraint on all three tables. */
  predicate Consistent(g: Gate) {
    || (g.claimedAt.None? && g.claimId.None?)
    || (g.claimedAt.Some? && g.claimId.Some? && g.pendingAt.Some?)
  }

  predicate Claimable(g: Gate, at: Time) {
    g.claimId.None? || (g.claimedAt.Some? && g.claimedAt.value < at - REVOCATION_CLAIM_STALE_MS)
  }

  predicate Owns(g: Gate, id: Id) {
    g.pendingAt.Some? && g.claimId == Some(id)
  }

  /** COALESCE(pending_at, at): an episode keeps the time it was opened. */
  function PendingSince(g: Gate, at: Time): Time {
    if g.pendingAt.Some? then g.pendingAt.value else at
  }

  function Claimed(g: Gate, at: Time, id: Id): Gate {
    Gate(Some(PendingSince(g, at)), Some(at), Some(id))
  }

  function Released(g: Gate): Gate {
    g.(claimedAt := None, claimId := None)
  }

  function Renewed(g: Gate, at: Time, id: Id): Gate {
    g.(claimedAt := Some(at), claimId := Some(id))
  }

  function ParsedClaim(g: Gate, at: Time, id: Id): GateClaim {
    GateClaim(id, at, PendingSince(g, at), PendingSince(g, at) == at)
  }

  /** A gate row updated in place. Only connection rows carry a revision that a new episode bumps. */
  class GateRow {
    const countsEpisodes: bool
    var gate: Gate
    var revision: int

    predicate Valid()
      reads this
    {
      Consistent(gate)
    }

    constructor (countsEpisodes: bool, revision: int)
      ensures Valid() && gate == OPEN
      ensures this.countsEpisodes == countsEpisodes && this.revision == revision
    {
      this.countsEpisodes := countsEpisodes;
      this.revision := revision;
      gate := OPEN;
    }

    method Claim(at: Time, id: Id) returns (claim: Option<GateClaim>)
      requires Valid()
      modifies this
      ensures Valid()
      ensures claim.Some? <==> Claimable(old(gate), at)
      ensures claim.None? ==> gate == old(gate) && revision == old(revision)
      ensures claim.Some? ==> Owns(gate, id) && gate.claimedAt == Some(at)
      ensures claim.Some? ==> claim.value == ParsedClaim(old(gate), at, id) && gate == Claimed(old(gate), at, id)
      ensures claim.Some? && countsEpisodes ==> revision == old(revision) + (if old(gate).pendingAt.None? then 1 else 0)
      ensures !countsEpisodes ==> revision == old(revision)
    {
      if gate.claimId.Some? {
        if gate.claimedAt.value >= at - REVOCATION_CLAIM_STALE_MS {
          return None;
        }
      }
      if countsEpisodes && gate.pendingAt.None? {
        revision := revision + 1;
      }
      var pendingAt := if gate.pendingAt.None? then at else gate.pendingAt.value;
      gate := Gate(Some(pendingAt), Some(at), Some(id));
      return Some(GateClaim(id, at, pendingAt, pendingAt == at));
    }

    method Release(claim: GateClaim) returns (ok: bool)
      requires Valid()
      modifies this`gate
      ensures Valid()
      ensures ok <==> Owns(old(gate), claim.claimId)
      ensures gate == if ok then Released(old(gate)) else old(gate)
      ensures ok ==> gate.pendingAt == old(gate).pendingAt && Claimable(gate, claim.claimedAt)
    {
      ok := gate.pendingAt.Some? && gate.claimId == Some(claim.claimId);
      if ok {
        gate := gate.(claimedAt := None, claimId := None);
      }
    }

    method Clear(claim: GateClaim) returns (ok: bool)
      requires Valid()
      modifies this`gate
      ensures Valid()
      ensures ok <==> Owns(old(gate), claim.claimId)
      ensures gate == if ok then OPEN else old(gate)
    {
      ok := gate.pendingAt.Some? && gate.claimId == Some(claim.claimId);
      if ok {
        gate := Gate(None, None, None);
      }
    }

    method Renew(claim: GateClaim, at: Time, id: Id) returns (renewed: Option<GateClaim>)
      requires Valid()
      modifies this`gate
      ensures Valid()
      ensures renewed.Some? <==> Owns(old(gate), claim.claimId)
      ensures gate == if renewed.Some? then Renewed(old(gate), at, id) else old(gate)
      ensures renewed.Some? ==> renewed.value == claim.(claimId := id, claimedAt := at) && Owns(gate, id)
    {
      if gate.pendingAt.None? || gate.claimId != Some(claim.claimId) {
        return None;
      }
      gate := gate.(claimedAt := Some(at), claimId := Some(id));
      return Some(claim.(claimId := id, claimedAt := at));
    }
  }
}
