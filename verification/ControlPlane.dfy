/** The gate and lease statements as calls that run to completion, on one in-place state. Each
    call's effect is the effect its transaction has in the concurrent protocol. */
module ControlPlane {
  import opened Wrappers
  import opened Gates
  import opened Leases
  import opened GateProtocol
  import opened LeaseSafety

  datatype Reservation = Reserved | Blocked | Limit

  /** A row of the insert's SELECT loses against any live row of its slot and any row of its id. */
  predicate Conflicts(leases: map<Id, Lease>, id: Id, row: Lease) {
    id in leases || exists l :: l in leases && Live(leases[l]) && SameSlot(leases[l], row)
  }

  ghost predicate LowestFreeSlot(s: State, a: Authority, slot: int) {
    && 1 <= slot <= SLOTS && !SlotHeld(s, a, slot)
    && forall lower :: 1 <= lower < slot ==> SlotHeld(s, a, lower)
  }

  /** The lowest free slot is what an undisturbed reservation is offered first. */
  lemma FirstOfferIsLowest(s: State, a: Authority)
    ensures FreeSlots(s, a) != [] ==> LowestFreeSlot(s, a, FreeSlots(s, a)[0])
    ensures FreeSlots(s, a) == [] <==> forall slot :: 1 <= slot <= SLOTS ==> SlotHeld(s, a, slot)
  {
    hide FreeFrom, ListsFree, SlotHeld;
    FreeFromMeaning(s, a, 1);
    LowestIsFirst(s, a, FreeFrom(s, a, 1));
  }

  lemma LowestIsFirst(s: State, a: Authority, f: seq<int>)
    requires ListsFree(s, a, 1, f)
    ensures f != [] ==> LowestFreeSlot(s, a, f[0])
    ensures f == [] <==> forall slot :: 1 <= slot <= SLOTS ==> SlotHeld(s, a, slot)
  {
    hide SlotHeld;
    assert forall v :: v in f ==> f[0] <= v;
    assert f != [] ==> f[0] in f;
  }

  class Database {
    var state: State

    constructor (state: State)
      ensures this.state == state
    {
      this.state := state;
    }

    method ClaimGate(target: Target, claimId: Id) returns (claim: Option<GateClaim>)
      modifies this
      ensures claim.Some? <==> CanClaim(old(state), target, old(state).now)
      ensures claim.None? ==> state == old(state)
      ensures claim.Some? ==> state == ClaimEffect(old(state), target, claimId, old(state).now)
      ensures claim.Some? ==> claim.value == ParsedClaim(GateOf(old(state), RowOf(target)), old(state).now, claimId)
      ensures claim.Some? ==> Owns(GateOf(state, RowOf(target)), claimId)
      ensures claim.Some? && target.ConnectionTarget? ==>
                && target.connection in state.connections
                && state.connections[target.connection].revision ==
                     old(state).connections[target.connection].revision
                     + (if GateOf(old(state), RowOf(target)).pendingAt.None? then 1 else 0)
    {
      if !RowMatches(state, target) {
        return None;
      }
      var row, at := RowOf(target), state.now;
      var gate := GateOf(state, row);
      if gate.claimId.Some? && (gate.claimedAt.None? || gate.claimedAt.value >= at - REVOCATION_CLAIM_STALE_MS) {
        return None;
      }
      var connections := state.connections;
      if target.ConnectionTarget? && gate.pendingAt.None? {
        var c := connections[target.connection];
        connections := connections[target.connection := c.(revision := c.revision + 1)];
      }
      var pendingAt := if gate.pendingAt.Some? then gate.pendingAt.value else at;
      var parsed := GateClaim(claimId, at, pendingAt, pendingAt == at);
      state := state.(gates := state.gates[row := Gate(Some(pendingAt), Some(at), Some(claimId))],
                      connections := connections,
                      claims := state.claims[claimId := IssuedClaim(target, parsed)]);
      return Some(parsed);
    }

    /** One INSERT offers every free slot with the same lease id; conflicting rows are skipped.
        At most one row goes in, it takes the lowest free slot, and "limit" means all five are held. */
    method ReserveLease(a: Authority) returns (status: Reservation)
      requires a.leaseId !in state.leases
      modifies this
      ensures status == Blocked <==> !AuthorityHolds(old(state), a)
      ensures status == Limit <==>
                AuthorityHolds(old(state), a) && forall slot :: 1 <= slot <= SLOTS ==> SlotHeld(old(state), a, slot)
      ensures status != Reserved ==> state == old(state)
      ensures status == Reserved ==>
                && a.leaseId in state.leases
                && var row := state.leases[a.leaseId];
                && LowestFreeSlot(old(state), a, row.activeSlot)
                && row == ReservedLease(a, row.activeSlot, old(state).now + PENDING_LEASE_MS)
                && state == old(state).(leases := old(state).leases[a.leaseId := row])
    {
      if !AuthorityHolds(state, a) {
        return Blocked;
      }
      var offered := FreeSlots(state, a);
      FirstOfferIsLowest(state, a);
      var expiresAt := state.now + PENDING_LEASE_MS;
      var leases := state.leases;
      var inserted := 0;
      var i := 0;
      while i < |offered|
        invariant 0 <= i <= |offered|
        invariant i == 0 ==> inserted == 0 && leases == state.leases
        invariant i > 0 ==> inserted == 1 && leases == state.leases[a.leaseId := ReservedLease(a, offered[0], expiresAt)]
      {
        var row := ReservedLease(a, offered[i], expiresAt);
        if !Conflicts(leases, a.leaseId, row) {
          leases := leases[a.leaseId := row];
          inserted := inserted + 1;
        }
        i := i + 1;
      }
      state := state.(leases := leases);
      return if inserted > 0 then Reserved else Limit;
    }

    method FinalizeLease(a: Authority, c: Credential) returns (ok: bool)
      modifies this
      ensures ok <==> AuthorityHolds(old(state), a) && CanFinalize(old(state), a, old(state).now, c)
      ensures state == if ok then ReadEffect(old(state), Reading(a, Finalize(c), old(state).now, Answered(true))) else old(state)
      ensures ok ==>
                && a.leaseId in old(state).leases && a.leaseId in state.leases
                && SameLease(old(state).leases[a.leaseId], state.leases[a.leaseId])
                && Live(state.leases[a.leaseId]) && state.now < state.leases[a.leaseId].expiresAt
                && (c.kind != Pending ==> CanDeliver(state, a, state.now, c))
    {
      if !AuthorityHolds(state, a) || a.leaseId !in state.leases {
        return false;
      }
      var lease := state.leases[a.leaseId];
      if !SameAuthority(lease, a) || lease.kind != Pending || lease.revokedAt.Some?
         || lease.expiresAt <= state.now || c.expiresAt <= state.now {
        return false;
      }
      lease := lease.(credentialId := c.id, kind := c.kind, expiresAt := c.expiresAt);
      state := state.(leases := state.leases[a.leaseId := lease]);
      return true;
    }
  }

  // ---- The undisturbed call is a run of the protocol -------------------------------------------

  function Alone(s: State, t: Id, x: Txn): State {
    s.(txns := s.txns[t := x])
  }

  function Offered(s: State, a: Authority, offered: seq<int>, inserted: Option<int>): Txn {
    Reading(a, Reserve(s.now + PENDING_LEASE_MS), s.now, Offering(true, offered, inserted))
  }

  lemma UndisturbedSnapshot(s: State, t: Id, a: Authority)
    requires AuthorityHolds(s, a)
    ensures var s1 := Alone(s, t, Reading(a, Reserve(s.now + PENDING_LEASE_MS), s.now, Locking(3)));
            && Enabled(s1, Snapshot(t))
            && Apply(s1, Snapshot(t)) == Alone(s, t, Offered(s, a, FreeSlots(s, a), None))
  {
    var x := Reading(a, Reserve(s.now + PENDING_LEASE_MS), s.now, Locking(3));
    SameSlotsAlone(s, t, x, a, 1);
    assert AuthorityHolds(Alone(s, t, x), a);
    hide AuthorityHolds, FreeFrom, SlotHeld;
    var y := Offered(s, a, FreeSlots(s, a), None);
    assert s.txns[t := x][t := y] == s.txns[t := y];
  }

  lemma UndisturbedTry(s: State, t: Id, a: Authority)
    requires s.txns == map[] && FreeSlots(s, a) != [] && !SlotHeld(s, a, FreeSlots(s, a)[0])
    ensures var s2 := Alone(s, t, Offered(s, a, FreeSlots(s, a), None));
            && Enabled(s2, TrySlot(t))
            && Apply(s2, TrySlot(t)) == Alone(s, t, Offered(s, a, FreeSlots(s, a)[1..], Some(FreeSlots(s, a)[0])))
  {
    hide FreeSlots, FreeFrom, AuthorityHolds;
    var slots := FreeSlots(s, a);
    var x, y := Offered(s, a, slots, None), Offered(s, a, slots[1..], Some(slots[0]));
    var s2 := Alone(s, t, x);
    assert !SlotInFlight(s2, a, slots[0]);
    assert !SlotHeld(s2, a, slots[0]);
    hide SlotHeld, SlotInFlight;
    assert s.txns[t := x][t := y] == s.txns[t := y];
  }

  lemma UndisturbedCommit(s: State, t: Id, a: Authority, offered: seq<int>, slot: int)
    ensures var s3 := Alone(s, t, Offered(s, a, offered, Some(slot)));
            && Enabled(s3, CommitRead(t))
            && Apply(s3, CommitRead(t)).leases == s.leases[a.leaseId := ReservedLease(a, slot, s.now + PENDING_LEASE_MS)]
  {
  }

  /** When nothing else runs, the first slot a reservation tries is free, so it goes in at once:
      the protocol's transaction ends with exactly the row the uninterrupted call inserts. */
  lemma UndisturbedReservation(s: State, t: Id, a: Authority)
    requires s.txns == map[] && AuthorityHolds(s, a) && FreeSlots(s, a) != []
    ensures var x := Reading(a, Reserve(s.now + PENDING_LEASE_MS), s.now, Locking(3));
            var s1 := Alone(s, t, x);
            && Enabled(s1, Snapshot(t))
            && var s2 := Apply(s1, Snapshot(t));
            && Enabled(s2, TrySlot(t))
            && var s3 := Apply(s2, TrySlot(t));
            && Enabled(s3, CommitRead(t))
            && LowestFreeSlot(s, a, FreeSlots(s, a)[0])
            && Apply(s3, CommitRead(t)).leases ==
                 s.leases[a.leaseId := ReservedLease(a, FreeSlots(s, a)[0], s.now + PENDING_LEASE_MS)]
  {
    hide Apply, Enabled, AuthorityHolds, FreeSlots, FreeFrom, SlotHeld;
    FirstOfferIsLowest(s, a);
    UndisturbedSnapshot(s, t, a);
    UndisturbedTry(s, t, a);
    UndisturbedCommit(s, t, a, FreeSlots(s, a)[1..], FreeSlots(s, a)[0]);
  }

  lemma {:induction false} SameSlotsAlone(s: State, t: Id, x: Txn, a: Authority, from: int)
    requires 1 <= from
    ensures FreeFrom(Alone(s, t, x), a, from) == FreeFrom(s, a, from)
    decreases SLOTS + 1 - from
  {
    if from <= SLOTS {
      assert SlotHeld(Alone(s, t, x), a, from) == SlotHeld(s, a, from);
      SameSlotsAlone(s, t, x, a, from + 1);
    }
  }
}
