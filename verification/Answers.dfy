/** What an answer says about the rows: the answers of the control plane, traced over whole runs back
    to the columns that the statement's snapshot saw. */
module Answers {
  import opened Wrappers
  import opened Gates
  import opened Leases
  import opened GateProtocol
  import opened GateSafety
  import opened LeaseSafety
  import opened GateTheorems

  // ---- The rows behind an authority ------------------------------------------------------------------------

  predicate NoRevocation(s: State, r: RowId) {
    r in s.gates ==> s.gates[r].pendingAt == None && s.gates[r].claimId == None
  }

  /** Analysts and up may read; editors and up may write where the connection allows writes. */
  predicate RoleCovers(role: WorkspaceRole, mode: AccessMode, allowWrites: bool) {
    match mode
    case ReadAccess => role == Analyst || role == Editor || role == Admin || role == Owner
    case WriteAccess => (role == Editor || role == Admin || role == Owner) && allowWrites
  }

  /** The member, connection and integration rows are as the request says: of its organization, with
      its user, role, revision, engine and provider, in service, and without a pending revocation. */
  predicate AuthorityRows(s: State, a: Authority) {
    && a.member in s.members && a.connection in s.connections && a.integration in s.integrations
    && var m, c, i := s.members[a.member], s.connections[a.connection], s.integrations[a.integration];
    && m.organization == a.organization && m.user == a.user && m.role == a.role
    && NoRevocation(s, MemberRow(a.member))
    && RoleCovers(m.role, a.accessMode, c.allowWrites)
    && c.organization == a.organization && !c.deleted && NoRevocation(s, ConnectionRow(a.connection))
    && c.managed && c.integration == Some(a.integration) && c.revision == a.revision
    && c.engine == a.engine && c.provider == Some(a.provider)
    && i.organization == a.organization && i.provider == a.provider && i.active && !i.revoked
    && NoRevocation(s, IntegrationRow(a.integration))
  }

  lemma AuthorityMeansRows(s: State, a: Authority)
    ensures AuthorityHolds(s, a) <==> AuthorityRows(s, a)
  {
  }

  predicate LeaseIsFor(l: Lease, a: Authority) {
    && l.organization == a.organization && l.connection == a.connection && l.integration == a.integration
    && l.user == a.user && l.provider == a.provider && l.accessMode == a.accessMode
  }

  /** The row a delivery needs: this authority's, with the credential as it was handed out, finalized,
      not expired when the check began, and not revoked. */
  predicate DeliverableRow(s: State, a: Authority, startedAt: Time, c: Credential) {
    && a.leaseId in s.leases
    && var l := s.leases[a.leaseId];
    && LeaseIsFor(l, a)
    && l.credentialId == c.id && l.kind == c.kind && l.kind != Pending
    && l.expiresAt == c.expiresAt && l.expiresAt > startedAt && l.revokedAt == None
  }

  /** The row a finalization needs: this authority's reservation, not revoked, and neither it nor the
      credential expired when the finalization began. */
  predicate ReservedRow(s: State, a: Authority, startedAt: Time, c: Credential) {
    && a.leaseId in s.leases
    && var l := s.leases[a.leaseId];
    && LeaseIsFor(l, a) && l.kind == Pending && l.revokedAt == None
    && l.expiresAt > startedAt && c.expiresAt > startedAt
  }

  lemma LeaseRowMeanings(s: State, a: Authority, startedAt: Time, c: Credential)
    ensures CanDeliver(s, a, startedAt, c) <==> DeliverableRow(s, a, startedAt, c)
    ensures CanFinalize(s, a, startedAt, c) <==> ReservedRow(s, a, startedAt, c)
  {
  }

  /** A live lease of this member on this connection holds the slot. */
  ghost predicate SlotTaken(s: State, a: Authority, slot: int) {
    exists l :: l in s.leases && s.leases[l].revokedAt == None && s.leases[l].organization == a.organization
                && s.leases[l].connection == a.connection && s.leases[l].user == a.user && s.leases[l].activeSlot == slot
  }

  lemma HeldMeansTaken(s: State, a: Authority, slot: int)
    ensures SlotHeld(s, a, slot) <==> SlotTaken(s, a, slot)
  {
    if SlotTaken(s, a, slot) {
      var l :| l in s.leases && s.leases[l].revokedAt == None && s.leases[l].organization == a.organization
               && s.leases[l].connection == a.connection && s.leases[l].user == a.user && s.leases[l].activeSlot == slot;
      assert Live(s.leases[l]) && SameSlot(s.leases[l], ReservedLease(a, slot, 0));
    }
  }

  // ---- One statement of a reader ---------------------------------------------------------------------------

  predicate SameReader(s: State, s': State, t: Id) {
    && t in s.txns && t in s'.txns && s.txns[t].Reading? && s'.txns[t].Reading?
    && s.txns[t].auth == s'.txns[t].auth && s.txns[t].purpose == s'.txns[t].purpose
    && s.txns[t].startedAt == s'.txns[t].startedAt
  }

  /** The transaction took its snapshot at step i and is the same transaction up to state j. */
  ghost predicate SnapshotAt(ss: seq<State>, acts: seq<Action>, t: Id, i: nat, j: nat)
    requires |ss| == |acts| + 1 && j < |ss|
  {
    i < j && acts[i] == Snapshot(t) && forall n :: i <= n <= j ==> SameReader(ss[i], ss[n], t)
  }

  predicate PastLocks(s: State, t: Id) {
    t in s.txns && s.txns[t].Reading? && !s.txns[t].phase.Locking?
  }

  /** How a reader that has taken its snapshot got where it is. */
  predicate Reads(s: State, a: Action, t: Id, x: Txn, y: Txn)
    requires x.Reading? && y.Reading?
  {
    || (a == Snapshot(t) && y.phase == SnapshotPhase(s, x))
    || (!x.phase.Locking? && y.phase == x.phase)
    || (a == TrySlot(t) && x.phase.Offering? && x.phase.offered != [] && x.phase.inserted.None?
        && y.phase == Offering(x.phase.allowed, x.phase.offered[1..],
                               if SlotHeld(s, x.auth, x.phase.offered[0]) then None else Some(x.phase.offered[0])))
    || (a == WriteFinal(t) && x.purpose.Finalize? && x.phase.Matched?
        && y.phase == Answered(x.phase.seen && CanFinalize(s, x.auth, x.startedAt, x.purpose.credential)))
  }

  lemma ReaderStep(s: State, a: Action, t: Id)
    requires Enabled(s, a) && PastLocks(Apply(s, a), t)
    ensures SameReader(s, Apply(s, a), t) && Reads(s, a, t, s.txns[t], Apply(s, a).txns[t])
    ensures s.txns[t].phase.Locking? ==> a == Snapshot(t)
  {
    hide SlotHeld, CanFinalize, SnapshotPhase, SlotInFlight, LeaseLocked;
    if !ActsOn(a, t) {
      TxnFrame(s, a, t);
    }
  }

  /** What one step means for a transaction whose snapshot was taken at step i. */
  lemma SnapshotStep(ss: seq<State>, acts: seq<Action>, t: Id, i: nat, j: nat)
    requires IsRun(ss, acts) && j + 1 < |ss| && (if acts[j] == Snapshot(t) then i == j else SnapshotAt(ss, acts, t, i, j))
    requires SameReader(ss[j], ss[j + 1], t)
    ensures SnapshotAt(ss, acts, t, i, j + 1)
  {
    hide IsRun;
  }

  lemma NoTxnsAtFirst(ss: seq<State>, acts: seq<Action>)
    requires IsRun(ss, acts)
    ensures ss[0].txns == map[]
  {
  }

  // ---- Deliveries -----------------------------------------------------------------------------------------------

  lemma DeliveryPhase(s: State, x: Txn)
    requires x.Reading? && x.purpose.Deliver?
    ensures SnapshotPhase(s, x)
            == Answered(AuthorityRows(s, x.auth) && DeliverableRow(s, x.auth, x.startedAt, x.purpose.credential))
  {
    hide AuthorityHolds, AuthorityRows, CanDeliver, DeliverableRow;
    AuthorityMeansRows(s, x.auth);
    LeaseRowMeanings(s, x.auth, x.startedAt, x.purpose.credential);
  }

  lemma {:induction false} DeliverySnapshot(ss: seq<State>, acts: seq<Action>, j: nat, t: Id) returns (i: nat)
    requires IsRun(ss, acts) && j < |ss| && PastLocks(ss[j], t) && ss[j].txns[t].purpose.Deliver?
    ensures |ss| == |acts| + 1 && SnapshotAt(ss, acts, t, i, j)
    ensures var x := ss[j].txns[t];
            x.phase == Answered(AuthorityRows(ss[i], x.auth) && DeliverableRow(ss[i], x.auth, x.startedAt, x.purpose.credential))
    decreases j
  {
    hide Apply, Enabled, Init, SnapshotPhase, AuthorityRows, DeliverableRow, SlotHeld, CanFinalize;
    assert j > 0 by { NoTxnsAtFirst(ss, acts); }
    RunStep(ss, acts, j - 1);
    ReaderStep(ss[j - 1], acts[j - 1], t);
    if acts[j - 1] == Snapshot(t) {
      i := j - 1;
      DeliveryPhase(ss[i], ss[i].txns[t]);
    } else {
      i := DeliverySnapshot(ss, acts, j - 1, t);
    }
    SnapshotStep(ss, acts, t, i, j - 1);
  }

  /** A deliverability check answers yes exactly when, at its snapshot, the authority's rows were as the
      request says and the lease row was this authority's, held this very credential, had not expired
      when the check began, and was not revoked. */
  lemma DeliveryAnswersExactly(ss: seq<State>, acts: seq<Action>, j: nat, t: Id) returns (i: nat)
    requires IsRun(ss, acts) && j < |acts| && acts[j] == CommitRead(t) && t in ss[j].txns
    requires ss[j].txns[t].Reading? && ss[j].txns[t].purpose.Deliver?
    ensures |ss| == |acts| + 1 && SnapshotAt(ss, acts, t, i, j)
    ensures var x := ss[j].txns[t];
            Succeeds(x) <==> AuthorityRows(ss[i], x.auth) && DeliverableRow(ss[i], x.auth, x.startedAt, x.purpose.credential)
  {
    hide Apply, Init, AuthorityRows, DeliverableRow;
    RunStep(ss, acts, j);
    i := DeliverySnapshot(ss, acts, j, t);
  }

  lemma RevocationStays(s: State, a: Action, l: Id)
    requires LeaseInv(s) && Enabled(s, a) && l in s.leases && !Live(s.leases[l])
    ensures l in Apply(s, a).leases && !Live(Apply(s, a).leases[l])
  {
    if a.CommitRead? {
      CommitIsEffect(s, a);
    } else if !a.Touch? && !a.DrainMark? {
      LeasesFrame(s, a);
    }
  }

  lemma {:induction false} RevokedStaysRevoked(ss: seq<State>, acts: seq<Action>, r: nat, j: nat, l: Id)
    requires IsRun(ss, acts) && r <= j < |ss| && l in ss[r].leases && !Live(ss[r].leases[l])
    ensures l in ss[j].leases && !Live(ss[j].leases[l])
    decreases j
  {
    hide Apply, Enabled, Init, Inv, LeaseInv;
    if r < j {
      RevokedStaysRevoked(ss, acts, r, j - 1, l);
      RunStep(ss, acts, j - 1);
      RevocationStays(ss[j - 1], acts[j - 1], l);
    }
  }

  /** Once a lease is revoked, no check whose snapshot comes later finds it deliverable. */
  lemma RevokedIsNotDelivered(ss: seq<State>, acts: seq<Action>, r: nat, j: nat, t: Id) returns (i: nat)
    requires IsRun(ss, acts) && j < |acts| && acts[j] == CommitRead(t) && t in ss[j].txns
    requires ss[j].txns[t].Reading? && ss[j].txns[t].purpose.Deliver?
    requires r < |ss| && var l := ss[j].txns[t].auth.leaseId; l in ss[r].leases && ss[r].leases[l].revokedAt.Some?
    ensures |ss| == |acts| + 1 && SnapshotAt(ss, acts, t, i, j)
    ensures Succeeds(ss[j].txns[t]) ==> i < r
  {
    hide Apply, Enabled, Init, AuthorityRows;
    i := DeliveryAnswersExactly(ss, acts, j, t);
    if r <= i {
      RevokedStaysRevoked(ss, acts, r, i, ss[j].txns[t].auth.leaseId);
    }
  }

  // ---- Finalizations --------------------------------------------------------------------------------------------

  lemma FinalPhase(s: State, x: Txn)
    requires x.Reading? && x.purpose.Finalize?
    ensures SnapshotPhase(s, x)
            == Matched(AuthorityRows(s, x.auth) && ReservedRow(s, x.auth, x.startedAt, x.purpose.credential))
    ensures CanFinalize(s, x.auth, x.startedAt, x.purpose.credential)
            == ReservedRow(s, x.auth, x.startedAt, x.purpose.credential)
  {
    hide AuthorityHolds, AuthorityRows, CanFinalize, ReservedRow;
    AuthorityMeansRows(s, x.auth);
    LeaseRowMeanings(s, x.auth, x.startedAt, x.purpose.credential);
  }

  /** What a finalization's phase says: w is the step that wrote, once it has. */
  ghost predicate FinalSays(ss: seq<State>, acts: seq<Action>, t: Id, i: nat, w: nat, j: nat, x: Txn)
    requires |ss| == |acts| + 1 && i < j < |ss| && x.Reading? && x.purpose.Finalize?
  {
    var seen := AuthorityRows(ss[i], x.auth) && ReservedRow(ss[i], x.auth, x.startedAt, x.purpose.credential);
    || x.phase == Matched(seen)
    || (i < w < j && acts[w] == WriteFinal(t)
        && x.phase == Answered(seen && ReservedRow(ss[w], x.auth, x.startedAt, x.purpose.credential)))
  }

  lemma FinalMoves(ss: seq<State>, acts: seq<Action>, t: Id, i: nat, v: nat, j: nat) returns (w: nat)
    requires |ss| == |acts| + 1 && i < j && j + 1 < |ss| && SameReader(ss[j], ss[j + 1], t) && ss[j].txns[t].purpose.Finalize?
    requires acts[j] != Snapshot(t) && Reads(ss[j], acts[j], t, ss[j].txns[t], ss[j + 1].txns[t])
    requires FinalSays(ss, acts, t, i, v, j, ss[j].txns[t])
    ensures FinalSays(ss, acts, t, i, w, j + 1, ss[j + 1].txns[t])
  {
    hide SnapshotPhase, AuthorityRows, ReservedRow, SlotHeld, CanFinalize;
    FinalPhase(ss[j], ss[j].txns[t]);
    w := if acts[j] == WriteFinal(t) && ss[j].txns[t].phase.Matched? then j else v;
  }

  lemma {:induction false} FinalSnapshot(ss: seq<State>, acts: seq<Action>, j: nat, t: Id) returns (i: nat, w: nat)
    requires IsRun(ss, acts) && j < |ss| && PastLocks(ss[j], t) && ss[j].txns[t].purpose.Finalize?
    ensures |ss| == |acts| + 1 && SnapshotAt(ss, acts, t, i, j) && FinalSays(ss, acts, t, i, w, j, ss[j].txns[t])
    decreases j
  {
    hide Apply, Enabled, Init, SnapshotPhase, AuthorityRows, ReservedRow, SlotHeld, CanFinalize;
    assert j > 0 by { NoTxnsAtFirst(ss, acts); }
    RunStep(ss, acts, j - 1);
    ReaderStep(ss[j - 1], acts[j - 1], t);
    if acts[j - 1] == Snapshot(t) {
      FinalPhase(ss[j - 1], ss[j - 1].txns[t]);
      i, w := j - 1, j - 1;
    } else {
      i, w := FinalSnapshot(ss, acts, j - 1, t);
      w := FinalMoves(ss, acts, t, i, w, j - 1);
    }
    SnapshotStep(ss, acts, t, i, j - 1);
  }

  /** A finalization succeeds exactly when, at its snapshot, the authority's rows were as the request
      says and the reservation was live, and the reservation still was when the row was written. */
  lemma FinalizationAnswersExactly(ss: seq<State>, acts: seq<Action>, j: nat, t: Id) returns (i: nat, w: nat)
    requires IsRun(ss, acts) && j < |acts| && acts[j] == CommitRead(t) && t in ss[j].txns
    requires ss[j].txns[t].Reading? && ss[j].txns[t].purpose.Finalize?
    ensures |ss| == |acts| + 1 && SnapshotAt(ss, acts, t, i, j) && i < w < j && acts[w] == WriteFinal(t)
    ensures var x := ss[j].txns[t];
            var c := x.purpose.credential;
            Succeeds(x) <==> AuthorityRows(ss[i], x.auth) && ReservedRow(ss[i], x.auth, x.startedAt, c)
                             && ReservedRow(ss[w], x.auth, x.startedAt, c)
  {
    hide Apply, Init, AuthorityRows, ReservedRow;
    RunStep(ss, acts, j);
    FinalIsNoOffer(ss, acts, j, t);
    i, w := FinalSnapshot(ss, acts, j, t);
  }

  lemma FinalIsNoOffer(ss: seq<State>, acts: seq<Action>, j: nat, t: Id)
    requires IsRun(ss, acts) && j < |acts| && acts[j] == CommitRead(t) && Enabled(ss[j], acts[j])
    ensures PastLocks(ss[j], t) && !ss[j].txns[t].phase.Matched?
  {
    hide Apply, Init, IsRun;
  }

  // ---- Reservations ---------------------------------------------------------------------------------------------

  /** Some state from i on and before j shows the slot taken. */
  ghost predicate TakenBetween(ss: seq<State>, a: Authority, slot: int, i: nat, j: nat)
    requires j <= |ss|
  {
    exists n :: i <= n < j && SlotTaken(ss[n], a, slot)
  }

  ghost predicate Slot(v: int) {
    1 <= v <= 5
  }

  /** The slots still to try are free in the snapshot and in order; every other one was taken. */
  ghost predicate OfferSays(ss: seq<State>, i: nat, j: nat, a: Authority, p: ReadPhase)
    requires i < j <= |ss| && p.Offering?
  {
    && (p.allowed <==> AuthorityRows(ss[i], a))
    && (!p.allowed ==> p.offered == [] && p.inserted.None?)
    && Increasing(p.offered)
    && (forall v :: v in p.offered ==> Slot(v) && !SlotTaken(ss[i], a, v))
    && (p.allowed && p.inserted.None? ==> forall v :: Slot(v) && v !in p.offered ==> TakenBetween(ss, a, v, i, j))
    && (p.inserted.Some? ==>
          && Slot(p.inserted.value) && !SlotTaken(ss[i], a, p.inserted.value)
          && forall v :: Slot(v) && v < p.inserted.value ==> TakenBetween(ss, a, v, i, j))
  }

  lemma OfferBegins(ss: seq<State>, i: nat, x: Txn)
    requires i < |ss| && x.Reading? && x.purpose.Reserve?
    ensures SnapshotPhase(ss[i], x).Offering? && OfferSays(ss, i, i + 1, x.auth, SnapshotPhase(ss[i], x))
  {
    hide AuthorityHolds, AuthorityRows, SlotHeld, SlotTaken, FreeFrom;
    var s, a := ss[i], x.auth;
    AuthorityMeansRows(s, a);
    FreeFromMeaning(s, a, 1);
    forall v ensures SlotHeld(s, a, v) <==> SlotTaken(s, a, v) {
      HeldMeansTaken(s, a, v);
    }
    forall v | Slot(v) && v !in FreeFrom(s, a, 1) ensures TakenBetween(ss, a, v, i, i + 1) {
      assert SlotTaken(ss[i], a, v);
    }
  }

  lemma OfferWaits(ss: seq<State>, i: nat, j: nat, a: Authority, p: ReadPhase)
    requires i < j < |ss| && p.Offering? && OfferSays(ss, i, j, a, p)
    ensures OfferSays(ss, i, j + 1, a, p)
  {
    hide AuthorityRows, SlotTaken, Increasing, Slot;
    forall v | TakenBetween(ss, a, v, i, j) ensures TakenBetween(ss, a, v, i, j + 1) {
      var n :| i <= n < j && SlotTaken(ss[n], a, v);
    }
  }

  lemma OfferTried(ss: seq<State>, i: nat, j: nat, a: Authority, p: ReadPhase)
    requires i < j < |ss| && p.Offering? && OfferSays(ss, i, j, a, p) && p.offered != [] && p.inserted.None?
    ensures var slot := p.offered[0];
            OfferSays(ss, i, j + 1, a, Offering(p.allowed, p.offered[1..], if SlotTaken(ss[j], a, slot) then None else Some(slot)))
  {
    hide AuthorityRows, SlotTaken, Slot;
    OfferWaits(ss, i, j, a, p);
    var slot, rest := p.offered[0], p.offered[1..];
    assert slot in p.offered && p.offered == [slot] + rest;
    assert forall v :: v in rest ==> v in p.offered;
    forall v | v in p.offered && v != slot ensures slot < v && v in rest {
      var k :| 0 <= k < |p.offered| && p.offered[k] == v;
      assert rest[k - 1] == v;
    }
    if SlotTaken(ss[j], a, slot) {
      assert TakenBetween(ss, a, slot, i, j + 1);
    }
  }

  lemma {:induction false} OfferSnapshot(ss: seq<State>, acts: seq<Action>, j: nat, t: Id) returns (i: nat)
    requires IsRun(ss, acts) && j < |ss| && PastLocks(ss[j], t) && ss[j].txns[t].purpose.Reserve?
    ensures |ss| == |acts| + 1 && SnapshotAt(ss, acts, t, i, j)
    ensures ss[j].txns[t].phase.Offering? && OfferSays(ss, i, j, ss[j].txns[t].auth, ss[j].txns[t].phase)
    decreases j
  {
    hide Apply, Enabled, Init, SnapshotPhase, OfferSays, SlotHeld, SlotTaken, CanFinalize;
    assert j > 0 by { NoTxnsAtFirst(ss, acts); }
    RunStep(ss, acts, j - 1);
    ReaderStep(ss[j - 1], acts[j - 1], t);
    var x := ss[j - 1].txns[t];
    if acts[j - 1] == Snapshot(t) {
      i := j - 1;
      OfferBegins(ss, i, x);
    } else {
      i := OfferSnapshot(ss, acts, j - 1, t);
      if ss[j].txns[t].phase == x.phase {
        OfferWaits(ss, i, j - 1, x.auth, x.phase);
      } else {
        HeldMeansTaken(ss[j - 1], x.auth, x.phase.offered[0]);
        OfferTried(ss, i, j - 1, x.auth, x.phase);
      }
    }
    SnapshotStep(ss, acts, t, i, j - 1);
  }

  /** A reservation's expiry is two minutes after it began. */
  lemma {:induction false} ExpiryOfReservation(ss: seq<State>, acts: seq<Action>, j: nat, t: Id)
    requires IsRun(ss, acts) && j < |ss| && t in ss[j].txns && ss[j].txns[t].Reading? && ss[j].txns[t].purpose.Reserve?
    ensures ss[j].txns[t].purpose.expiresAt == ss[j].txns[t].startedAt + 120_000
    decreases j
  {
    hide Apply, Enabled, Init;
    assert j > 0 by { NoTxnsAtFirst(ss, acts); }
    RunStep(ss, acts, j - 1);
    ReaderBegins(ss[j - 1], acts[j - 1], t);
    if SameReader(ss[j - 1], ss[j], t) {
      ExpiryOfReservation(ss, acts, j - 1, t);
    }
  }

  lemma ReaderBegins(s: State, a: Action, t: Id)
    requires Enabled(s, a) && t in Apply(s, a).txns && Apply(s, a).txns[t].Reading? && Apply(s, a).txns[t].purpose.Reserve?
    ensures SameReader(s, Apply(s, a), t)
            || Apply(s, a).txns[t].purpose.expiresAt == Apply(s, a).txns[t].startedAt + 120_000
  {
    if !ActsOn(a, t) {
      TxnFrame(s, a, t);
    }
  }

  /** A reservation answers by what its snapshot saw. Without the authority's rows it is blocked; with
      them it takes the lowest slot that was free in the snapshot and was not taken since, as a pending
      lease of two minutes; and it answers limit only if every slot was taken meanwhile. */
  lemma ReservationAnswersExactly(ss: seq<State>, acts: seq<Action>, j: nat, t: Id) returns (i: nat)
    requires IsRun(ss, acts) && j < |acts| && acts[j] == CommitRead(t) && t in ss[j].txns
    requires ss[j].txns[t].Reading? && ss[j].txns[t].purpose.Reserve?
    ensures |ss| == |acts| + 1 && SnapshotAt(ss, acts, t, i, j) && ss[j].txns[t].phase.Offering?
    ensures var x := ss[j].txns[t];
            && (x.phase.allowed <==> AuthorityRows(ss[i], x.auth))
            && (Succeeds(x) ==> x.phase.allowed)
            && (x.phase.allowed && !Succeeds(x) ==> forall v :: 1 <= v <= 5 ==> TakenBetween(ss, x.auth, v, i, j))
    ensures var x := ss[j].txns[t];
            var a := x.auth;
            Succeeds(x) ==>
              && a.leaseId in ss[j + 1].leases
              && var slot := ss[j + 1].leases[a.leaseId].activeSlot;
              && 1 <= slot <= 5 && !SlotTaken(ss[i], a, slot)
              && (forall v :: 1 <= v < slot ==> TakenBetween(ss, a, v, i, j))
              && ss[j + 1].leases[a.leaseId] ==
                   Lease(a.organization, a.connection, a.integration, a.user, a.provider, a.accessMode, OwnId(a.leaseId),
                         Pending, slot, x.startedAt + 120_000, None, 0, None, None)
  {
    hide Apply, Init, AuthorityRows, SlotTaken, Increasing;
    RunStep(ss, acts, j);
    i := OfferSnapshot(ss, acts, j, t);
    ExpiryOfReservation(ss, acts, j, t);
    CommitIsEffect(ss[j], acts[j]);
  }

  // ---- Claims ---------------------------------------------------------------------------------------------------

  /** Nobody owns the gate, or its owner's claim is more than five minutes old. */
  predicate FreeOrStale(s: State, r: RowId, at: Time) {
    r in s.gates ==>
      s.gates[r].claimId == None || (s.gates[r].claimedAt.Some? && s.gates[r].claimedAt.value + 300_000 < at)
  }

  /** The row a claim may take: of the target's organization and user, not deleted, still active. */
  predicate ClaimableRow(s: State, target: Target, at: Time) {
    match target
    case MemberTarget(o, m, u) =>
      m in s.members && s.members[m].organization == o && s.members[m].user == u && FreeOrStale(s, MemberRow(m), at)
    case ConnectionTarget(o, c) =>
      && c in s.connections && s.connections[c].organization == o && !s.connections[c].deleted
      && FreeOrStale(s, ConnectionRow(c), at)
    case IntegrationTarget(o, i) =>
      && i in s.integrations && s.integrations[i].organization == o && s.integrations[i].active
      && !s.integrations[i].revoked && FreeOrStale(s, IntegrationRow(i), at)
  }

  lemma ClaimMeansRow(s: State, target: Target, at: Time)
    ensures CanClaim(s, target, at) <==> ClaimableRow(s, target, at)
  {
  }

  predicate SameClaim(s: State, s': State, t: Id) {
    && t in s.txns && t in s'.txns && s.txns[t].Claiming? && s'.txns[t].Claiming?
    && s.txns[t].target == s'.txns[t].target && s.txns[t].claimId == s'.txns[t].claimId && s.txns[t].at == s'.txns[t].at
  }

  ghost predicate ClaimSnapshotAt(ss: seq<State>, acts: seq<Action>, t: Id, i: nat, j: nat)
    requires |ss| == |acts| + 1 && j < |ss|
  {
    i < j && acts[i] == SnapshotClaim(t) && forall n :: i <= n <= j ==> SameClaim(ss[i], ss[n], t)
  }

  predicate SnapshotTaken(s: State, t: Id) {
    t in s.txns && s.txns[t].Claiming? && (s.txns[t].step.Waiting? || s.txns[t].step.Locked?)
  }

  lemma ClaimStep(s: State, a: Action, t: Id)
    requires Enabled(s, a) && SnapshotTaken(Apply(s, a), t)
    ensures SameClaim(s, Apply(s, a), t)
    ensures if a == SnapshotClaim(t) then Apply(s, a).txns[t].seen == CanClaim(s, s.txns[t].target, s.txns[t].at)
            else SnapshotTaken(s, t) && Apply(s, a).txns[t].seen == s.txns[t].seen
  {
    hide CanClaim;
    if !ActsOn(a, t) {
      TxnFrame(s, a, t);
    }
  }

  lemma {:induction false} ClaimSnapshot(ss: seq<State>, acts: seq<Action>, j: nat, t: Id) returns (i: nat)
    requires IsRun(ss, acts) && j < |ss| && SnapshotTaken(ss[j], t)
    ensures |ss| == |acts| + 1 && ClaimSnapshotAt(ss, acts, t, i, j)
    ensures ss[j].txns[t].seen <==> ClaimableRow(ss[i], ss[j].txns[t].target, ss[j].txns[t].at)
    decreases j
  {
    hide Apply, Enabled, Init, CanClaim, ClaimableRow;
    assert j > 0 by { NoTxnsAtFirst(ss, acts); }
    RunStep(ss, acts, j - 1);
    ClaimStep(ss[j - 1], acts[j - 1], t);
    if acts[j - 1] == SnapshotClaim(t) {
      i := j - 1;
      ClaimMeansRow(ss[i], ss[i].txns[t].target, ss[i].txns[t].at);
    } else {
      i := ClaimSnapshot(ss, acts, j - 1, t);
    }
  }

  /** A claim's statement hits exactly when the row was claimable in its snapshot and still is when the
      lock is held, both by the time the claim read before its statement began. */
  lemma ClaimAnswersExactly(ss: seq<State>, acts: seq<Action>, k: nat, t: Id) returns (i: nat)
    requires IsRun(ss, acts) && k < |acts| && acts[k] == WriteClaim(t) && t in ss[k].txns && ss[k].txns[t].Claiming?
    ensures |ss| == |acts| + 1 && ClaimSnapshotAt(ss, acts, t, i, k)
    ensures t in ss[k + 1].txns && ss[k + 1].txns[t].Claiming?
    ensures var x := ss[k].txns[t];
            ss[k + 1].txns[t].step == Written(ClaimableRow(ss[i], x.target, x.at) && ClaimableRow(ss[k], x.target, x.at))
  {
    hide Init, CanClaim, ClaimableRow;
    RunStep(ss, acts, k);
    i := ClaimSnapshot(ss, acts, k, t);
    ClaimMeansRow(ss[k], ss[k].txns[t].target, ss[k].txns[t].at);
  }

  /** The row a release, clear or renewal may touch; an integration need not be active any more. */
  predicate UpdatableRow(s: State, target: Target) {
    match target
    case MemberTarget(o, m, u) => m in s.members && s.members[m].organization == o && s.members[m].user == u
    case ConnectionTarget(o, c) => c in s.connections && s.connections[c].organization == o && !s.connections[c].deleted
    case IntegrationTarget(o, i) => i in s.integrations && s.integrations[i].organization == o
  }

  /** A release or clear goes through exactly when no other statement holds the row, the row is still
      the target's, its revocation is pending, and this claim's id is the one on it. */
  lemma UpdatesExactly(s: State, id: Id, change: Change)
    requires id in s.claims && !change.Renew?
    ensures var target := s.claims[id].target;
            var r := RowOf(target);
            Enabled(s, Update(id, change)) <==>
            !RowLocked(s, r) && UpdatableRow(s, target) && r in s.gates
            && s.gates[r].pendingAt.Some? && s.gates[r].claimId == Some(id)
  {
    hide RowLocked;
  }

  /** What goes through changes the three columns of that row alone: a release keeps the pending time, a
      clear does not, and a renewal puts the new id and time in. */
  lemma UpdateEffects(s: State, id: Id, change: Change)
    requires Enabled(s, Update(id, change))
    ensures var r := RowOf(s.claims[id].target);
            var t := Apply(s, Update(id, change));
            && r in s.gates && t.gates.Keys == s.gates.Keys
            && (forall q :: q in s.gates && q != r ==> t.gates[q] == s.gates[q])
            && t.gates[r].pendingAt == (if change.Clear? then None else s.gates[r].pendingAt)
            && t.gates[r].claimId == (if change.Renew? then Some(change.newId) else None)
            && t.gates[r].claimedAt == (if change.Renew? then Some(change.at) else None)
            && t.members == s.members && t.connections == s.connections && t.integrations == s.integrations
            && t.leases == s.leases
  {
    hide RowLocked;
  }

  /** The pending time a claim hands out: that of the episode it found, or its own. */
  function EpisodeTime(s: State, r: RowId, at: Time): Time {
    if r in s.gates && s.gates[r].pendingAt.Some? then s.gates[r].pendingAt.value else at
  }

  /** What a hit leaves: its row's three columns, the claim handed out and, if it opened a connection's
      episode, that connection's revision. */
  ghost predicate LeavesClaim(s: State, s': State, target: Target, id: Id, at: Time) {
    var r, since := RowOf(target), EpisodeTime(s, RowOf(target), at);
    && s'.gates == s.gates[r := Gate(Some(since), Some(at), Some(id))]
    && s'.claims == s.claims[id := IssuedClaim(target, GateClaim(id, at, since, since == at))]
    && s'.connections.Keys == s.connections.Keys
    && forall c :: c in s.connections ==>
         s'.connections[c] == s.connections[c].(revision := s.connections[c].revision
           + (if r == ConnectionRow(c) && !(r in s.gates && s.gates[r].pendingAt.Some?) then 1 else 0))
  }

  lemma ClaimEffectLeaves(s: State, target: Target, id: Id, at: Time)
    ensures LeavesClaim(s, ClaimEffect(s, target, id, at), target, id, at)
    ensures var s' := ClaimEffect(s, target, id, at);
            s' == s.(gates := s'.gates, connections := s'.connections, claims := s'.claims)
  {
  }

  /** What a committed claim changes: nothing unless it hit, and then what a hit leaves. */
  lemma ClaimCommits(s: State, t: Id)
    requires Enabled(s, CommitClaim(t))
    ensures var x, s' := s.txns[t], Apply(s, CommitClaim(t));
            && s' == s.(gates := s'.gates, connections := s'.connections, claims := s'.claims, txns := s.txns - {t})
            && (!x.step.hit ==> s'.gates == s.gates && s'.connections == s.connections && s'.claims == s.claims)
            && (x.step.hit ==> LeavesClaim(s, s', x.target, x.claimId, x.at))
  {
    var x := s.txns[t];
    ClaimEffectLeaves(s, x.target, x.claimId, x.at);
    hide ClaimEffect, EditAllowed, RowLocked, LeaseLocked, SlotInFlight, Holds;
  }

  // ---- Drains ---------------------------------------------------------------------------------------------------

  /** What a filter selects: the leases of its organization that agree with every part of it that is given. */
  predicate SelectedRow(f: LeaseFilter, id: Id, l: Lease) {
    && l.organization == f.organization
    && (f.leaseId == None || f.leaseId == Some(id)) && (f.user == None || f.user == Some(l.user))
    && (f.connection == None || f.connection == Some(l.connection))
    && (f.integration == None || f.integration == Some(l.integration))
  }

  lemma FiltersSelect(f: LeaseFilter, id: Id, l: Lease)
    ensures Matches(f, id, l) <==> SelectedRow(f, id, l)
  {
  }

  /** The live leases that its filter selects, as they are when the drain reads them. */
  ghost predicate DrainReads(s: State, f: LeaseFilter, l: Id) {
    l in s.leases && s.leases[l].revokedAt == None && SelectedRow(f, l, s.leases[l])
  }

  /** The step at which the drain read its rows: exactly the live leases that its filter selects. */
  ghost predicate DrainBegan(ss: seq<State>, acts: seq<Action>, b: nat, d: Id, f: LeaseFilter)
    requires |ss| == |acts| + 1
  {
    && b < |acts| && acts[b] == BeginDrain(d, f) && d in ss[b + 1].drains
    && forall m :: m in ss[b + 1].drains[d].todo <==> DrainReads(ss[b], f, m)
  }

  lemma DrainBegins(s: State, d: Id, f: LeaseFilter)
    requires Enabled(s, BeginDrain(d, f))
    ensures var t := Apply(s, BeginDrain(d, f));
            && d in t.drains && t.drains[d].filter == f
            && (forall m :: m in t.drains[d].todo <==> DrainReads(s, f, m))
            && (forall m :: m in t.drains[d].todo ==> m in s.leases && t.drains[d].todo[m] == s.leases[m])
  {
  }

  lemma DrainKeepsRows(s: State, a: Action, d: Id)
    requires Enabled(s, a) && d in s.drains
    ensures d in Apply(s, a).drains && Apply(s, a).drains[d].filter == s.drains[d].filter
    ensures forall l :: l in Apply(s, a).drains[d].todo ==>
              l in s.drains[d].todo && Apply(s, a).drains[d].todo[l] == s.drains[d].todo[l]
  {
    hide Apply, Enabled;
    if a.BeginDrain? {
      BeginningKeepsDrains(s, a, d);
    } else if a.DrainMark? || a.DrainDefer? {
      DrainStepTakes(s, a, d);
    } else {
      DrainsStay(s, a);
    }
  }

  lemma BeginningKeepsDrains(s: State, a: Action, d: Id)
    requires Enabled(s, a) && a.BeginDrain? && d in s.drains
    ensures d in Apply(s, a).drains && Apply(s, a).drains[d] == s.drains[d]
  {
    hide Matches;
  }

  lemma DrainStepTakes(s: State, a: Action, d: Id)
    requires Enabled(s, a) && (a.DrainMark? || a.DrainDefer?) && d in s.drains
    ensures d in Apply(s, a).drains && Apply(s, a).drains[d].filter == s.drains[d].filter
    ensures Apply(s, a).drains[d].todo == if d == a.drain then s.drains[d].todo - {a.lease} else s.drains[d].todo
  {
    hide LeaseLocked, MustWait;
  }

  lemma NewDrainBegins(s: State, a: Action, d: Id)
    requires Enabled(s, a) && d !in s.drains && d in Apply(s, a).drains
    ensures a == BeginDrain(d, Apply(s, a).drains[d].filter)
  {
    if a.BeginDrain? || a.DrainMark? || a.DrainDefer? {
      hide LeaseLocked, DrainReads, Matches, MustWait;
    } else {
      hide Apply, Enabled;
      DrainsStay(s, a);
    }
  }

  /** A drain works only leases that were live and selected by its filter when it began, and it has
      each as it was then. */
  lemma {:induction false} DrainsWorkTheirOwn(ss: seq<State>, acts: seq<Action>, j: nat, d: Id) returns (b: nat)
    requires IsRun(ss, acts) && j < |ss| && d in ss[j].drains
    ensures |ss| == |acts| + 1 && b < j && DrainBegan(ss, acts, b, d, ss[j].drains[d].filter)
    ensures forall l :: l in ss[j].drains[d].todo ==>
              DrainReads(ss[b], ss[j].drains[d].filter, l) && ss[j].drains[d].todo[l] == ss[b].leases[l]
    decreases j
  {
    assert j > 0;
    assert StepAt(ss, acts, j - 1);
    hide Enabled, Apply, DrainReads;
    if d in ss[j - 1].drains {
      DrainKeepsRows(ss[j - 1], acts[j - 1], d);
      b := DrainsWorkTheirOwn(ss, acts, j - 1, d);
    } else {
      NewDrainBegins(ss[j - 1], acts[j - 1], d);
      b := j - 1;
      DrainBegins(ss[b], d, ss[j].drains[d].filter);
    }
  }

  /** A drain may mark exactly the rows still on its list that no finalization has locked, but neither an
      IAM login nor a reservation that has not expired. */
  lemma DrainMarksExactly(s: State, d: Id, id: Id)
    ensures Enabled(s, DrainMark(d, id)) <==>
            && d in s.drains && id in s.drains[d].todo && id in s.leases && !LeaseLocked(s, id)
            && var l := s.drains[d].todo[id];
            l.expiresAt <= s.now || (l.provider != GcpCloudSql && l.kind != Pending)
  {
    hide LeaseLocked;
  }
}
