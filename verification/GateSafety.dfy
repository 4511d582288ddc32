/** Safety of the gate protocol over every interleaving: what each statement keeps, and what
    follows for whole runs. */
module GateSafety {
  import opened Wrappers
  import opened Gates
  import opened Leases
  import opened GateProtocol

  /** Rows and gates belong together, a user has one member row, and the CHECK constraint holds. */
  ghost predicate RowsInv(s: State) {
    && (forall r :: r in s.gates ==>
          (match r
           case MemberRow(m) => m in s.members
           case ConnectionRow(c) => c in s.connections
           case IntegrationRow(i) => i in s.integrations))
    && (forall m, n :: (m in s.members && n in s.members && s.members[m].organization == s.members[n].organization
                        && s.members[m].user == s.members[n].user) ==> m == n)
    && (forall r :: r in s.gates ==> Consistent(s.gates[r]))
  }

  /** Advisory locks exclude: nobody holds a key that another transaction holds exclusively. */
  ghost predicate LocksInv(s: State) {
    && (forall t, u :: t in s.txns && u in s.txns && t != u && HasLock(s.txns[t])
                       ==> !Holds(s.txns[u], KeyOf(s.txns[t].target)))
    && (forall t :: t in s.txns && s.txns[t].Reading? ==> HeldCount(s.txns[t].phase) <= 3)
    && (forall t :: t in s.txns && s.txns[t].Claiming? && s.txns[t].step == Written(true) ==>
                    RowMatches(s, s.txns[t].target))
  }

  /** The transaction's snapshot found its authority intact. */
  predicate Passed(x: Txn) {
    && x.Reading?
    && match x.phase
       case Locking(_) => false
       case Offering(allowed, _, _) => allowed
       case Matched(seen) => seen
       case Answered(hit) => hit
  }

  ghost predicate AllOpen(s: State, a: Authority) {
    && !KeyPending(s, KeyAt(a, 0))
    && !KeyPending(s, KeyAt(a, 1))
    && !KeyPending(s, KeyAt(a, 2))
  }

  /** What the shared locks are for: until a transaction ends, the gates its snapshot saw open stay open. */
  ghost predicate OpenInv(s: State) {
    && (forall t :: t in s.txns && Passed(s.txns[t]) ==> AllOpen(s, s.txns[t].auth))
    && (forall t :: (t in s.txns && s.txns[t].Reading? && s.txns[t].phase.Offering?
                     && (s.txns[t].phase.offered != [] || s.txns[t].phase.inserted.Some?)) ==> s.txns[t].phase.allowed)
  }

  lemma PassedHoldsAll(x: Txn, k: LockKey)
    requires Passed(x) && (k == KeyAt(x.auth, 0) || k == KeyAt(x.auth, 1) || k == KeyAt(x.auth, 2))
    ensures HoldsShared(x, k)
  {
  }

  ghost predicate Inv(s: State) {
    RowsInv(s) && LocksInv(s) && OpenInv(s)
  }

  predicate SameRows(s: State, s': State) {
    s.members == s'.members && s.connections == s'.connections && s.integrations == s'.integrations && s.gates == s'.gates
  }

  predicate MovesTxn(a: Action) {
    || a.BeginClaim? || a.SnapshotClaim? || a.LockExclusive? || a.WriteClaim? || a.BeginRead? || a.LockShared? || a.Snapshot?
    || a.TrySlot? || a.WriteFinal? || a.CommitRead? || a.Abort?
  }

  /** Statements other than a claim's commit, a gate update and an edit leave rows and gates alone. */
  lemma RowsFrame(s: State, a: Action)
    requires Enabled(s, a) && !a.CommitClaim? && !a.Update? && !a.Edit?
    ensures SameRows(s, Apply(s, a))
  {
    hide Apply, Enabled;
    if MovesTxn(a) {
      TxnsFrame(s, a);
    } else {
      LeaseStepsFrame(s, a);
    }
  }

  /** A transaction at work touches transactions only; a reading one that commits touches leases too. */
  lemma OnlyTxnsMove(s: State, a: Action)
    requires Enabled(s, a) && MovesTxn(a) && !a.CommitRead?
    ensures Apply(s, a) == s.(txns := Apply(s, a).txns, used := Apply(s, a).used)
  {
    hide EditAllowed, SlotHeld, SlotInFlight, RowLocked, LeaseLocked, Holds, HoldsExclusive, AuthorityHolds, CanClaim, CanFinalize,
         CanDeliver, FreeSlots, SnapshotPhase, ClaimEffect, ReadEffect, Change1;
  }

  lemma CommitsMoveLeases(s: State, a: Action)
    requires Enabled(s, a) && a.CommitRead?
    ensures Apply(s, a) == s.(txns := s.txns - {a.txn}, leases := ReadEffect(s, s.txns[a.txn]).leases)
  {
    ReadEffectMovesLeases(s, s.txns[a.txn]);
    hide ReadEffect, EditAllowed, RowLocked, LeaseLocked, SlotInFlight, Holds, HoldsExclusive;
  }

  lemma ReadEffectMovesLeases(s: State, x: Txn)
    requires x.Reading?
    ensures ReadEffect(s, x) == s.(leases := ReadEffect(s, x).leases)
  {
    hide HasInsert, InsertOf;
  }

  lemma TxnsFrame(s: State, a: Action)
    requires Enabled(s, a) && MovesTxn(a)
    ensures SameRows(s, Apply(s, a)) && Apply(s, a).claims == s.claims && Apply(s, a).drains == s.drains
  {
    hide Apply, Enabled;
    if a.CommitRead? {
      CommitsMoveLeases(s, a);
    } else {
      OnlyTxnsMove(s, a);
    }
  }

  /** Only drains change drains. */
  lemma DrainsStay(s: State, a: Action)
    requires Enabled(s, a) && !a.BeginDrain? && !a.DrainMark? && !a.DrainDefer?
    ensures Apply(s, a).drains == s.drains
  {
    if MovesTxn(a) {
      hide Apply, Enabled;
      TxnsFrame(s, a);
    } else {
      hide EditAllowed, RowLocked, LeaseLocked, Owns, RowUpdatable, SameLease, Change1;
    }
  }

  lemma LeaseStepsFrame(s: State, a: Action)
    requires Enabled(s, a) && (a.Tick? || a.Touch? || a.BeginDrain? || a.DrainMark? || a.DrainDefer?)
    ensures SameRows(s, Apply(s, a))
  {
    hide Enabled, SlotHeld, AuthorityHolds, CanClaim, CanFinalize, CanDeliver, FreeSlots, SnapshotPhase, ClaimEffect, Change1;
  }

  lemma ClaimEffectKeepsRows(s: State, target: Target, id: Id, at: Time)
    requires RowsInv(s) && RowMatches(s, target)
    ensures RowsInv(ClaimEffect(s, target, id, at))
  {
  }

  lemma ClaimKeepsRows(s: State, a: Action)
    requires RowsInv(s) && LocksInv(s) && Enabled(s, a) && a.CommitClaim?
    ensures RowsInv(Apply(s, a))
  {
    var x := s.txns[a.txn];
    if x.step.hit {
      ClaimEffectKeepsRows(s, x.target, x.claimId, x.at);
      assert SameRows(ClaimEffect(s, x.target, x.claimId, x.at), Apply(s, a));
    } else {
      assert SameRows(s, Apply(s, a));
    }
  }

  lemma UpdateKeepsRows(s: State, a: Action)
    requires RowsInv(s) && Enabled(s, a) && a.Update?
    ensures RowsInv(Apply(s, a))
  {
  }

  lemma EditKeepsRows(s: State, a: Action)
    requires RowsInv(s) && Enabled(s, a) && a.Edit?
    ensures RowsInv(Apply(s, a))
  {
  }

  lemma RowsKept(s: State, a: Action)
    requires RowsInv(s) && LocksInv(s) && Enabled(s, a)
    ensures RowsInv(Apply(s, a))
  {
    if a.CommitClaim? {
      ClaimKeepsRows(s, a);
    } else if a.Update? {
      UpdateKeepsRows(s, a);
    } else if a.Edit? {
      EditKeepsRows(s, a);
    } else {
      RowsFrame(s, a);
    }
  }

  predicate ActsOn(a: Action, t: Id) {
    match a
    case BeginClaim(u, _, _) => t == u
    case SnapshotClaim(u) => t == u
    case LockExclusive(u) => t == u
    case WriteClaim(u) => t == u
    case CommitClaim(u) => t == u
    case BeginRead(u, _, _) => t == u
    case LockShared(u) => t == u
    case Snapshot(u) => t == u
    case TrySlot(u) => t == u
    case WriteFinal(u) => t == u
    case CommitRead(u) => t == u
    case Abort(u) => t == u
    case _ => false
  }

  /** A statement moves only its own transaction. */
  lemma TxnFrame(s: State, a: Action, u: Id)
    requires Enabled(s, a) && !ActsOn(a, u)
    ensures u in Apply(s, a).txns <==> u in s.txns
    ensures u in s.txns ==> Apply(s, a).txns[u] == s.txns[u]
  {
  }

  /** Apart from the three lock statements, no statement makes a transaction hold a new key. */
  lemma LocksOnlyGrowByLocking(s: State, a: Action, t: Id, k: LockKey)
    requires LocksInv(s) && Enabled(s, a) && ActsOn(a, t) && t in Apply(s, a).txns && Holds(Apply(s, a).txns[t], k)
    ensures t in s.txns && s.txns[t].Claiming? == Apply(s, a).txns[t].Claiming?
    ensures Holds(s.txns[t], k)
            || (a.LockExclusive? && k == KeyOf(s.txns[t].target))
            || (a.LockShared? && k == KeyAt(s.txns[t].auth, s.txns[t].phase.held))
  {
  }

  lemma ExclusionKept(s: State, a: Action, t: Id, u: Id)
    requires LocksInv(s) && Enabled(s, a)
    requires t != u && t in Apply(s, a).txns && u in Apply(s, a).txns
    requires HasLock(Apply(s, a).txns[t])
    ensures !Holds(Apply(s, a).txns[u], KeyOf(Apply(s, a).txns[t].target))
  {
    var s' := Apply(s, a);
    var k := KeyOf(s'.txns[t].target);
    assert HoldsExclusive(s'.txns[t], k);
    if ActsOn(a, t) {
      TxnFrame(s, a, u);
      LocksOnlyGrowByLocking(s, a, t, k);
    } else {
      TxnFrame(s, a, t);
      if ActsOn(a, u) {
        if Holds(s'.txns[u], k) {
          LocksOnlyGrowByLocking(s, a, u, k);
        }
      } else {
        TxnFrame(s, a, u);
      }
    }
  }

  lemma MatchSurvivesEdit(s: State, a: Action, target: Target)
    requires Enabled(s, a) && a.Edit? && RowMatches(s, target) && RowLocked(s, RowOf(target))
    ensures RowMatches(Apply(s, a), target)
  {
  }

  lemma MatchSurvivesClaim(s: State, a: Action, target: Target)
    requires Enabled(s, a) && (a.CommitClaim? || a.Update?) && RowMatches(s, target)
    ensures RowMatches(Apply(s, a), target)
  {
  }

  lemma WrittenKept(s: State, a: Action, t: Id)
    requires LocksInv(s) && Enabled(s, a)
    requires t in Apply(s, a).txns && Apply(s, a).txns[t].Claiming? && Apply(s, a).txns[t].step == Written(true)
    ensures RowMatches(Apply(s, a), Apply(s, a).txns[t].target)
  {
    var target := Apply(s, a).txns[t].target;
    if ActsOn(a, t) {
      WriteMatches(s, a, t);
    } else {
      TxnFrame(s, a, t);
      assert LocksRow(s.txns[t], RowOf(target)) && RowLocked(s, RowOf(target));
      if a.Edit? {
        MatchSurvivesEdit(s, a, target);
      } else if a.CommitClaim? || a.Update? {
        MatchSurvivesClaim(s, a, target);
      } else {
        RowsFrame(s, a);
      }
    }
  }

  lemma WriteMatches(s: State, a: Action, t: Id)
    requires Enabled(s, a) && ActsOn(a, t)
    requires t in Apply(s, a).txns && Apply(s, a).txns[t].Claiming? && Apply(s, a).txns[t].step == Written(true)
    ensures RowMatches(Apply(s, a), Apply(s, a).txns[t].target)
  {
    RowsFrame(s, a);
  }

  lemma HeldCountKept(s: State, a: Action, t: Id)
    requires LocksInv(s) && Enabled(s, a) && t in Apply(s, a).txns && Apply(s, a).txns[t].Reading?
    ensures HeldCount(Apply(s, a).txns[t].phase) <= 3
  {
  }

  lemma LocksKept(s: State, a: Action)
    requires LocksInv(s) && Enabled(s, a)
    ensures LocksInv(Apply(s, a))
  {
    forall t, u | t != u && t in Apply(s, a).txns && u in Apply(s, a).txns
                  && HasLock(Apply(s, a).txns[t])
      ensures !Holds(Apply(s, a).txns[u], KeyOf(Apply(s, a).txns[t].target))
    {
      ExclusionKept(s, a, t, u);
    }
    forall t | t in Apply(s, a).txns && Apply(s, a).txns[t].Reading?
      ensures HeldCount(Apply(s, a).txns[t].phase) <= 3
    {
      HeldCountKept(s, a, t);
    }
    forall t | t in Apply(s, a).txns && Apply(s, a).txns[t].Claiming? && Apply(s, a).txns[t].step == Written(true)
      ensures RowMatches(Apply(s, a), Apply(s, a).txns[t].target)
    {
      WrittenKept(s, a, t);
    }
  }

  lemma UpdateOpensNothing(s: State, a: Action, k: LockKey)
    requires Inv(s) && Enabled(s, a) && a.Update? && KeyPending(Apply(s, a), k)
    ensures KeyPending(s, k)
  {
    var r :| RowHasKey(Apply(s, a), r, k) && GateOf(Apply(s, a), r).pendingAt.Some?;
    assert RowHasKey(s, r, k) && GateOf(s, r).pendingAt.Some?;
  }

  lemma EditOpensNothing(s: State, a: Action, k: LockKey)
    requires Inv(s) && Enabled(s, a) && a.Edit? && KeyPending(Apply(s, a), k)
    ensures KeyPending(s, k)
  {
    var r :| RowHasKey(Apply(s, a), r, k) && GateOf(Apply(s, a), r).pendingAt.Some?;
    assert RowHasKey(s, r, k) && GateOf(s, r).pendingAt.Some?;
  }

  lemma PendingFrame(s: State, s': State, k: LockKey)
    requires SameRows(s, s') && KeyPending(s', k)
    ensures KeyPending(s, k)
  {
    var r :| RowHasKey(s', r, k) && GateOf(s', r).pendingAt.Some?;
    assert RowHasKey(s, r, k) && GateOf(s, r).pendingAt.Some?;
  }

  lemma ClaimOpensItsKey(s: State, a: Action, k: LockKey)
    requires Inv(s) && Enabled(s, a) && a.CommitClaim?
    requires !KeyPending(s, k) && KeyPending(Apply(s, a), k)
    ensures s.txns[a.txn].step == Written(true) && KeyOf(s.txns[a.txn].target) == k
  {
    var s' := Apply(s, a);
    var x := s.txns[a.txn];
    var r :| RowHasKey(s', r, k) && GateOf(s', r).pendingAt.Some?;
    hide OpenInv, RowsInv;
    assert RowHasKey(s, r, k) && GateOf(s, r).pendingAt.None?;
    if x.step.hit {
      assert RowMatches(s, x.target) && r == RowOf(x.target);
    }
  }

  /** Only a committing claim can make a key pending that was not. */
  lemma OnlyClaimsOpenEpisodes(s: State, a: Action, k: LockKey)
    requires Inv(s) && Enabled(s, a)
    requires !KeyPending(s, k) && KeyPending(Apply(s, a), k)
    ensures a.CommitClaim? && s.txns[a.txn].step == Written(true) && KeyOf(s.txns[a.txn].target) == k
  {
    if a.CommitClaim? {
      ClaimOpensItsKey(s, a, k);
    } else if a.Update? {
      UpdateOpensNothing(s, a, k);
    } else if a.Edit? {
      EditOpensNothing(s, a, k);
    } else {
      RowsFrame(s, a);
      PendingFrame(s, Apply(s, a), k);
    }
  }

  lemma OpenKept(s: State, a: Action)
    requires Inv(s) && Enabled(s, a)
    ensures OpenInv(Apply(s, a))
  {
    var s' := Apply(s, a);
    forall t | t in s'.txns && Passed(s'.txns[t])
      ensures AllOpen(s', s'.txns[t].auth)
    {
      assert t in s.txns;
      forall n: nat | n < 3
        ensures !KeyPending(s', KeyAt(s'.txns[t].auth, n))
      {
        var k := KeyAt(s'.txns[t].auth, n);
        SnapshotSeesOpen(s, a, t, k);
        PassedHoldsAll(s'.txns[t], k);
        if KeyPending(s', k) {
          OnlyClaimsOpenEpisodes(s, a, k);
        }
      }
    }
  }

  lemma SnapshotSeesOpen(s: State, a: Action, t: Id, k: LockKey)
    requires Inv(s) && Enabled(s, a) && t in s.txns
    requires t in Apply(s, a).txns && Passed(Apply(s, a).txns[t])
    requires var x := Apply(s, a).txns[t]; k == KeyAt(x.auth, 0) || k == KeyAt(x.auth, 1) || k == KeyAt(x.auth, 2)
    ensures !KeyPending(s, k)
  {
    var x := Apply(s, a).txns[t];
    if !Passed(s.txns[t]) {
      assert a.Snapshot? && a.txn == t && AuthorityHolds(s, x.auth);
    } else {
      assert x.auth == s.txns[t].auth;
    }
  }

  lemma StepKeepsInv(s: State, a: Action)
    requires Inv(s) && Enabled(s, a)
    ensures Inv(Apply(s, a))
  {
    RowsKept(s, a);
    LocksKept(s, a);
    OpenKept(s, a);
  }

  lemma InitHolds(s: State)
    requires Init(s)
    ensures Inv(s)
  {
  }

  lemma {:induction false} RunKeepsInv(ss: seq<State>, acts: seq<Action>, k: nat)
    requires IsRun(ss, acts) && k < |ss|
    ensures Inv(ss[k])
  {
    hide Apply, Enabled, Init, Inv;
    if k == 0 {
      InitHolds(ss[0]);
    } else {
      RunKeepsInv(ss, acts, k - 1);
      assert StepAt(ss, acts, k - 1);
      StepKeepsInv(ss[k - 1], acts[k - 1]);
    }
  }
}
