/** Lease rows under the gate protocol: fresh ids, locked finalizations and the slot index. */
module LeaseSafety {
  import opened Wrappers
  import opened Gates
  import opened Leases
  import opened GateProtocol
  import opened GateSafety

  predicate Reserving(x: Txn) {
    x.Reading? && x.purpose.Reserve?
  }

  /** A reservation's lease id names no row yet and no other reservation. */
  ghost predicate FreshInv(s: State) {
    && s.leases.Keys <= s.used
    && (forall t :: t in s.txns && Reserving(s.txns[t]) ==>
          s.txns[t].auth.leaseId in s.used && s.txns[t].auth.leaseId !in s.leases)
    && (forall t, u :: (t in s.txns && u in s.txns && t != u && Reserving(s.txns[t]) && Reserving(s.txns[u])) ==>
          s.txns[t].auth.leaseId != s.txns[u].auth.leaseId)
  }

  /** A finalization that has written locks a live reservation of its own authority. */
  ghost predicate FinalsInv(s: State) {
    && (forall t :: t in s.txns && HasFinal(s.txns[t]) ==> s.txns[t].auth.leaseId in s.leases)
    && (forall t :: t in s.txns && HasFinal(s.txns[t]) ==>
          var l := s.leases[s.txns[t].auth.leaseId];
          SameAuthority(l, s.txns[t].auth) && Live(l) && l.kind == Pending)
    && (forall t, u :: (t in s.txns && u in s.txns && t != u && HasFinal(s.txns[t]) && HasFinal(s.txns[u])) ==>
          s.txns[t].auth.leaseId != s.txns[u].auth.leaseId)
  }

  /** The slot columns: in range, and unique among live rows and uncommitted inserts together. */
  ghost predicate SlotsInv(s: State) {
    && (forall l :: l in s.leases ==> 1 <= s.leases[l].activeSlot <= SLOTS)
    && (forall l, m :: (l in s.leases && m in s.leases && l != m && Live(s.leases[l]) && Live(s.leases[m])) ==>
          !SameSlot(s.leases[l], s.leases[m]))
    && (forall t :: t in s.txns && HasInsert(s.txns[t]) ==> 1 <= s.txns[t].phase.inserted.value <= SLOTS)
    && (forall t, l :: (t in s.txns && l in s.leases && HasInsert(s.txns[t]) && Live(s.leases[l])) ==>
          !SameSlot(s.leases[l], InsertOf(s.txns[t])))
    && (forall t, u :: (t in s.txns && u in s.txns && t != u && HasInsert(s.txns[t]) && HasInsert(s.txns[u])) ==>
          !SameSlot(InsertOf(s.txns[t]), InsertOf(s.txns[u])))
    && (forall t, i :: (t in s.txns && s.txns[t].Reading? && s.txns[t].phase.Offering? && 0 <= i < |s.txns[t].phase.offered|) ==>
          1 <= s.txns[t].phase.offered[i] <= SLOTS)
  }

  lemma LeasesFrame(s: State, a: Action)
    requires Enabled(s, a) && !a.CommitRead? && !a.Touch? && !a.DrainMark?
    ensures Apply(s, a).leases == s.leases
  {
    if MovesTxn(a) {
      hide Apply, Enabled;
      OnlyTxnsMove(s, a);
    } else {
      hide EditAllowed, RowLocked, LeaseLocked, Owns, RowUpdatable, Change1;
    }
  }

  /** Drains and sweeps never create, revive or re-identify a row. */
  lemma OthersOnlyRetire(s: State, a: Action, l: Id)
    requires Enabled(s, a) && (a.Touch? || a.DrainMark?) && l in Apply(s, a).leases
    ensures l in s.leases && SameLease(s.leases[l], Apply(s, a).leases[l])
    ensures Live(Apply(s, a).leases[l]) ==> Live(s.leases[l])
    ensures Apply(s, a).leases[l].kind == s.leases[l].kind
    ensures Apply(s, a).leases[l].credentialId == s.leases[l].credentialId
    ensures LeaseLocked(s, l) ==> Apply(s, a).leases[l] == s.leases[l]
  {
  }

  lemma TxnKept(s: State, a: Action, t: Id)
    requires Enabled(s, a) && t in Apply(s, a).txns && !a.BeginRead? && !a.BeginClaim?
    ensures t in s.txns && s.txns[t].Reading? == Apply(s, a).txns[t].Reading?
    ensures s.txns[t].Reading? ==>
              s.txns[t].auth == Apply(s, a).txns[t].auth && s.txns[t].purpose == Apply(s, a).txns[t].purpose
  {
  }

  lemma FreshKept(s: State, a: Action)
    requires FreshInv(s) && Enabled(s, a)
    ensures FreshInv(Apply(s, a))
  {
    if a.BeginRead? || a.BeginClaim? {
      FreshAtBegin(s, a);
      hide Enabled, Apply, FreshInv;
    } else if a.CommitRead? {
      FreshAtCommit(s, a);
      hide Enabled, Apply, FreshInv;
    } else {
      hide Enabled, Apply;
      var s' := Apply(s, a);
      forall t | t in s'.txns
        ensures t in s.txns && Reserving(s.txns[t]) == Reserving(s'.txns[t])
        ensures Reserving(s.txns[t]) ==> s.txns[t].auth.leaseId == s'.txns[t].auth.leaseId
      {
        TxnKept(s, a, t);
      }
      UsedGrows(s, a);
      if a.Touch? || a.DrainMark? {
        RetiringKeepsKeys(s, a);
      } else {
        LeasesFrame(s, a);
      }
    }
  }

  lemma FreshAtBegin(s: State, a: Action)
    requires FreshInv(s) && Enabled(s, a) && (a.BeginRead? || a.BeginClaim?)
    ensures FreshInv(Apply(s, a))
  {
  }

  lemma FreshAtCommit(s: State, a: Action)
    requires FreshInv(s) && Enabled(s, a) && a.CommitRead?
    ensures FreshInv(Apply(s, a))
  {
    CommitsMoveLeases(s, a);
    CommitAddsItsRow(s, s.txns[a.txn]);
    hide Apply, Enabled, ReadEffect;
  }

  lemma CommitAddsItsRow(s: State, x: Txn)
    requires x.Reading?
    ensures ReadEffect(s, x).leases.Keys <= s.leases.Keys + (if HasInsert(x) then {x.auth.leaseId} else {})
  {
  }

  lemma RetiringKeepsKeys(s: State, a: Action)
    requires Enabled(s, a) && (a.Touch? || a.DrainMark?)
    ensures Apply(s, a).leases.Keys == s.leases.Keys
  {
    hide LeaseLocked, SameLease, MustWait;
  }

  lemma UsedGrows(s: State, a: Action)
    requires Enabled(s, a)
    ensures s.used <= Apply(s, a).used
  {
    hide EditAllowed, RowLocked, LeaseLocked, SlotInFlight, SlotHeld, Holds, HoldsExclusive, AuthorityHolds, CanClaim, CanFinalize,
         FreeSlots, SnapshotPhase, Owns, RowUpdatable, SameLease, Change1;
  }

  lemma FinalAppears(s: State, a: Action, t: Id)
    requires Enabled(s, a) && ActsOn(a, t) && t in Apply(s, a).txns && HasFinal(Apply(s, a).txns[t])
    ensures a.WriteFinal? && t in s.txns && s.txns[t].Reading?
    ensures Apply(s, a).txns[t].auth == s.txns[t].auth && !LeaseLocked(s, s.txns[t].auth.leaseId)
    ensures CanFinalize(s, s.txns[t].auth, s.txns[t].startedAt, s.txns[t].purpose.credential)
  {
  }

  lemma CommitSparesLocked(s: State, a: Action, t: Id)
    requires FreshInv(s) && FinalsInv(s) && Enabled(s, a) && a.CommitRead? && a.txn != t
    requires t in s.txns && HasFinal(s.txns[t])
    ensures s.txns[t].auth.leaseId in Apply(s, a).leases
    ensures Apply(s, a).leases[s.txns[t].auth.leaseId] == s.leases[s.txns[t].auth.leaseId]
  {
    CommitIsEffect(s, a);
    hide Apply, Enabled;
    var x := s.txns[a.txn];
    assert HasFinal(x) ==> x.auth.leaseId != s.txns[t].auth.leaseId;
  }

  lemma FinalKeepsLease(s: State, a: Action, t: Id)
    requires FreshInv(s) && FinalsInv(s) && Enabled(s, a)
    requires t in Apply(s, a).txns && HasFinal(Apply(s, a).txns[t])
    ensures t in s.txns && s.txns[t].Reading? && Apply(s, a).txns[t].auth == s.txns[t].auth
    ensures var l := s.txns[t].auth.leaseId; l in s.leases && l in Apply(s, a).leases && Apply(s, a).leases[l] == s.leases[l]
  {
    if ActsOn(a, t) {
      FinalAppears(s, a, t);
      LeasesFrame(s, a);
    } else {
      TxnFrame(s, a, t);
      assert LeaseLocked(s, s.txns[t].auth.leaseId);
      if a.CommitRead? {
        CommitSparesLocked(s, a, t);
      } else if a.Touch? || a.DrainMark? {
        LockedRowSurvives(s, a, s.txns[t].auth.leaseId);
      } else {
        LeasesFrame(s, a);
      }
    }
  }

  lemma LockedRowSurvives(s: State, a: Action, l: Id)
    requires Enabled(s, a) && (a.Touch? || a.DrainMark?) && l in s.leases && LeaseLocked(s, l)
    ensures l in Apply(s, a).leases && Apply(s, a).leases[l] == s.leases[l]
  {
  }

  lemma FinalsKept(s: State, a: Action)
    requires FreshInv(s) && FinalsInv(s) && Enabled(s, a)
    ensures FinalsInv(Apply(s, a))
  {
    hide Apply, Enabled;
    var s' := Apply(s, a);
    forall t | t in s'.txns && HasFinal(s'.txns[t])
      ensures s'.txns[t].auth.leaseId in s'.leases
      ensures var l := s'.leases[s'.txns[t].auth.leaseId]; SameAuthority(l, s'.txns[t].auth) && Live(l) && l.kind == Pending
    {
      FinalKeepsLease(s, a, t);
      if ActsOn(a, t) {
        FinalAppears(s, a, t);
      } else {
        TxnFrame(s, a, t);
      }
    }
    forall t, u | t in s'.txns && u in s'.txns && t != u && HasFinal(s'.txns[t]) && HasFinal(s'.txns[u])
      ensures s'.txns[t].auth.leaseId != s'.txns[u].auth.leaseId
    {
      if ActsOn(a, t) {
        FinalAppears(s, a, t);
        TxnFrame(s, a, u);
      } else {
        TxnFrame(s, a, t);
        if ActsOn(a, u) {
          FinalAppears(s, a, u);
        } else {
          TxnFrame(s, a, u);
        }
      }
    }
  }

  // ---- Slots -------------------------------------------------------------------------------

  ghost predicate Increasing(f: seq<int>) {
    forall i, j :: 0 <= i < j < |f| ==> f[i] < f[j]
  }

  /** The free slots from one slot on, in increasing order. */
  ghost predicate ListsFree(s: State, a: Authority, from: int, f: seq<int>) {
    && (forall v :: v in f <==> from <= v <= SLOTS && !SlotHeld(s, a, v))
    && Increasing(f)
  }

  lemma {:induction false} FreeFromMeaning(s: State, a: Authority, from: int)
    requires 1 <= from
    ensures ListsFree(s, a, from, FreeFrom(s, a, from))
    decreases SLOTS + 1 - from
  {
    hide SlotHeld;
    if from <= SLOTS {
      FreeFromMeaning(s, a, from + 1);
      OneMoreSlot(s, a, from, FreeFrom(s, a, from + 1));
      hide ListsFree;
    }
  }

  lemma OneMoreSlot(s: State, a: Authority, from: int, rest: seq<int>)
    requires 1 <= from <= SLOTS && ListsFree(s, a, from + 1, rest)
    ensures ListsFree(s, a, from, (if SlotHeld(s, a, from) then [] else [from]) + rest)
  {
    hide SlotHeld, Increasing;
    if SlotHeld(s, a, from) {
      assert [] + rest == rest;
    } else {
      StillIncreasing(from, rest);
    }
  }

  lemma StillIncreasing(x: int, rest: seq<int>)
    requires Increasing(rest) && forall v :: v in rest ==> x < v
    ensures Increasing([x] + rest)
  {
    var all := [x] + rest;
    forall i, j | 0 <= i < j < |all| ensures all[i] < all[j] {
      assert all[j] == rest[j - 1];
      if i > 0 {
        assert all[i] == rest[i - 1];
      } else {
        assert rest[j - 1] in rest;
      }
    }
  }

  lemma InsertAppears(s: State, a: Action, t: Id)
    requires SlotsInv(s) && Enabled(s, a) && ActsOn(a, t) && t in Apply(s, a).txns && HasInsert(Apply(s, a).txns[t])
    ensures a.TrySlot? && Apply(s, a).leases == s.leases
    ensures var x := Apply(s, a).txns[t]; var slot := x.phase.inserted.value;
            1 <= slot <= SLOTS && !SlotHeld(s, x.auth, slot) && !SlotInFlight(s, x.auth, slot)
  {
  }

  lemma InsertMeetsNoRow(s: State, a: Action, t: Id, l: Id)
    requires SlotsInv(s) && FreshInv(s) && Enabled(s, a)
    requires t in Apply(s, a).txns && HasInsert(Apply(s, a).txns[t])
    requires l in Apply(s, a).leases && Live(Apply(s, a).leases[l])
    ensures !SameSlot(Apply(s, a).leases[l], InsertOf(Apply(s, a).txns[t]))
  {
    var s' := Apply(s, a);
    if ActsOn(a, t) {
      InsertAppears(s, a, t);
    } else {
      TxnFrame(s, a, t);
      if a.CommitRead? {
        CommitMeetsNoInsert(s, a, t, l);
      } else if a.Touch? || a.DrainMark? {
        OthersOnlyRetire(s, a, l);
      } else {
        LeasesFrame(s, a);
      }
    }
  }

  lemma EffectShape(s: State, x: Txn, l: Id)
    requires x.Reading? && l in ReadEffect(s, x).leases
    ensures || (HasInsert(x) && ReadEffect(s, x).leases[l] == InsertOf(x) && l == x.auth.leaseId)
            || (l in s.leases && SameLease(s.leases[l], ReadEffect(s, x).leases[l])
                && Live(s.leases[l]) == Live(ReadEffect(s, x).leases[l]))
  {
  }

  lemma CommitIsEffect(s: State, a: Action)
    requires Enabled(s, a) && a.CommitRead?
    ensures a.txn in s.txns && s.txns[a.txn].Reading?
    ensures Apply(s, a) == ReadEffect(s, s.txns[a.txn]).(txns := s.txns - {a.txn})
  {
  }

  /** A commit adds the row that was in flight, or changes no identifying column of any row. */
  lemma CommitShape(s: State, a: Action, l: Id)
    requires Enabled(s, a) && a.CommitRead? && l in Apply(s, a).leases
    ensures || (HasInsert(s.txns[a.txn]) && Apply(s, a).leases[l] == InsertOf(s.txns[a.txn]) && l == s.txns[a.txn].auth.leaseId)
            || (l in s.leases && SameLease(s.leases[l], Apply(s, a).leases[l]) && Live(s.leases[l]) == Live(Apply(s, a).leases[l]))
  {
    CommitIsEffect(s, a);
    EffectShape(s, s.txns[a.txn], l);
  }

  /** A committing reservation adds the row it had in flight; a finalization keeps the slot. */
  lemma CommitMeetsNoInsert(s: State, a: Action, t: Id, l: Id)
    requires SlotsInv(s) && Enabled(s, a) && a.CommitRead? && a.txn != t
    requires t in s.txns && HasInsert(s.txns[t])
    requires l in Apply(s, a).leases && Live(Apply(s, a).leases[l])
    ensures !SameSlot(Apply(s, a).leases[l], InsertOf(s.txns[t]))
  {
    CommitShape(s, a, l);
  }

  lemma InsertsDiffer(s: State, a: Action, t: Id, u: Id)
    requires SlotsInv(s) && Enabled(s, a) && t != u && !ActsOn(a, u)
    requires t in Apply(s, a).txns && HasInsert(Apply(s, a).txns[t])
    requires u in Apply(s, a).txns && HasInsert(Apply(s, a).txns[u])
    ensures !SameSlot(InsertOf(Apply(s, a).txns[t]), InsertOf(Apply(s, a).txns[u]))
  {
    TxnFrame(s, a, u);
    if ActsOn(a, t) {
      InsertAppears(s, a, t);
    } else {
      TxnFrame(s, a, t);
    }
  }

  lemma RowsDiffer(s: State, a: Action, l: Id, m: Id)
    requires SlotsInv(s) && Enabled(s, a) && l != m
    requires l in Apply(s, a).leases && m in Apply(s, a).leases
    requires Live(Apply(s, a).leases[l]) && Live(Apply(s, a).leases[m])
    ensures !SameSlot(Apply(s, a).leases[l], Apply(s, a).leases[m])
  {
    if a.CommitRead? {
      CommittedRowsDiffer(s, a, l, m);
    } else if a.Touch? || a.DrainMark? {
      OthersOnlyRetire(s, a, l);
      OthersOnlyRetire(s, a, m);
    } else {
      LeasesFrame(s, a);
    }
  }

  lemma CommittedRowsDiffer(s: State, a: Action, l: Id, m: Id)
    requires SlotsInv(s) && Enabled(s, a) && a.CommitRead? && l != m
    requires l in Apply(s, a).leases && m in Apply(s, a).leases
    requires Live(Apply(s, a).leases[l]) && Live(Apply(s, a).leases[m])
    ensures !SameSlot(Apply(s, a).leases[l], Apply(s, a).leases[m])
  {
    CommitShape(s, a, l);
    CommitShape(s, a, m);
  }

  lemma SlotInRange(s: State, a: Action, l: Id)
    requires SlotsInv(s) && Enabled(s, a) && l in Apply(s, a).leases
    ensures 1 <= Apply(s, a).leases[l].activeSlot <= SLOTS
  {
    if a.CommitRead? {
      CommitShape(s, a, l);
    } else if a.Touch? || a.DrainMark? {
      OthersOnlyRetire(s, a, l);
    } else {
      LeasesFrame(s, a);
    }
  }

  lemma OfferInRange(s: State, a: Action, t: Id, i: int)
    requires SlotsInv(s) && Enabled(s, a) && t in Apply(s, a).txns
    requires Apply(s, a).txns[t].Reading? && Apply(s, a).txns[t].phase.Offering?
    requires 0 <= i < |Apply(s, a).txns[t].phase.offered|
    ensures 1 <= Apply(s, a).txns[t].phase.offered[i] <= SLOTS
  {
    hide FreeSlots, SlotHeld, AuthorityHolds, CanFinalize, CanDeliver, CanClaim;
    if ActsOn(a, t) {
      if a.Snapshot? {
        FreeInRange(s, s.txns[t].auth);
      }
    } else {
      TxnFrame(s, a, t);
    }
  }

  lemma FreeInRange(s: State, a: Authority)
    ensures forall i :: 0 <= i < |FreeSlots(s, a)| ==> 1 <= FreeSlots(s, a)[i] <= SLOTS
  {
    hide SlotHeld, FreeFrom;
    FreeFromMeaning(s, a, 1);
    var f := FreeSlots(s, a);
    forall i | 0 <= i < |f| ensures 1 <= f[i] <= SLOTS {
      assert f[i] in f;
    }
  }

  lemma SlotsKept(s: State, a: Action)
    requires SlotsInv(s) && FreshInv(s) && Enabled(s, a)
    ensures SlotsInv(Apply(s, a))
  {
    hide Apply, Enabled, FreshInv;
    var s' := Apply(s, a);
    forall l | l in s'.leases ensures 1 <= s'.leases[l].activeSlot <= SLOTS { SlotInRange(s, a, l); }
    forall l, m | l in s'.leases && m in s'.leases && l != m && Live(s'.leases[l]) && Live(s'.leases[m])
      ensures !SameSlot(s'.leases[l], s'.leases[m])
    {
      RowsDiffer(s, a, l, m);
    }
    forall t | t in s'.txns && HasInsert(s'.txns[t]) ensures 1 <= s'.txns[t].phase.inserted.value <= SLOTS {
      if ActsOn(a, t) { InsertAppears(s, a, t); } else { TxnFrame(s, a, t); }
    }
    forall t, l | t in s'.txns && l in s'.leases && HasInsert(s'.txns[t]) && Live(s'.leases[l])
      ensures !SameSlot(s'.leases[l], InsertOf(s'.txns[t]))
    {
      InsertMeetsNoRow(s, a, t, l);
    }
    forall t, u | t in s'.txns && u in s'.txns && t != u && HasInsert(s'.txns[t]) && HasInsert(s'.txns[u])
      ensures !SameSlot(InsertOf(s'.txns[t]), InsertOf(s'.txns[u]))
    {
      if ActsOn(a, u) { InsertsDiffer(s, a, u, t); } else { InsertsDiffer(s, a, t, u); }
    }
    forall t, i | t in s'.txns && s'.txns[t].Reading? && s'.txns[t].phase.Offering? && 0 <= i < |s'.txns[t].phase.offered|
      ensures 1 <= s'.txns[t].phase.offered[i] <= SLOTS
    {
      OfferInRange(s, a, t, i);
    }
  }

  ghost predicate LeaseInv(s: State) {
    FreshInv(s) && FinalsInv(s) && SlotsInv(s)
  }

  lemma AllKept(s: State, a: Action)
    requires Inv(s) && LeaseInv(s) && Enabled(s, a)
    ensures Inv(Apply(s, a)) && LeaseInv(Apply(s, a))
  {
    hide Apply, Enabled, Inv, FreshInv, FinalsInv, SlotsInv;
    StepKeepsInv(s, a);
    FreshKept(s, a);
    FinalsKept(s, a);
    SlotsKept(s, a);
  }

  /** All invariants of gates, locks and leases hold in every state of every run. */
  lemma {:induction false} RunKeepsAll(ss: seq<State>, acts: seq<Action>, k: nat)
    requires IsRun(ss, acts) && k < |ss|
    ensures Inv(ss[k]) && LeaseInv(ss[k])
  {
    hide Apply, Enabled, Init, Inv, LeaseInv;
    if k == 0 {
      InitHolds(ss[0]);
      InitHasNoLeases(ss[0]);
    } else {
      RunKeepsAll(ss, acts, k - 1);
      assert StepAt(ss, acts, k - 1);
      AllKept(ss[k - 1], acts[k - 1]);
    }
  }

  lemma InitHasNoLeases(s: State)
    requires Init(s)
    ensures LeaseInv(s)
  {
  }
}
