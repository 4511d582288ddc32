/** Who owns a gate, over every run of the concurrent protocol: claims read the clock, take their
    snapshot, wait for their lock, write, and commit, while holders release, clear and renew. */
module GateOwnership {
  import opened Wrappers
  import opened Gates
  import opened GateProtocol
  import opened GateSafety

  /** A claim that was handed out can still renew, release or clear its gate. */
  predicate OwnsItsGate(s: State, id: Id) {
    id in s.claims && Owns(GateOf(s, RowOf(s.claims[id].target)), id)
  }

  /** The claim a transaction will commit if its statement hits. */
  predicate Hits(s: State, a: Action) {
    a.CommitClaim? && a.txn in s.txns && s.txns[a.txn].Claiming? && s.txns[a.txn].step == Written(true)
  }

  function HitRow(s: State, a: Action): RowId
    requires Hits(s, a)
  {
    RowOf(s.txns[a.txn].target)
  }

  // ---- Invariants -----------------------------------------------------------------------------------------

  /** A claim id is used once: by a transaction in flight or by a claim that was handed out. */
  ghost predicate FreshClaims(s: State) {
    && s.claims.Keys <= s.used
    && (forall t :: t in s.txns && s.txns[t].Claiming? ==>
          s.txns[t].claimId in s.used && s.txns[t].claimId !in s.claims && s.txns[t].at <= s.now)
    && (forall t, u :: t in s.txns && u in s.txns && t != u && s.txns[t].Claiming? && s.txns[u].Claiming? ==>
          s.txns[t].claimId != s.txns[u].claimId)
    && (forall id :: id in s.claims ==> s.claims[id].claim.claimId == id)
  }

  /** The row agrees with the claim that owns it. A claim may read its clock before another claim
      opens the episode, so its own time says nothing about the episode's start. */
  predicate RowAgrees(s: State, r: RowId) {
    var g := GateOf(s, r);
    && Consistent(g)
    && (g.pendingAt.Some? ==> g.pendingAt.value <= s.now)
    && (g.claimId.Some? ==>
          && g.claimId.value in s.claims
          && RowOf(s.claims[g.claimId.value].target) == r
          && g.claimedAt == Some(s.claims[g.claimId.value].claim.claimedAt)
          && g.pendingAt == Some(s.claims[g.claimId.value].claim.pendingAt))
  }

  /** A written claim holds its row, so what its statement found still holds when it commits. */
  ghost predicate WrittenHolds(s: State) {
    && (forall t :: t in s.txns && s.txns[t].Claiming? && s.txns[t].step == Written(true) ==>
          Claimable(GateOf(s, RowOf(s.txns[t].target)), s.txns[t].at))
    && (forall t, u :: t in s.txns && u in s.txns && t != u && s.txns[t].Claiming? && s.txns[u].Claiming?
                       && s.txns[t].step == Written(true) && s.txns[u].step == Written(true) ==>
          RowOf(s.txns[t].target) != RowOf(s.txns[u].target))
  }

  ghost predicate OwnInv(s: State) {
    FreshClaims(s) && WrittenHolds(s) && forall r :: RowAgrees(s, r)
  }

  // ---- What a step does to one row -----------------------------------------------------------------------

  ghost predicate UpdatesRow(s: State, a: Action, r: RowId) {
    a.Update? && a.claimId in s.claims && RowOf(s.claims[a.claimId].target) == r
  }

  /** The row is deleted; its gate columns go with it. */
  predicate DropsRow(a: Action, r: RowId) {
    a.Edit? && r !in a.gates
  }

  /** A row's gate changes only by a claim that hits it, its owner's update, or its deletion. */
  lemma GateFrame(s: State, a: Action, r: RowId)
    requires Enabled(s, a)
    requires !(Hits(s, a) && HitRow(s, a) == r) && !UpdatesRow(s, a, r)
    ensures GateOf(Apply(s, a), r) == if DropsRow(a, r) then OPEN else GateOf(s, r)
  {
    if !a.CommitClaim? && !a.Update? && !a.Edit? {
      RowsFrame(s, a);
    }
  }

  lemma HitEffect(s: State, a: Action)
    requires Enabled(s, a) && Hits(s, a)
    ensures var x := s.txns[a.txn];
            var s' := Apply(s, a);
            var g := GateOf(s, HitRow(s, a));
            && GateOf(s', HitRow(s, a)) == Claimed(g, x.at, x.claimId)
            && s'.claims == s.claims[x.claimId := IssuedClaim(x.target, ParsedClaim(g, x.at, x.claimId))]
            && s'.now == s.now
  {
  }

  lemma UpdateEffect(s: State, a: Action)
    requires Enabled(s, a) && a.Update?
    ensures var c := s.claims[a.claimId];
            var s' := Apply(s, a);
            && GateOf(s', RowOf(c.target)) == Change1(GateOf(s, RowOf(c.target)), a.change)
            && s'.claims == (if a.change.Renew?
                             then s.claims[a.change.newId := IssuedClaim(c.target, c.claim.(claimId := a.change.newId, claimedAt := a.change.at))]
                             else s.claims)
            && s'.now == s.now && s'.txns == s.txns
  {
  }

  lemma ClaimsFrame(s: State, a: Action)
    requires Enabled(s, a) && !Hits(s, a) && !a.Update?
    ensures Apply(s, a).claims == s.claims
  {
    if MovesTxn(a) {
      hide Apply, Enabled;
      TxnsFrame(s, a);
    } else {
      hide EditAllowed, RowLocked, LeaseLocked, Owns, RowUpdatable, ClaimEffect;
    }
  }

  lemma ClockMovesOn(s: State, a: Action)
    requires Enabled(s, a)
    ensures s.now <= Apply(s, a).now && s.used <= Apply(s, a).used
    ensures a.Tick? || Apply(s, a).now == s.now
  {
    if a.Tick? {
    } else {
      ClockStands(s, a);
    }
  }

  lemma ClockStands(s: State, a: Action)
    requires Enabled(s, a) && !a.Tick?
    ensures Apply(s, a).now == s.now && s.used <= Apply(s, a).used
  {
    hide Apply, Enabled;
    if MovesTxn(a) {
      ClockStandsForTxns(s, a);
    } else if !a.CommitClaim? {
      ClockStandsForOthers(s, a);
    } else {
      ClockStandsForCommits(s, a);
    }
  }

  lemma ClockStandsForTxns(s: State, a: Action)
    requires Enabled(s, a) && MovesTxn(a)
    ensures Apply(s, a).now == s.now && s.used <= Apply(s, a).used
  {
    hide Enabled, SlotHeld, AuthorityHolds, CanClaim, CanFinalize, CanDeliver, FreeSlots, SnapshotPhase, Change1;
  }

  lemma ClockStandsForOthers(s: State, a: Action)
    requires Enabled(s, a) && !a.Tick? && !MovesTxn(a) && !a.CommitClaim?
    ensures Apply(s, a).now == s.now && s.used <= Apply(s, a).used
  {
    hide Enabled, Change1;
  }

  lemma ClockStandsForCommits(s: State, a: Action)
    requires Enabled(s, a) && a.CommitClaim?
    ensures Apply(s, a).now == s.now && Apply(s, a).used == s.used
  {
  }

  // ---- Keeping the invariants --------------------------------------------------------------------------------

  lemma RowKeepsAgreeing(s: State, a: Action, r: RowId)
    requires OwnInv(s) && Enabled(s, a)
    ensures RowAgrees(Apply(s, a), r)
  {
    hide Apply, Enabled;
    assert RowAgrees(s, r);
    ClockMovesOn(s, a);
    if Hits(s, a) {
      HitEffect(s, a);
      if HitRow(s, a) != r {
        GateFrame(s, a, r);
      }
    } else if a.Update? {
      UpdateIsOwned(s, a);
      UpdateEffect(s, a);
      assert RowAgrees(s, RowOf(s.claims[a.claimId].target));
      if !UpdatesRow(s, a, r) {
        GateFrame(s, a, r);
      }
    } else {
      ClaimsFrame(s, a);
      GateFrame(s, a, r);
    }
  }

  lemma UpdateIsOwned(s: State, a: Action)
    requires Enabled(s, a) && a.Update?
    ensures OwnsItsGate(s, a.claimId) && (a.change.Renew? ==> a.change.newId !in s.used)
    ensures !RowLocked(s, RowOf(s.claims[a.claimId].target))
  {
  }

  /** Claiming transactions keep their target, id and time, and begin with fresh ones. */
  lemma ClaimingTxns(s: State, a: Action, t: Id)
    requires Enabled(s, a) && t in Apply(s, a).txns && Apply(s, a).txns[t].Claiming?
    ensures var x := Apply(s, a).txns[t];
            || (t in s.txns && s.txns[t].Claiming? && s.txns[t].claimId == x.claimId && s.txns[t].at == x.at
                && s.txns[t].target == x.target)
            || (a == BeginClaim(t, x.target, x.claimId) && x.claimId !in s.used && x.claimId in Apply(s, a).used && x.at == s.now)
    ensures Hits(s, a) ==> t != a.txn
  {
    if !ActsOn(a, t) {
      TxnFrame(s, a, t);
    }
  }

  lemma FreshKept(s: State, a: Action)
    requires FreshClaims(s) && Enabled(s, a)
    ensures FreshClaims(Apply(s, a))
  {
    hide Apply, Enabled;
    var s' := Apply(s, a);
    ClockMovesOn(s, a);
    ClaimsGrow(s, a);
    forall t | t in s'.txns && s'.txns[t].Claiming?
      ensures s'.txns[t].claimId in s'.used && s'.txns[t].claimId !in s'.claims && s'.txns[t].at <= s'.now
    {
      ClaimingTxns(s, a, t);
    }
    forall t, u | t in s'.txns && u in s'.txns && t != u && s'.txns[t].Claiming? && s'.txns[u].Claiming?
      ensures s'.txns[t].claimId != s'.txns[u].claimId
    {
      ClaimingTxns(s, a, t);
      ClaimingTxns(s, a, u);
    }
  }

  /** New claims carry the id of the committing transaction or the renewal's new id. */
  lemma ClaimsGrow(s: State, a: Action)
    requires FreshClaims(s) && Enabled(s, a)
    ensures var s' := Apply(s, a);
            && s'.claims.Keys <= s'.used
            && (forall id :: id in s'.claims ==> s'.claims[id].claim.claimId == id)
            && (forall id :: id in s'.claims && id !in s.claims ==>
                  (Hits(s, a) && id == s.txns[a.txn].claimId) || (a.Update? && a.change.Renew? && a.change.newId == id && id !in s.used))
  {
    if Hits(s, a) {
      HitEffect(s, a);
      ClockMovesOn(s, a);
    } else if a.Update? {
      UpdateEffect(s, a);
      UpdateIsOwned(s, a);
    } else {
      ClaimsFrame(s, a);
      ClockMovesOn(s, a);
    }
  }

  lemma WriteFindsClaimable(s: State, a: Action, t: Id)
    requires Enabled(s, a) && t in Apply(s, a).txns && Apply(s, a).txns[t].Claiming? && Apply(s, a).txns[t].step == Written(true)
    ensures var r := RowOf(Apply(s, a).txns[t].target);
            || (t in s.txns && s.txns[t].Claiming? && s.txns[t].step == Written(true) && LocksRow(s.txns[t], r)
                && s.txns[t].target == Apply(s, a).txns[t].target && s.txns[t].at == Apply(s, a).txns[t].at)
            || (a == WriteClaim(t) && !RowLocked(s, r) && Claimable(GateOf(s, r), Apply(s, a).txns[t].at))
  {
    if !ActsOn(a, t) {
      TxnFrame(s, a, t);
    }
  }

  lemma WrittenKept(s: State, a: Action)
    requires OwnInv(s) && LocksInv(s) && Enabled(s, a)
    ensures WrittenHolds(Apply(s, a))
  {
    hide Apply, Enabled, LocksInv;
    var s' := Apply(s, a);
    forall t | t in s'.txns && s'.txns[t].Claiming? && s'.txns[t].step == Written(true)
      ensures Claimable(GateOf(s', RowOf(s'.txns[t].target)), s'.txns[t].at)
    {
      WriteFindsClaimable(s, a, t);
      LockedGateStays(s, a, t);
    }
    forall t, u | t in s'.txns && u in s'.txns && t != u && s'.txns[t].Claiming? && s'.txns[u].Claiming?
                  && s'.txns[t].step == Written(true) && s'.txns[u].step == Written(true)
      ensures RowOf(s'.txns[t].target) != RowOf(s'.txns[u].target)
    {
      WriteFindsClaimable(s, a, t);
      WriteFindsClaimable(s, a, u);
    }
  }

  lemma LockedGateStays(s: State, a: Action, t: Id)
    requires OwnInv(s) && LocksInv(s) && Enabled(s, a)
    requires t in Apply(s, a).txns && Apply(s, a).txns[t].Claiming? && Apply(s, a).txns[t].step == Written(true)
    ensures var r := RowOf(Apply(s, a).txns[t].target); GateOf(Apply(s, a), r) == GateOf(s, r)
  {
    hide Apply, Enabled, LocksInv, RowAgrees;
    var r := RowOf(Apply(s, a).txns[t].target);
    WriteFindsClaimable(s, a, t);
    if a.WriteClaim? {
      GateFrame(s, a, r);
    } else {
      assert RowLocked(s, r);
      if a.Update? {
        UpdateIsOwned(s, a);
      }
      ClaimingTxns(s, a, t);
      LockedRowStays(s, a, t);
      GateFrame(s, a, r);
    }
  }

  lemma LockedRowStays(s: State, a: Action, t: Id)
    requires LocksInv(s) && Enabled(s, a)
    requires t in s.txns && s.txns[t].Claiming? && s.txns[t].step == Written(true)
    ensures !DropsRow(a, RowOf(s.txns[t].target))
  {
    var r := RowOf(s.txns[t].target);
    assert LocksRow(s.txns[t], r) && RowLocked(s, r) && RowMatches(s, s.txns[t].target);
  }

  lemma StepKeepsOwnInv(s: State, a: Action)
    requires OwnInv(s) && LocksInv(s) && Enabled(s, a)
    ensures OwnInv(Apply(s, a))
  {
    hide Apply, Enabled, LocksInv, FreshClaims, WrittenHolds, RowAgrees;
    FreshKept(s, a);
    WrittenKept(s, a);
    forall r ensures RowAgrees(Apply(s, a), r) {
      RowKeepsAgreeing(s, a, r);
    }
  }

  lemma InitOwnInv(s: State)
    requires Init(s)
    ensures OwnInv(s)
  {
  }

  lemma Step(ss: seq<State>, acts: seq<Action>, k: nat)
    requires IsRun(ss, acts) && k < |acts|
    ensures OwnInv(ss[k]) && LocksInv(ss[k]) && Enabled(ss[k], acts[k]) && ss[k + 1] == Apply(ss[k], acts[k])
  {
    hide Apply, Enabled, OwnInv;
    RunKeepsInv(ss, acts, k);
    GateSafety.RunKeepsInv(ss, acts, k);
    assert StepAt(ss, acts, k);
  }

  /** In every run, however claims interleave: every row is consistent, its pending time is not in
      the future, it shows the times of the claim that owns it, and claim ids are used once. */
  lemma {:induction false} RunKeepsInv(ss: seq<State>, acts: seq<Action>, k: nat)
    requires IsRun(ss, acts) && k < |ss|
    ensures OwnInv(ss[k])
  {
    hide Apply, Enabled, Init, OwnInv;
    if k == 0 {
      InitOwnInv(ss[0]);
    } else {
      RunKeepsInv(ss, acts, k - 1);
      GateSafety.RunKeepsInv(ss, acts, k - 1);
      assert StepAt(ss, acts, k - 1);
      StepKeepsOwnInv(ss[k - 1], acts[k - 1]);
    }
  }

  // ---- Ownership --------------------------------------------------------------------------------------------------

  /** Of all claims ever handed out at most one owns a row; it was made for that row, and the row
      shows exactly its id and its times. */
  lemma AtMostOneOwner(ss: seq<State>, acts: seq<Action>, k: nat, r: RowId, a: Id, b: Id)
    requires IsRun(ss, acts) && k < |ss| && Owns(GateOf(ss[k], r), a) && Owns(GateOf(ss[k], r), b)
    ensures a == b && a in ss[k].claims && RowOf(ss[k].claims[a].target) == r
    ensures var c := ss[k].claims[a].claim; GateOf(ss[k], r) == Gate(Some(c.pendingAt), Some(c.claimedAt), Some(c.claimId))
  {
    hide Apply, Enabled, Init, IsRun;
    RunKeepsInv(ss, acts, k);
    assert RowAgrees(ss[k], r);
  }

  lemma StepLosesForGood(s: State, a: Action, id: Id)
    requires OwnInv(s) && Enabled(s, a) && id in s.claims && !OwnsItsGate(s, id)
    ensures id in Apply(s, a).claims && Apply(s, a).claims[id] == s.claims[id] && !OwnsItsGate(Apply(s, a), id)
  {
    hide Apply, Enabled;
    var r := RowOf(s.claims[id].target);
    if Hits(s, a) {
      HitEffect(s, a);
      if HitRow(s, a) != r {
        GateFrame(s, a, r);
      }
    } else if a.Update? {
      UpdateIsOwned(s, a);
      UpdateEffect(s, a);
      if !UpdatesRow(s, a, r) {
        GateFrame(s, a, r);
      }
    } else {
      ClaimsFrame(s, a);
      GateFrame(s, a, r);
    }
  }

  /** A claim lost to a stale takeover, a renewal, a release, a clear or its row's deletion never
      owns its gate again. */
  lemma {:induction false} LostStaysLost(ss: seq<State>, acts: seq<Action>, i: nat, j: nat, id: Id)
    requires IsRun(ss, acts) && i <= j < |ss| && id in ss[i].claims && !OwnsItsGate(ss[i], id)
    ensures id in ss[j].claims && !OwnsItsGate(ss[j], id)
    decreases j
  {
    hide Apply, Enabled, Init, OwnInv, OwnsItsGate;
    if i < j {
      LostStaysLost(ss, acts, i, j - 1, id);
      Step(ss, acts, j - 1);
      StepLosesForGood(ss[j - 1], acts[j - 1], id);
    }
  }

  /** Ownership ends by exactly three kinds of steps: a claim that hits the row, an update by the
      owner that releases, clears or renews, and the row's deletion. A claim that hits read its
      clock more than five minutes after the owner's claim time. */
  lemma TakeoverEndsOwnership(ss: seq<State>, acts: seq<Action>, k: nat, id: Id)
    requires IsRun(ss, acts) && k < |acts| && OwnsItsGate(ss[k], id)
    ensures var r := RowOf(ss[k].claims[id].target);
            && (!OwnsItsGate(ss[k + 1], id) <==>
                || (Hits(ss[k], acts[k]) && HitRow(ss[k], acts[k]) == r)
                || (acts[k].Update? && acts[k].claimId == id)
                || DropsRow(acts[k], r))
            && (Hits(ss[k], acts[k]) && HitRow(ss[k], acts[k]) == r ==>
                  ss[k].claims[id].claim.claimedAt < ss[k].txns[acts[k].txn].at - REVOCATION_CLAIM_STALE_MS)
  {
    hide Apply, Enabled, Init;
    Step(ss, acts, k);
    var s, a := ss[k], acts[k];
    var r := RowOf(s.claims[id].target);
    assert RowAgrees(s, r);
    if Hits(s, a) {
      HitEffect(s, a);
      if HitRow(s, a) != r {
        GateFrame(s, a, r);
      }
    } else if a.Update? {
      UpdateIsOwned(s, a);
      UpdateEffect(s, a);
      if !UpdatesRow(s, a, r) {
        GateFrame(s, a, r);
      }
    } else {
      ClaimsFrame(s, a);
      GateFrame(s, a, r);
    }
  }

  /** A claim's statement takes an owned row exactly when the row matched in its snapshot, still
      matches, and its owner's claim time lies more than five minutes before the time the claim
      read at its start, however long it waited since. */
  lemma TakeoverExactly(ss: seq<State>, acts: seq<Action>, k: nat, t: Id, id: Id)
    requires IsRun(ss, acts) && k < |acts| && acts[k] == WriteClaim(t) && OwnsItsGate(ss[k], id)
    requires t in ss[k].txns && ss[k].txns[t].Claiming? && RowOf(ss[k].txns[t].target) == RowOf(ss[k].claims[id].target)
    ensures t in ss[k + 1].txns && ss[k + 1].txns[t].Claiming?
    ensures var x := ss[k].txns[t];
            ss[k + 1].txns[t].step
            == Written(x.seen && RowMatches(ss[k], x.target)
                       && ss[k].claims[id].claim.claimedAt < x.at - REVOCATION_CLAIM_STALE_MS)
  {
    hide Init;
    Step(ss, acts, k);
    assert RowAgrees(ss[k], RowOf(ss[k].claims[id].target));
  }

  // ---- Episodes ------------------------------------------------------------------------------------------------------

  predicate ClearsRow(s: State, a: Action, r: RowId) {
    a.Update? && a.change.Clear? && a.claimId in s.claims && RowOf(s.claims[a.claimId].target) == r
  }

  lemma StartKept(s: State, a: Action, r: RowId)
    requires Enabled(s, a) && GateOf(s, r).pendingAt.Some? && !ClearsRow(s, a, r) && !DropsRow(a, r)
    ensures GateOf(Apply(s, a), r).pendingAt == GateOf(s, r).pendingAt
  {
    hide Apply, Enabled;
    if Hits(s, a) && HitRow(s, a) == r {
      HitEffect(s, a);
    } else if UpdatesRow(s, a, r) {
      UpdateEffect(s, a);
    } else {
      GateFrame(s, a, r);
    }
  }

  /** The first pending time survives re-claims, takeovers, renewals and releases until the owner
      clears or the row is deleted. */
  lemma {:induction false} EpisodeKeepsItsStart(ss: seq<State>, acts: seq<Action>, i: nat, j: nat, r: RowId)
    requires IsRun(ss, acts) && i <= j < |ss| && GateOf(ss[i], r).pendingAt.Some?
    requires forall k :: i <= k < j ==> !ClearsRow(ss[k], acts[k], r) && !DropsRow(acts[k], r)
    ensures GateOf(ss[j], r).pendingAt == GateOf(ss[i], r).pendingAt
    decreases j
  {
    hide Apply, Enabled, Init, OwnInv, LocksInv;
    if i < j {
      EpisodeKeepsItsStart(ss, acts, i, j - 1, r);
      Step(ss, acts, j - 1);
      assert !ClearsRow(ss[j - 1], acts[j - 1], r);
      StartKept(ss[j - 1], acts[j - 1], r);
    }
  }

  /** The k-th step commits a claim that opens an episode of this row at the time it had read. */
  predicate OpensAt(ss: seq<State>, acts: seq<Action>, k: nat, r: RowId)
    requires k < |acts| && k < |ss|
  {
    Hits(ss[k], acts[k]) && HitRow(ss[k], acts[k]) == r && GateOf(ss[k], r).pendingAt.None?
  }

  lemma PendingComesFrom(s: State, a: Action, r: RowId)
    requires Enabled(s, a) && GateOf(Apply(s, a), r).pendingAt.Some?
    ensures GateOf(s, r).pendingAt == GateOf(Apply(s, a), r).pendingAt
            || (Hits(s, a) && HitRow(s, a) == r && GateOf(s, r).pendingAt.None?
                && GateOf(Apply(s, a), r).pendingAt == Some(s.txns[a.txn].at))
  {
    hide Apply, Enabled;
    if Hits(s, a) && HitRow(s, a) == r {
      HitEffect(s, a);
    } else if UpdatesRow(s, a, r) {
      UpdateEffect(s, a);
    } else {
      GateFrame(s, a, r);
    }
  }

  /** Every pending row was opened by the commit of one claim that found it open, and shows the
      time that claim had read before it waited. */
  lemma {:induction false} EpisodeHasOpener(ss: seq<State>, acts: seq<Action>, k: nat, r: RowId) returns (opener: nat)
    requires IsRun(ss, acts) && k < |ss| && GateOf(ss[k], r).pendingAt.Some?
    ensures opener < k && OpensAt(ss, acts, opener, r)
    ensures GateOf(ss[k], r).pendingAt == Some(ss[opener].txns[acts[opener].txn].at)
  {
    hide Apply, Enabled, OwnInv, LocksInv, Hits;
    if k == 0 {
      NoGatePendingAtStart(ss[0], r);
      assert false;
    } else {
      Step(ss, acts, k - 1);
      PendingComesFrom(ss[k - 1], acts[k - 1], r);
      if GateOf(ss[k - 1], r).pendingAt == GateOf(ss[k], r).pendingAt {
        opener := EpisodeHasOpener(ss, acts, k - 1, r);
      } else {
        opener := k - 1;
      }
    }
  }

  lemma NoGatePendingAtStart(s: State, r: RowId)
    requires Init(s)
    ensures GateOf(s, r) == OPEN
  {
  }

  /** No two claims that hit had read the same time. */
  ghost predicate DistinctTimes(ss: seq<State>, acts: seq<Action>)
    requires |ss| == |acts| + 1
  {
    forall i: nat, j: nat :: i < j < |acts| && Hits(ss[i], acts[i]) && Hits(ss[j], acts[j]) ==>
      ss[i].txns[acts[i].txn].at != ss[j].txns[acts[j].txn].at
  }

  /** firstPending is handed out exactly to the claim that opens the episode, and to a later claim
      of it only when that claim had read the very time of the opener. */
  lemma FirstPendingMeaning(ss: seq<State>, acts: seq<Action>, k: nat)
    requires IsRun(ss, acts) && k < |acts| && Hits(ss[k], acts[k])
    ensures var x := ss[k].txns[acts[k].txn];
            var g := GateOf(ss[k], HitRow(ss[k], acts[k]));
            && x.claimId in ss[k + 1].claims
            && (ss[k + 1].claims[x.claimId].claim.firstPending <==> g.pendingAt.None? || g.pendingAt == Some(x.at))
            && (DistinctTimes(ss, acts) ==>
                  (ss[k + 1].claims[x.claimId].claim.firstPending <==> OpensAt(ss, acts, k, HitRow(ss[k], acts[k]))))
  {
    hide Apply, Enabled, Init, OwnInv, LocksInv;
    var r := HitRow(ss[k], acts[k]);
    Step(ss, acts, k);
    HitEffect(ss[k], acts[k]);
    if GateOf(ss[k], r).pendingAt.Some? {
      var opener := EpisodeHasOpener(ss, acts, k, r);
      assert opener < k && Hits(ss[opener], acts[opener]);
    }
  }

  // ---- Runs that show the limits -----------------------------------------------------------------------------------

  const A_MEMBER: Target := MemberTarget(0, 1, 2)

  /** Before anything happens: one member whose gate is open. */
  function OneMember(): State {
    State(0, map[1 := Member(0, 2, Viewer)], map[], map[], map[MemberRow(1) := OPEN], map[], map[], map[], map[], {})
  }

  lemma OneMemberIsInit()
    ensures Init(OneMember())
  {
  }

  predicate OthersWait(s: State, t: Id) {
    forall u :: u in s.txns && u != t ==> s.txns[u].Claiming? && !HasLock(s.txns[u])
  }

  predicate CanFinish(s: State, t: Id) {
    && t in s.txns && s.txns[t].Claiming? && s.txns[t].step.Waiting? && OthersWait(s, t)
    && s.txns[t].seen && CanClaim(s, s.txns[t].target, s.txns[t].at)
  }

  function Finished(s: State, t: Id): State
    requires CanFinish(s, t)
  {
    var x := s.txns[t];
    ClaimEffect(s, x.target, x.claimId, x.at).(txns := s.txns - {t})
  }

  /** A waiting claim that nothing disturbs any more: lock, write, commit. */
  lemma ClaimFinishes(s: State, t: Id) returns (s1: State, s2: State)
    requires CanFinish(s, t)
    ensures Enabled(s, LockExclusive(t)) && s1 == Apply(s, LockExclusive(t))
    ensures Enabled(s1, WriteClaim(t)) && s2 == Apply(s1, WriteClaim(t)) && Hits(s2, CommitClaim(t))
    ensures s2.gates == s.gates && s2.txns[t].target == s.txns[t].target
    ensures Enabled(s2, CommitClaim(t)) && Finished(s, t) == Apply(s2, CommitClaim(t))
  {
    s1 := Apply(s, LockExclusive(t));
    s2 := Apply(s1, WriteClaim(t));
    assert s2.txns - {t} == s.txns - {t};
  }

  function Begun(s: State, t: Id, id: Id): State {
    s.(txns := s.txns[t := Claiming(A_MEMBER, id, s.now, false, Started)], used := s.used + {id})
  }

  /** A claim that has begun and taken its snapshot in the same millisecond. */
  function Ready(s: State, t: Id, id: Id): State {
    s.(txns := s.txns[t := Claiming(A_MEMBER, id, s.now, CanClaim(s, A_MEMBER, s.now), Waiting)], used := s.used + {id})
  }

  lemma ClaimBegins(s: State, t: Id, id: Id)
    requires t !in s.txns && id !in s.used
    ensures Enabled(s, BeginClaim(t, A_MEMBER, id)) && Begun(s, t, id) == Apply(s, BeginClaim(t, A_MEMBER, id))
    ensures Enabled(Begun(s, t, id), SnapshotClaim(t)) && Ready(s, t, id) == Apply(Begun(s, t, id), SnapshotClaim(t))
  {
    var x := Claiming(A_MEMBER, id, s.now, false, Started);
    var y := Claiming(A_MEMBER, id, s.now, CanClaim(s, A_MEMBER, s.now), Waiting);
    assert s.txns[t := x][t := y] == s.txns[t := y];
  }

  /** The member after a claim with this id and time has opened the episode and let go of it. */
  function LetGo(s: State, start: Time, c: IssuedClaim): State {
    s.(gates := map[MemberRow(1) := Gate(Some(start), None, None)], claims := map[c.claim.claimId := c])
  }

  lemma Releases(s: State, id: Id)
    requires s.members == OneMember().members && s.gates == map[MemberRow(1) := Gate(Some(s.now), Some(s.now), Some(id))]
    requires OthersWait(s, -1) && -1 !in s.txns
    requires s.claims == map[id := IssuedClaim(A_MEMBER, GateClaim(id, s.now, s.now, true))]
    ensures Enabled(s, Update(id, Release))
    ensures Apply(s, Update(id, Release)) == LetGo(s, s.now, s.claims[id])
  {
    assert Change1(s.gates[MemberRow(1)], Release) == Gate(Some(s.now), None, None);
    assert s.gates[MemberRow(1) := Gate(Some(s.now), None, None)] == map[MemberRow(1) := Gate(Some(s.now), None, None)];
  }

  lemma Extended(ss: seq<State>, acts: seq<Action>, a: Action, s: State)
    requires IsRun(ss, acts) && Enabled(ss[|acts|], a) && s == Apply(ss[|acts|], a)
    ensures IsRun(ss + [s], acts + [a])
  {
    hide Apply, Enabled, Init;
    var ss', acts' := ss + [s], acts + [a];
    forall k: nat | k < |acts'| ensures StepAt(ss', acts', k) {
      if k < |acts| {
        assert StepAt(ss, acts, k);
      }
    }
  }

  function Last(ss: seq<State>): State
    requires ss != []
  {
    ss[|ss| - 1]
  }

  lemma RunBegins(ss: seq<State>, acts: seq<Action>, t: Id, id: Id) returns (ss': seq<State>, acts': seq<Action>)
    requires IsRun(ss, acts) && t !in Last(ss).txns && id !in Last(ss).used
    ensures IsRun(ss', acts') && |acts'| == |acts| + 2 && Last(ss') == Ready(Last(ss), t, id)
  {
    hide Apply, Enabled, Init, IsRun, Begun, Ready;
    assert |ss| == |acts| + 1 by { RunLength(ss, acts); }
    var s1, s2 := Begun(Last(ss), t, id), Ready(Last(ss), t, id);
    ClaimBegins(Last(ss), t, id);
    Extended(ss, acts, BeginClaim(t, A_MEMBER, id), s1);
    Extended(ss + [s1], acts + [BeginClaim(t, A_MEMBER, id)], SnapshotClaim(t), s2);
    ss', acts' := ss + [s1] + [s2], acts + [BeginClaim(t, A_MEMBER, id)] + [SnapshotClaim(t)];
  }

  lemma RunLength(ss: seq<State>, acts: seq<Action>)
    requires IsRun(ss, acts)
    ensures |ss| == |acts| + 1
  {
  }

  lemma RunFinishes(ss: seq<State>, acts: seq<Action>, t: Id) returns (ss': seq<State>, acts': seq<Action>)
    requires IsRun(ss, acts) && CanFinish(Last(ss), t)
    ensures IsRun(ss', acts') && |ss'| == |acts'| + 1 == |acts| + 4 && Last(ss') == Finished(Last(ss), t)
    ensures acts'[|acts| + 2] == CommitClaim(t) && Hits(ss'[|acts| + 2], CommitClaim(t))
    ensures ss'[|acts| + 2].gates == Last(ss).gates && HitRow(ss'[|acts| + 2], CommitClaim(t)) == RowOf(Last(ss).txns[t].target)
    ensures Owns(GateOf(Last(ss'), RowOf(Last(ss).txns[t].target)), Last(ss).txns[t].claimId)
  {
    hide Apply, Enabled, Init, IsRun, CanFinish;
    RunLength(ss, acts);
    var s1, s2 := ClaimFinishes(Last(ss), t);
    var s3 := Finished(Last(ss), t);
    Extended(ss, acts, LockExclusive(t), s1);
    Extended(ss + [s1], acts + [LockExclusive(t)], WriteClaim(t), s2);
    Extended(ss + [s1] + [s2], acts + [LockExclusive(t)] + [WriteClaim(t)], CommitClaim(t), s3);
    ss' := ss + [s1] + [s2] + [s3];
    acts' := acts + [LockExclusive(t)] + [WriteClaim(t)] + [CommitClaim(t)];
  }

  lemma RunReleases(ss: seq<State>, acts: seq<Action>, id: Id) returns (ss': seq<State>, acts': seq<Action>)
    requires IsRun(ss, acts)
    requires var s := Last(ss);
             && s.members == OneMember().members && s.gates == map[MemberRow(1) := Gate(Some(s.now), Some(s.now), Some(id))]
             && OthersWait(s, -1) && -1 !in s.txns
             && s.claims == map[id := IssuedClaim(A_MEMBER, GateClaim(id, s.now, s.now, true))]
    ensures IsRun(ss', acts') && |acts'| == |acts| + 1 && Last(ss') == LetGo(Last(ss), Last(ss).now, Last(ss).claims[id])
  {
    hide Apply, Enabled, Init, IsRun, LetGo;
    RunLength(ss, acts);
    Releases(Last(ss), id);
    var s := LetGo(Last(ss), Last(ss).now, Last(ss).claims[id]);
    Extended(ss, acts, Update(id, Release), s);
    ss', acts' := ss + [s], acts + [Update(id, Release)];
  }

  /** A member whose gate is pending since start and claimed by nobody, with one claim handed out. */
  function Abandoned(now: Time, start: Time, id: Id, txns: map<Id, Txn>, used: set<Id>): State {
    State(now, OneMember().members, map[], map[], map[MemberRow(1) := Gate(Some(start), None, None)], map[], txns, map[],
          map[id := IssuedClaim(A_MEMBER, GateClaim(id, start, start, true))], used)
  }

  /** One claim opens the episode and lets go of it, next to claims that still wait. */
  lemma RunOpens(ss: seq<State>, acts: seq<Action>, t: Id, id: Id) returns (ss': seq<State>, acts': seq<Action>)
    requires IsRun(ss, acts) && t != -1
    requires var s := Last(ss);
             && s == OneMember().(now := s.now, txns := s.txns, used := s.used)
             && OthersWait(s, -1) && -1 !in s.txns && t !in s.txns && id !in s.used
    ensures IsRun(ss', acts') && |acts'| == |acts| + 6
    ensures Last(ss') == Abandoned(Last(ss).now, Last(ss).now, id, Last(ss).txns, Last(ss).used + {id})
  {
    hide Apply, Enabled, Init, IsRun;
    RunLength(ss, acts);
    var s := Last(ss);
    ss', acts' := RunBegins(ss, acts, t, id);
    RunLength(ss', acts');
    var s1 := Last(ss');
    assert s1.txns - {t} == s.txns;
    ss', acts' := RunFinishes(ss', acts', t);
    var s2 := Last(ss');
    assert s2.gates == map[MemberRow(1) := Gate(Some(s.now), Some(s.now), Some(id))];
    ss', acts' := RunReleases(ss', acts', id);
  }

  lemma StartOfRun() returns (ss: seq<State>, acts: seq<Action>)
    ensures ss == [OneMember()] && acts == [] && IsRun(ss, acts)
  {
    OneMemberIsInit();
    hide Init;
    ss, acts := [OneMember()], [];
  }

  /** Without distinct times the mark is not exact: a claim, its release and a second claim in one
      millisecond leave two claims of one episode that both carry it. */
  lemma SameMillisecondBothFirst() returns (ss: seq<State>, acts: seq<Action>)
    ensures IsRun(ss, acts) && |acts| == 11 && acts[10] == CommitClaim(2) && Hits(ss[10], acts[10])
    ensures GateOf(ss[10], HitRow(ss[10], acts[10])).pendingAt.Some?
    ensures 1 in ss[11].claims && ss[11].claims[1].claim.firstPending
    ensures 2 in ss[11].claims && ss[11].claims[2].claim.firstPending
    ensures ss[11].claims[1].claim.claimedAt == ss[11].claims[2].claim.claimedAt
  {
    hide Apply, Enabled, Init, IsRun, Hits;
    ss, acts := StartOfRun();
    ss, acts := RunOpens(ss, acts, 1, 1);
    ss, acts := RunBegins(ss, acts, 2, 2);
    ss, acts := RunFinishes(ss, acts, 2);
  }

  /** A claim that waited can hit an episode that began after the time it carries: its claim time
      lies before the pending time it hands out, and it is not marked first. */
  lemma ClaimCanPredateItsEpisode() returns (ss: seq<State>, acts: seq<Action>)
    ensures IsRun(ss, acts) && |acts| == 12 && acts[11] == CommitClaim(1)
    ensures OwnsItsGate(ss[12], 1)
    ensures ss[12].claims[1].claim.claimedAt < ss[12].claims[1].claim.pendingAt && !ss[12].claims[1].claim.firstPending
  {
    hide Apply, Enabled, Init, IsRun, Hits;
    ss, acts := StartOfRun();
    ss, acts := RunBegins(ss, acts, 1, 1);
    RunLength(ss, acts);
    var s := Last(ss);
    Ticks(s, 1);
    Extended(ss, acts, Tick(1), s.(now := 1));
    ss, acts := ss + [s.(now := 1)], acts + [Tick(1)];
    ss, acts := RunOpens(ss, acts, 2, 2);
    ss, acts := RunFinishes(ss, acts, 1);
  }

  lemma Ticks(s: State, to: Time)
    requires s.now <= to
    ensures Enabled(s, Tick(to)) && Apply(s, Tick(to)) == s.(now := to)
  {
  }
}
