/** What the gates guarantee over whole runs: drains are complete, nothing crosses a connection
    gate, slots stay unique, and the locks cannot deadlock. */
module GateTheorems {
  import opened Wrappers
  import opened Gates
  import opened Leases
  import opened GateProtocol
  import opened GateSafety
  import opened LeaseSafety

  // ---- Pending gates -------------------------------------------------------------------------

  /** A claim that hits makes its key pending, and the gate belongs to it. */
  lemma ClaimMakesPending(s: State, t: Id)
    requires Inv(s) && Enabled(s, CommitClaim(t)) && s.txns[t].step == Written(true)
    ensures KeyPending(Apply(s, CommitClaim(t)), KeyOf(s.txns[t].target))
    ensures Owns(GateOf(Apply(s, CommitClaim(t)), RowOf(s.txns[t].target)), s.txns[t].claimId)
  {
    var s' := Apply(s, CommitClaim(t));
    assert RowHasKey(s', RowOf(s.txns[t].target), KeyOf(s.txns[t].target));
  }

  ghost predicate ClearsKey(s: State, a: Action, k: LockKey) {
    && a.Update? && a.change.Clear? && a.claimId in s.claims
    && RowHasKey(s, RowOf(s.claims[a.claimId].target), k)
  }

  ghost predicate DropsMember(s: State, a: Action, k: LockKey) {
    a.Edit? && exists m :: m in s.members && m !in a.members && RowHasKey(s, MemberRow(m), k)
  }

  /** Nothing ends a pending episode but its owner's clear, or the removal of the member row. */
  lemma PendingUntilCleared(s: State, a: Action, k: LockKey)
    requires Inv(s) && Enabled(s, a) && KeyPending(s, k)
    requires !ClearsKey(s, a, k) && !DropsMember(s, a, k)
    ensures KeyPending(Apply(s, a), k)
  {
    var r :| RowHasKey(s, r, k) && GateOf(s, r).pendingAt.Some?;
    PendingRowSurvives(s, a, r, k);
  }

  lemma PendingRowSurvives(s: State, a: Action, r: RowId, k: LockKey)
    requires Inv(s) && Enabled(s, a) && RowHasKey(s, r, k) && GateOf(s, r).pendingAt.Some?
    requires !ClearsKey(s, a, k) && !DropsMember(s, a, k)
    ensures RowHasKey(Apply(s, a), r, k) && GateOf(Apply(s, a), r).pendingAt.Some?
  {
    if !a.CommitClaim? && !a.Update? && !a.Edit? {
      RowsFrame(s, a);
    } else if a.CommitClaim? {
      PendingSurvivesClaim(s, a, r, k);
    } else if a.Update? {
      PendingSurvivesUpdate(s, a, r, k);
    } else {
      PendingSurvivesEdit(s, a, r, k);
    }
  }

  lemma PendingSurvivesClaim(s: State, a: Action, r: RowId, k: LockKey)
    requires Enabled(s, a) && a.CommitClaim? && RowHasKey(s, r, k) && GateOf(s, r).pendingAt.Some?
    ensures RowHasKey(Apply(s, a), r, k) && GateOf(Apply(s, a), r).pendingAt.Some?
  {
  }

  lemma PendingSurvivesUpdate(s: State, a: Action, r: RowId, k: LockKey)
    requires Enabled(s, a) && a.Update? && RowHasKey(s, r, k) && GateOf(s, r).pendingAt.Some?
    requires !ClearsKey(s, a, k)
    ensures RowHasKey(Apply(s, a), r, k) && GateOf(Apply(s, a), r).pendingAt.Some?
  {
  }

  lemma PendingSurvivesEdit(s: State, a: Action, r: RowId, k: LockKey)
    requires Enabled(s, a) && a.Edit? && RowHasKey(s, r, k) && GateOf(s, r).pendingAt.Some?
    requires !DropsMember(s, a, k)
    ensures RowHasKey(Apply(s, a), r, k) && GateOf(Apply(s, a), r).pendingAt.Some?
  {
  }

  // ---- Atomicity of authority checks ---------------------------------------------------------

  /** The shared locks make the check atomic: when a reservation, finalization or deliverability
      check commits with success, none of its three gates is pending at that moment. */
  lemma SuccessMeetsOpenGates(ss: seq<State>, acts: seq<Action>, i: nat, t: Id)
    requires IsRun(ss, acts) && i < |acts| && acts[i] == CommitRead(t)
    requires t in ss[i].txns && Succeeds(ss[i].txns[t])
    ensures forall n: nat :: n < 3 ==> !KeyPending(ss[i], KeyAt(ss[i].txns[t].auth, n))
  {
    RunStep(ss, acts, i);
    assert Passed(ss[i].txns[t]);
  }

  // ---- Drains --------------------------------------------------------------------------------

  predicate LiveUnder(s: State, k: LockKey, l: Id) {
    l in s.leases && Live(s.leases[l]) && Matches(DrainFilter(k), l, s.leases[l])
  }

  /** The keys a lease's authority locks are exactly the keys whose drains select the lease. */
  lemma DrainsSelectLockedKeys(k: LockKey, id: Id, l: Lease, a: Authority)
    requires SameAuthority(l, a)
    ensures Matches(DrainFilter(k), id, l) <==> (k == KeyAt(a, 0) || k == KeyAt(a, 1) || k == KeyAt(a, 2))
  {
  }

  /** While a gate is pending, no step adds, revives or finalizes a lease that its drain selects. */
  lemma PendingGateAdmitsNothing(s: State, a: Action, k: LockKey, l: Id)
    requires Inv(s) && LeaseInv(s) && Enabled(s, a) && KeyPending(s, k)
    requires LiveUnder(Apply(s, a), k, l)
    ensures LiveUnder(s, k, l)
    ensures Apply(s, a).leases[l].kind == s.leases[l].kind
    ensures Apply(s, a).leases[l].credentialId == s.leases[l].credentialId
  {
    if a.CommitRead? {
      CommitAdmitsNothing(s, a, k, l);
    } else if a.Touch? || a.DrainMark? {
      OthersOnlyRetire(s, a, l);
    } else {
      LeasesFrame(s, a);
    }
  }

  lemma CommitAdmitsNothing(s: State, a: Action, k: LockKey, l: Id)
    requires Inv(s) && LeaseInv(s) && Enabled(s, a) && a.CommitRead? && KeyPending(s, k)
    requires LiveUnder(Apply(s, a), k, l)
    ensures l in s.leases && Apply(s, a).leases[l] == s.leases[l]
  {
    CommitIsEffect(s, a);
    var x := s.txns[a.txn];
    hide Apply, RowsInv, LocksInv, FreshInv;
    if ReadEffect(s, x).leases != s.leases && l == x.auth.leaseId {
      assert Passed(x);
      DrainsSelectLockedKeys(k, l, ReadEffect(s, x).leases[l], x.auth);
      assert false;
    }
  }

  lemma DrainFrame(s: State, a: Action, d: Id)
    requires Enabled(s, a) && d in s.drains
    ensures d in Apply(s, a).drains && s.drains[d].deferred <= Apply(s, a).drains[d].deferred
    ensures Apply(s, a).drains[d].deferred == s.drains[d].deferred ==>
              forall l :: l in s.drains[d].todo && l !in Apply(s, a).drains[d].todo ==>
                            l in Apply(s, a).leases && !Live(Apply(s, a).leases[l])
  {
    if a.BeginDrain? || a.DrainMark? || a.DrainDefer? {
      hide LeaseLocked, Matches, MustWait;
    } else {
      hide Apply, Enabled;
      DrainsStay(s, a);
    }
  }

  ghost predicate PendingFrom(ss: seq<State>, k: LockKey, i: nat, j: nat)
    requires j < |ss|
  {
    forall n :: i <= n <= j ==> KeyPending(ss[n], k)
  }

  /** As long as a drain has deferred nothing, every live lease it answers for is still on its list. */
  ghost predicate Covers(s: State, k: LockKey, d: Id) {
    && d in s.drains
    && (s.drains[d].deferred == 0 ==> forall l :: LiveUnder(s, k, l) ==> l in s.drains[d].todo)
  }

  lemma BeginCovers(s: State, k: LockKey, d: Id)
    requires Enabled(s, BeginDrain(d, DrainFilter(k)))
    ensures Covers(Apply(s, BeginDrain(d, DrainFilter(k))), k, d)
  {
  }

  lemma CoverKept(s: State, a: Action, k: LockKey, d: Id)
    requires Inv(s) && LeaseInv(s) && Enabled(s, a) && KeyPending(s, k) && Covers(s, k, d)
    ensures Covers(Apply(s, a), k, d)
  {
    DrainFrame(s, a, d);
    forall l | LiveUnder(Apply(s, a), k, l) && Apply(s, a).drains[d].deferred == 0
      ensures l in Apply(s, a).drains[d].todo
    {
      PendingGateAdmitsNothing(s, a, k, l);
    }
  }

  lemma {:induction false} DrainCovers(ss: seq<State>, acts: seq<Action>, k: LockKey, d: Id, b: nat, j: nat)
    requires IsRun(ss, acts) && b < j < |ss| && acts[b] == BeginDrain(d, DrainFilter(k))
    requires PendingFrom(ss, k, b, j)
    ensures Covers(ss[j], k, d)
    decreases j
  {
    hide Apply, Enabled, Init, Inv, LeaseInv;
    RunStep(ss, acts, j - 1);
    if b < j - 1 {
      DrainCovers(ss, acts, k, d, b, j - 1);
      CoverKept(ss[j - 1], acts[j - 1], k, d);
    } else {
      BeginCovers(ss[b], k, d);
    }
  }

  lemma RunStep(ss: seq<State>, acts: seq<Action>, k: nat)
    requires IsRun(ss, acts) && k < |acts|
    ensures Inv(ss[k]) && LeaseInv(ss[k]) && Enabled(ss[k], acts[k]) && ss[k + 1] == Apply(ss[k], acts[k])
  {
    RunKeepsAll(ss, acts, k);
    assert StepAt(ss, acts, k);
  }

  ghost predicate NothingLive(s: State, k: LockKey) {
    forall l :: !LiveUnder(s, k, l)
  }

  lemma NothingAppears(s: State, a: Action, k: LockKey)
    requires Inv(s) && LeaseInv(s) && Enabled(s, a) && KeyPending(s, k) && NothingLive(s, k)
    ensures NothingLive(Apply(s, a), k)
  {
    forall l
      ensures !LiveUnder(Apply(s, a), k, l)
    {
      if LiveUnder(Apply(s, a), k, l) {
        PendingGateAdmitsNothing(s, a, k, l);
      }
    }
  }

  /** Drain safety: when a drain started under a pending gate ends with nothing deferred, no live
      lease under that gate exists, and none exists at any later moment before the gate is cleared. */
  lemma {:induction false} DrainSafety(ss: seq<State>, acts: seq<Action>, k: LockKey, d: Id, b: nat, e: nat, j: nat)
    requires IsRun(ss, acts) && b < e <= j < |ss| && acts[b] == BeginDrain(d, DrainFilter(k))
    requires PendingFrom(ss, k, b, j)
    requires d in ss[e].drains && ss[e].drains[d].todo == map[] && ss[e].drains[d].deferred == 0
    ensures NothingLive(ss[j], k)
    decreases j
  {
    hide Apply, Enabled, Init, Inv, LeaseInv;
    if e == j {
      DrainCovers(ss, acts, k, d, b, e);
    } else {
      DrainSafety(ss, acts, k, d, b, e, j - 1);
      RunStep(ss, acts, j - 1);
      NothingAppears(ss[j - 1], acts[j - 1], k);
    }
  }

  /** No step from b up to j clears the gate or removes its member row. */
  ghost predicate NeverCleared(ss: seq<State>, acts: seq<Action>, k: LockKey, b: nat, j: nat)
    requires j <= |acts| && |ss| == |acts| + 1
  {
    forall n: nat :: b <= n < j ==> !ClearsKey(ss[n], acts[n], k) && !DropsMember(ss[n], acts[n], k)
  }

  lemma {:induction false} PendingStays(ss: seq<State>, acts: seq<Action>, k: LockKey, b: nat, j: nat)
    requires IsRun(ss, acts) && b <= j <= |acts| && KeyPending(ss[b], k) && NeverCleared(ss, acts, k, b, j)
    ensures PendingFrom(ss, k, b, j)
    decreases j
  {
    hide Apply, Enabled, Init, Inv, LeaseInv, ClearsKey, DropsMember, KeyPending;
    if b < j {
      PendingStays(ss, acts, k, b, j - 1);
      RunStep(ss, acts, j - 1);
      PendingUntilCleared(ss[j - 1], acts[j - 1], k);
    }
  }

  /** Drain safety in terms of steps: a drain started under a pending gate that ends with nothing
      deferred leaves nothing live under the gate until some step clears it. */
  lemma DrainSafeUntilCleared(ss: seq<State>, acts: seq<Action>, k: LockKey, d: Id, b: nat, e: nat, j: nat)
    requires IsRun(ss, acts) && b < e <= j <= |acts| && acts[b] == BeginDrain(d, DrainFilter(k))
    requires KeyPending(ss[b], k) && NeverCleared(ss, acts, k, b, j)
    requires d in ss[e].drains && ss[e].drains[d].todo == map[] && ss[e].drains[d].deferred == 0
    ensures NothingLive(ss[j], k)
  {
    hide Apply, Enabled, Init, Inv, LeaseInv, NeverCleared, PendingFrom;
    PendingStays(ss, acts, k, b, j);
    DrainSafety(ss, acts, k, d, b, e, j);
  }

  // ---- Connection revisions --------------------------------------------------------------------

  function ConnectionGate(s: State, c: Id): Gate {
    GateOf(s, ConnectionRow(c))
  }

  /** The commit that opens an episode raises the revision by one; other commits leave it alone. */
  lemma OpeningRaisesRevision(s: State, t: Id, c: Id)
    requires Inv(s) && Enabled(s, CommitClaim(t)) && c in s.connections
    ensures var s' := Apply(s, CommitClaim(t));
            && c in s'.connections
            && s'.connections[c].revision == s.connections[c].revision +
                 (if ConnectionGate(s, c).pendingAt.None? && ConnectionGate(s', c).pendingAt.Some? then 1 else 0)
  {
  }

  lemma RevisionNeverFalls(s: State, a: Action, c: Id)
    requires Enabled(s, a) && c in s.connections
    ensures c in Apply(s, a).connections
    ensures Apply(s, a).connections[c].organization == s.connections[c].organization
    ensures s.connections[c].revision <= Apply(s, a).connections[c].revision
  {
    if !a.CommitClaim? && !a.Update? && !a.Edit? {
      RowsFrame(s, a);
    }
  }

  /** A snapshot that passed saw the connection row of its own tenant. */
  ghost predicate TenantInv(s: State) {
    forall t :: t in s.txns && Passed(s.txns[t]) ==>
      && s.txns[t].auth.connection in s.connections
      && s.connections[s.txns[t].auth.connection].organization == s.txns[t].auth.organization
  }

  /** A transaction that has just passed did so in this snapshot. */
  lemma PassingIsSnapshot(s: State, a: Action, t: Id)
    requires Inv(s) && Enabled(s, a) && t in Apply(s, a).txns && Passed(Apply(s, a).txns[t])
    ensures t in s.txns && s.txns[t].Reading? && s.txns[t].auth == Apply(s, a).txns[t].auth
    ensures Passed(s.txns[t]) || AuthorityHolds(s, s.txns[t].auth)
  {
    if !ActsOn(a, t) {
      TxnFrame(s, a, t);
    }
  }

  lemma TenantKept(s: State, a: Action)
    requires Inv(s) && TenantInv(s) && Enabled(s, a)
    ensures TenantInv(Apply(s, a))
  {
    var s' := Apply(s, a);
    forall t | t in s'.txns && Passed(s'.txns[t])
      ensures s'.txns[t].auth.connection in s'.connections
      ensures s'.connections[s'.txns[t].auth.connection].organization == s'.txns[t].auth.organization
    {
      PassingIsSnapshot(s, a, t);
      RevisionNeverFalls(s, a, s.txns[t].auth.connection);
    }
  }

  lemma {:induction false} RunKeepsTenants(ss: seq<State>, acts: seq<Action>, k: nat)
    requires IsRun(ss, acts) && k < |ss|
    ensures TenantInv(ss[k])
  {
    hide Apply, Enabled, Inv, LeaseInv;
    if k > 0 {
      RunKeepsTenants(ss, acts, k - 1);
      GateSafety.RunKeepsInv(ss, acts, k - 1);
      assert StepAt(ss, acts, k - 1);
      TenantKept(ss[k - 1], acts[k - 1]);
    }
  }

  predicate OpensEpisode(ss: seq<State>, i: nat, c: Id)
    requires i + 1 < |ss|
  {
    c in ss[i].connections && ConnectionGate(ss[i], c).pendingAt.None? && ConnectionGate(ss[i + 1], c).pendingAt.Some?
  }

  /** The k-th step is the commit of a claim and leaves the connection with a higher revision. */
  predicate RaisesAt(ss: seq<State>, acts: seq<Action>, k: nat, c: Id)
    requires k < |acts| && |ss| == |acts| + 1
  {
    && acts[k].CommitClaim? && c in ss[k].connections && c in ss[k + 1].connections
    && ss[k].connections[c].revision < ss[k + 1].connections[c].revision
  }

  /** How many of the steps from i up to j raise the revision in this way. */
  function Raises(ss: seq<State>, acts: seq<Action>, c: Id, i: nat, j: nat): nat
    requires j <= |acts| && |ss| == |acts| + 1
    decreases j
  {
    if j <= i then 0 else Raises(ss, acts, c, i, j - 1) + (if RaisesAt(ss, acts, j - 1, c) then 1 else 0)
  }

  lemma OpeningStepRaises(s: State, a: Action, c: Id)
    requires Inv(s) && Enabled(s, a) && c in s.connections
    requires ConnectionGate(s, c).pendingAt.None? && ConnectionGate(Apply(s, a), c).pendingAt.Some?
    ensures a.CommitClaim? && c in Apply(s, a).connections
    ensures Apply(s, a).connections[c].revision == s.connections[c].revision + 1
    ensures Apply(s, a).connections[c].organization == s.connections[c].organization
  {
    RevisionNeverFalls(s, a, c);
    ConnectionKeyPending(s, c);
    ConnectionKeyPending(Apply(s, a), c);
    OnlyClaimsOpenEpisodes(s, a, ConnectionKey(s.connections[c].organization, c));
    OpeningRaisesRevision(s, a.txn, c);
  }

  lemma {:induction false} TenantStays(ss: seq<State>, acts: seq<Action>, c: Id, i: nat, j: nat)
    requires IsRun(ss, acts) && i <= j <= |acts| && c in ss[i].connections
    ensures c in ss[j].connections && ss[j].connections[c].organization == ss[i].connections[c].organization
    decreases j
  {
    hide Apply, Enabled, Init, Inv, LeaseInv;
    if i < j {
      TenantStays(ss, acts, c, i, j - 1);
      RunStep(ss, acts, j - 1);
      RevisionNeverFalls(ss[j - 1], acts[j - 1], c);
    }
  }

  /** One episode, one revision: from the step that opens it to the step that clears it, exactly one
      commit of a claim raises the connection's revision, and that is the opening, by one. */
  lemma {:induction false} EpisodeRaisesRevisionOnce(ss: seq<State>, acts: seq<Action>, c: Id, i: nat, j: nat)
    requires IsRun(ss, acts) && i < j <= |acts| && OpensEpisode(ss, i, c)
    requires NeverCleared(ss, acts, ConnectionKey(ss[i].connections[c].organization, c), i + 1, j - 1)
    ensures RaisesAt(ss, acts, i, c) && ss[i + 1].connections[c].revision == ss[i].connections[c].revision + 1
    ensures Raises(ss, acts, c, i, j) == 1
    decreases j
  {
    hide Apply, Enabled, Init, Inv, LeaseInv, IsRun, NeverCleared;
    StepsOf(ss, acts);
    var k := ConnectionKey(ss[i].connections[c].organization, c);
    if j == i + 1 {
      RunStep(ss, acts, i);
      OpeningStepRaises(ss[i], acts[i], c);
      assert Raises(ss, acts, c, i, i) == 0;
    } else {
      ClearedLess(ss, acts, k, i + 1, j - 2, j - 1);
      EpisodeRaisesRevisionOnce(ss, acts, c, i, j - 1);
      TenantStays(ss, acts, c, i, i + 1);
      TenantStays(ss, acts, c, i, j - 1);
      ConnectionKeyPending(ss[i + 1], c);
      PendingStays(ss, acts, k, i + 1, j - 1);
      ConnectionKeyPending(ss[j - 1], c);
      RunStep(ss, acts, j - 1);
      if acts[j - 1].CommitClaim? {
        OpeningRaisesRevision(ss[j - 1], acts[j - 1].txn, c);
      }
    }
  }

  lemma StepsOf(ss: seq<State>, acts: seq<Action>)
    requires IsRun(ss, acts)
    ensures |ss| == |acts| + 1
  {
  }

  lemma ClearedLess(ss: seq<State>, acts: seq<Action>, k: LockKey, b: nat, i: nat, j: nat)
    requires i <= j <= |acts| && |ss| == |acts| + 1 && NeverCleared(ss, acts, k, b, j)
    ensures NeverCleared(ss, acts, k, b, i)
  {
  }

  /** Everyone who has passed with this connection knows a revision beyond r. */
  ghost predicate Fenced(s: State, c: Id, r: int) {
    && c in s.connections && r < s.connections[c].revision
    && forall t :: t in s.txns && Passed(s.txns[t]) && s.txns[t].auth.connection == c ==> r < s.txns[t].auth.revision
  }

  lemma ConnectionKeyPending(s: State, c: Id)
    requires c in s.connections
    ensures KeyPending(s, ConnectionKey(s.connections[c].organization, c)) <==> ConnectionGate(s, c).pendingAt.Some?
  {
    var k := ConnectionKey(s.connections[c].organization, c);
    assert RowHasKey(s, ConnectionRow(c), k);
  }

  /** A committing claim meets no transaction that has passed under its key. */
  lemma CommitExcludesReaders(s: State, a: Action, t: Id, k: LockKey)
    requires Inv(s) && Enabled(s, a) && a.CommitClaim? && KeyOf(s.txns[a.txn].target) == k
    requires t in Apply(s, a).txns && Apply(s, a).txns[t].Reading? && KeyAt(Apply(s, a).txns[t].auth, 1) == k
    ensures !Passed(Apply(s, a).txns[t])
  {
    TxnFrame(s, a, t);
    if Passed(s.txns[t]) {
      PassedHoldsAll(s.txns[t], k);
    }
  }

  lemma OpeningFences(s: State, a: Action, c: Id)
    requires Inv(s) && TenantInv(s) && Enabled(s, a) && c in s.connections
    requires ConnectionGate(s, c).pendingAt.None? && ConnectionGate(Apply(s, a), c).pendingAt.Some?
    ensures Fenced(Apply(s, a), c, s.connections[c].revision)
  {
    var s' := Apply(s, a);
    var k := ConnectionKey(s.connections[c].organization, c);
    RevisionNeverFalls(s, a, c);
    ConnectionKeyPending(s, c);
    ConnectionKeyPending(s', c);
    OnlyClaimsOpenEpisodes(s, a, k);
    OpeningRaisesRevision(s, a.txn, c);
    TenantKept(s, a);
    forall t | t in s'.txns && s'.txns[t].Reading? && s'.txns[t].auth.connection == c
      ensures !Passed(s'.txns[t])
    {
      if Passed(s'.txns[t]) {
        CommitExcludesReaders(s, a, t, k);
      }
    }
  }

  lemma FenceKept(s: State, a: Action, c: Id, r: int)
    requires Inv(s) && Enabled(s, a) && Fenced(s, c, r)
    ensures Fenced(Apply(s, a), c, r)
  {
    RevisionNeverFalls(s, a, c);
    forall t | t in Apply(s, a).txns && Passed(Apply(s, a).txns[t]) && Apply(s, a).txns[t].auth.connection == c
      ensures r < Apply(s, a).txns[t].auth.revision
    {
      PassingIsSnapshot(s, a, t);
    }
  }

  lemma {:induction false} FenceHolds(ss: seq<State>, acts: seq<Action>, c: Id, i: nat, j: nat)
    requires IsRun(ss, acts) && i < j < |ss| && OpensEpisode(ss, i, c)
    ensures Fenced(ss[j], c, ss[i].connections[c].revision)
    decreases j
  {
    hide Apply, Enabled, Init, Inv, LeaseInv;
    RunStep(ss, acts, j - 1);
    if j == i + 1 {
      RunKeepsTenants(ss, acts, i);
      OpeningFences(ss[i], acts[i], c);
    } else {
      FenceHolds(ss, acts, c, i, j - 1);
      FenceKept(ss[j - 1], acts[j - 1], c, ss[i].connections[c].revision);
    }
  }

  /** No lease crosses a connection gate: once an episode has opened, a request made with the
      revision from before it can never again be reserved, finalized or found deliverable,
      not even after the gate is cleared. */
  lemma NothingCrossesTheGate(ss: seq<State>, acts: seq<Action>, c: Id, i: nat, j: nat, t: Id)
    requires IsRun(ss, acts) && i < j < |acts| && OpensEpisode(ss, i, c)
    requires acts[j] == CommitRead(t) && t in ss[j].txns && Succeeds(ss[j].txns[t])
    requires ss[j].txns[t].auth.connection == c
    ensures ss[i].connections[c].revision < ss[j].txns[t].auth.revision
  {
    FenceHolds(ss, acts, c, i, j);
    RunStep(ss, acts, j);
    assert Passed(ss[j].txns[t]);
  }

  // ---- Slots -------------------------------------------------------------------------------------

  /** In every interleaving the live leases of one member on one connection hold distinct slots 1..5. */
  lemma LiveSlotsDistinct(ss: seq<State>, acts: seq<Action>, k: nat, l: Id, m: Id)
    requires IsRun(ss, acts) && k < |ss| && l != m
    requires l in ss[k].leases && Live(ss[k].leases[l]) && m in ss[k].leases && Live(ss[k].leases[m])
    requires ss[k].leases[l].organization == ss[k].leases[m].organization
    requires ss[k].leases[l].connection == ss[k].leases[m].connection
    requires ss[k].leases[l].user == ss[k].leases[m].user
    ensures ss[k].leases[l].activeSlot != ss[k].leases[m].activeSlot
    ensures 1 <= ss[k].leases[l].activeSlot <= SLOTS && 1 <= ss[k].leases[m].activeSlot <= SLOTS
  {
    RunKeepsAll(ss, acts, k);
  }

  ghost function SessionOf(s: State, organization: Id, connection: Id, user: Id): set<Id> {
    set l | l in s.leases && Live(s.leases[l]) && s.leases[l].organization == organization
            && s.leases[l].connection == connection && s.leases[l].user == user
  }

  lemma {:induction false} AtMostSlots(s: State, ids: set<Id>, bound: nat)
    requires forall l :: l in ids ==> l in s.leases && 1 <= s.leases[l].activeSlot <= bound
    requires forall l, m :: l in ids && m in ids && l != m ==> s.leases[l].activeSlot != s.leases[m].activeSlot
    ensures |ids| <= bound
  {
    if bound == 0 {
      if ids != {} {
        var l :| l in ids;
      }
    } else if l :| l in ids && s.leases[l].activeSlot == bound {
      AtMostSlots(s, ids - {l}, bound - 1);
    } else {
      AtMostSlots(s, ids, bound - 1);
    }
  }

  /** So no member ever has more than five live leases on a connection. */
  lemma NeverMoreThanFive(ss: seq<State>, acts: seq<Action>, k: nat, organization: Id, connection: Id, user: Id)
    requires IsRun(ss, acts) && k < |ss|
    ensures |SessionOf(ss[k], organization, connection, user)| <= SLOTS
  {
    RunKeepsAll(ss, acts, k);
    AtMostSlots(ss[k], SessionOf(ss[k], organization, connection, user), SLOTS);
  }

  // ---- Deadlock freedom ----------------------------------------------------------------------------

  /** Only reservations try slots and only finalizations match rows. */
  ghost predicate PhaseInv(s: State) {
    forall t :: t in s.txns && s.txns[t].Reading? ==>
      && (s.txns[t].phase.Offering? ==> s.txns[t].purpose.Reserve?)
      && (s.txns[t].phase.Matched? ==> s.txns[t].purpose.Finalize?)
  }

  lemma PhasesKept(s: State, a: Action)
    requires PhaseInv(s) && Enabled(s, a)
    ensures PhaseInv(Apply(s, a))
  {
    var s' := Apply(s, a);
    forall t | t in s'.txns && s'.txns[t].Reading?
      ensures s'.txns[t].phase.Offering? ==> s'.txns[t].purpose.Reserve?
      ensures s'.txns[t].phase.Matched? ==> s'.txns[t].purpose.Finalize?
    {
      if !ActsOn(a, t) {
        TxnFrame(s, a, t);
      }
    }
  }

  lemma {:induction false} RunKeepsPhases(ss: seq<State>, acts: seq<Action>, k: nat)
    requires IsRun(ss, acts) && k < |ss|
    ensures PhaseInv(ss[k])
  {
    hide Apply, Enabled, Inv, LeaseInv;
    if k > 0 {
      RunKeepsPhases(ss, acts, k - 1);
      assert StepAt(ss, acts, k - 1);
      PhasesKept(ss[k - 1], acts[k - 1]);
    }
  }

  predicate Advances(s: State, a: Action) {
    match a
    case SnapshotClaim(t) => t in s.txns
    case LockExclusive(t) => t in s.txns
    case WriteClaim(t) => t in s.txns
    case CommitClaim(t) => t in s.txns
    case LockShared(t) => t in s.txns
    case Snapshot(t) => t in s.txns
    case TrySlot(t) => t in s.txns
    case WriteFinal(t) => t in s.txns
    case CommitRead(t) => t in s.txns
    case _ => false
  }

  lemma ReaderAdvances(s: State, t: Id) returns (a: Action)
    requires Inv(s) && PhaseInv(s) && t in s.txns && s.txns[t].Reading?
    requires forall u :: u in s.txns ==> !HasLock(s.txns[u])
    ensures Enabled(s, a) && Advances(s, a)
  {
    var x := s.txns[t];
    match x.phase
    case Locking(held) => a := if held < 3 then LockShared(t) else Snapshot(t);
    case Answered(_) => a := CommitRead(t);
    case Offering(_, offered, inserted) =>
      if inserted.Some? || offered == [] {
        a := CommitRead(t);
      } else if SlotInFlight(s, x.auth, offered[0]) {
        var u :| u in s.txns && HasInsert(s.txns[u]);
        a := CommitRead(u);
      } else {
        a := TrySlot(t);
      }
    case Matched(_) =>
      if u :| u in s.txns && HasFinal(s.txns[u]) && s.txns[u].auth.leaseId == x.auth.leaseId {
        a := CommitRead(u);
      } else {
        a := WriteFinal(t);
      }
  }

  lemma SomeKey<X, Y>(m: map<X, Y>) returns (x: X)
    requires m != map[]
    ensures x in m
  {
    assert (forall k :: k !in m) ==> m == map[];
    x :| x in m;
  }

  /** Waits for locks, uncommitted inserts and locked rows never form a cycle: as long as a
      transaction is in flight, some transaction can take its next step. */
  lemma NoDeadlock(ss: seq<State>, acts: seq<Action>, k: nat) returns (a: Action)
    requires IsRun(ss, acts) && k < |ss| && ss[k].txns != map[]
    ensures Enabled(ss[k], a) && Advances(ss[k], a)
  {
    var s := ss[k];
    GateSafety.RunKeepsInv(ss, acts, k);
    RunKeepsPhases(ss, acts, k);
    if t :| t in s.txns && s.txns[t].Claiming? && s.txns[t].step.Written? {
      a := CommitClaim(t);
    } else if t :| t in s.txns && s.txns[t].Claiming? && s.txns[t].step.Locked? {
      a := WriteClaim(t);
    } else if t :| t in s.txns && s.txns[t].Reading? {
      a := ReaderAdvances(s, t);
    } else {
      var t := SomeKey(s.txns);
      a := if s.txns[t].step.Started? then SnapshotClaim(t) else LockExclusive(t);
    }
  }
}
