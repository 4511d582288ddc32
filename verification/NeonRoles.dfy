/** The life of Neon database roles: issuers, drains, sweeps and the provider interleave, every
    process can stop at any point, provider calls can fail, report a missing role, or take effect
    after the caller has seen them fail. */
module NeonRoles {
  import opened Wrappers
  import opened Gates
  import opened Leases
  import Cleanup
  import CleanupRuns

  /** Calling: the request is out. Returned: the call succeeded. Errored: the call failed.
      Finalizing: the issuer waits for its finalization. Rejected: it has seen the finalization fail.
      Undone: the best-effort revoke was tried. */
  datatype Phase =
    | Calling
    | Returned
    | Errored
    | Finalizing
    | Rejected
    | Undone(revoked: bool)
    | Finished

  /** The finalization at the database, which can commit before or after the issuer has seen it fail. */
  datatype Finalization = NotSent | InFlight(startedAt: Time) | Committed

  /** One request for a lease. until is the expiry its reservation was given; made says whether the
      provider has committed the role, which the issuer learns only from a successful call. */
  datatype Issuer = Issuer(phase: Phase, until: Time, made: bool, crashed: bool, final: Finalization)

  /** A drain or sweep: rows as read, the attempts under which a sweep has claimed them, the time
      read when the loop began, and the row whose role it has looked for and not yet settled. */
  datatype Worker = Worker(
    todo: map<Id, Lease>, claims: map<Id, Cleanup.Attempt>, clock: Option<Time>, asked: Option<Id>)

  const IDLE: Worker := Worker(map[], map[], None, None)

  datatype State = State(
    now: Time, leases: map<Id, Lease>, roles: set<CredentialId>,
    issuers: map<Id, Issuer>, workers: seq<Worker>)

  datatype Action =
    | Tick(to: Time)
    | Reserve(id: Id, lease: Lease)
    | CreateRole(id: Id)
    | ReturnRole(id: Id)
    | CallFails(id: Id)
    | CallFailsAfterCreation(id: Id, cleaned: bool)
    | ExpireReservation(id: Id)
    | BeginFinalize(id: Id)
    | CommitFinalize(id: Id, expiresAt: Time)
    | ReturnFinalize(id: Id)
    | RejectFinalize(id: Id)
    | BestEffortRevoke(id: Id, done: bool)
    | RecordUndo(id: Id)
    | StopIssuer(id: Id)
    | RoleVanishes(role: CredentialId)
    | Drain(ids: set<Id>)
    | Sweep(ids: set<Id>)
    | ReadClock(worker: nat)
    | DropRole(worker: nat, id: Id)
    | SkipRow(worker: nat, id: Id)
    | MarkRow(worker: nat, id: Id)
    | RetryRow(worker: nat, id: Id)
    | StopWorker(worker: nat)

  /** The role a cleanup derives from a row: from user and lease while the reservation is pending,
      from the stored credential afterwards. */
  function SweptRole(id: Id, l: Lease): CredentialId {
    if l.kind == Pending then NeonRole(l.user, id) else l.credentialId
  }

  predicate In(s: State, id: Id, p: Phase) {
    id in s.issuers && id in s.leases && s.issuers[id].phase == p && !s.issuers[id].crashed
  }

  predicate HasRow(s: State, w: nat, id: Id) {
    w < |s.workers| && id in s.workers[w].todo && s.workers[w].asked.None?
  }

  predicate LookedFor(s: State, w: nat, id: Id) {
    w < |s.workers| && s.workers[w].asked == Some(id)
  }

  /** A drain's rows carry no claim. */
  function ClaimOn(x: Worker, id: Id): Option<Cleanup.Attempt> {
    if id in x.claims then Some(x.claims[id]) else None
  }

  /** The provider commits a role at most once per request, at any time after the request went out:
      while the issuer waits, after it has crashed, and after it has seen the call fail. */
  predicate Enabled(s: State, a: Action) {
    match a
    case Tick(to) => s.now <= to
    case Reserve(id, l) =>
      && id !in s.leases && id !in s.issuers && Live(l) && l.kind == Pending && l.expiresAt == s.now + PENDING_LEASE_MS
      && l.cleanupAttempts == 0 && l.cleanupNextAttemptAt.None? && l.cleanupClaimedAt.None?
    case CreateRole(id) => id in s.issuers && id in s.leases && !s.issuers[id].made
    case ReturnRole(id) => In(s, id, Calling) && s.issuers[id].made
    case CallFails(id) => In(s, id, Calling)
    case CallFailsAfterCreation(id, _) => In(s, id, Calling) && s.issuers[id].made
    case ExpireReservation(id) => In(s, id, Errored)
    case BeginFinalize(id) => In(s, id, Returned)
    case CommitFinalize(id, e) =>
      && id in s.issuers && id in s.leases && s.issuers[id].final.InFlight?
      && Live(s.leases[id]) && s.leases[id].kind == Pending
      && s.issuers[id].final.startedAt < s.leases[id].expiresAt && s.issuers[id].final.startedAt < e
    case ReturnFinalize(id) => In(s, id, Finalizing) && s.issuers[id].final.Committed?
    case RejectFinalize(id) => In(s, id, Finalizing)
    case BestEffortRevoke(id, _) => In(s, id, Rejected)
    case RecordUndo(id) => id in s.issuers && id in s.leases && s.issuers[id].phase.Undone? && !s.issuers[id].crashed
    case StopIssuer(id) => id in s.issuers
    case RoleVanishes(role) => true
    case Drain(ids) => forall id :: id in ids ==> id in s.leases && Live(s.leases[id])
    case Sweep(ids) => forall id :: id in ids ==> id in s.leases && CleanupRuns.Ready(s.leases[id], s.now)
    case ReadClock(w) => w < |s.workers| && s.workers[w].clock.None?
    case DropRole(w, id) =>
      && HasRow(s, w, id) && s.workers[w].clock.Some?
      && (s.workers[w].todo[id].kind == Pending ==> s.workers[w].todo[id].expiresAt <= s.workers[w].clock.value)
    case SkipRow(w, id) => HasRow(s, w, id)
    case MarkRow(w, id) => LookedFor(s, w, id)
    case RetryRow(w, id) => HasRow(s, w, id) || LookedFor(s, w, id)
    case StopWorker(w) => w < |s.workers|
  }

  function Go(s: State, id: Id, p: Phase): State
    requires id in s.issuers
  {
    s.(issuers := s.issuers[id := s.issuers[id].(phase := p)])
  }

  function Work(s: State, w: nat, x: Worker): State
    requires w < |s.workers|
  {
    s.(workers := s.workers[w := x])
  }

  /** The worker once it is through with a row. */
  function Settled(x: Worker, id: Id): Worker {
    x.(todo := x.todo - {id}, asked := None)
  }

  function RoleOf(s: State, id: Id): CredentialId
    requires id in s.leases
  {
    NeonRole(s.leases[id].user, id)
  }

  function Apply(s: State, a: Action): State
    requires Enabled(s, a)
  {
    match a
    case Tick(to) => s.(now := to)
    case Reserve(id, l) =>
      s.(leases := s.leases[id := l], issuers := s.issuers[id := Issuer(Calling, l.expiresAt, false, false, NotSent)])
    case CreateRole(id) =>
      s.(roles := s.roles + {RoleOf(s, id)}, issuers := s.issuers[id := s.issuers[id].(made := true)])
    case ReturnRole(id) => Go(s, id, Returned)
    case CallFails(id) => Go(s, id, Errored)
    case CallFailsAfterCreation(id, cleaned) =>
      Go(s, id, Errored).(roles := if cleaned then s.roles - {RoleOf(s, id)} else s.roles)
    case ExpireReservation(id) => Go(s, id, Finished).(leases := s.leases[id := s.leases[id].(expiresAt := s.now)])
    case BeginFinalize(id) => s.(issuers := s.issuers[id := s.issuers[id].(phase := Finalizing, final := InFlight(s.now))])
    case CommitFinalize(id, e) =>
      s.(issuers := s.issuers[id := s.issuers[id].(final := Committed)],
         leases := s.leases[id := s.leases[id].(credentialId := RoleOf(s, id), kind := Role, expiresAt := e)])
    case ReturnFinalize(id) => Go(s, id, Finished)
    case RejectFinalize(id) => Go(s, id, Rejected)
    case BestEffortRevoke(id, done) => Go(s, id, Undone(done)).(roles := if done then s.roles - {RoleOf(s, id)} else s.roles)
    case RecordUndo(id) =>
      var l := s.leases[id];
      Go(s, id, Finished).(leases := s.leases[id := if s.issuers[id].phase.revoked then l.(revokedAt := Some(s.now)) else l.(expiresAt := s.now)])
    case StopIssuer(id) => s.(issuers := s.issuers[id := s.issuers[id].(crashed := true)])
    case RoleVanishes(role) => s.(roles := s.roles - {role})
    case Drain(ids) => s.(workers := s.workers + [IDLE.(todo := map id | id in ids :: s.leases[id])])
    case Sweep(ids) =>
      s.(leases := map id | id in s.leases ::
                     if id in ids then CleanupRuns.ClaimedForCleanup(s.leases[id], s.now) else s.leases[id],
         workers := s.workers + [IDLE.(todo := map id | id in ids :: s.leases[id],
                                       claims := map id | id in ids :: CleanupRuns.ClaimOf(s.leases[id]).value)])
    case ReadClock(w) => Work(s, w, s.workers[w].(clock := Some(s.now)))
    case DropRole(w, id) =>
      var x := s.workers[w];
      Work(s, w, x.(todo := x.todo - {id}, asked := Some(id))).(roles := s.roles - {SweptRole(id, x.todo[id])})
    case SkipRow(w, id) => Work(s, w, Settled(s.workers[w], id))
    case MarkRow(w, id) =>
      Work(s, w, Settled(s.workers[w], id))
      .(leases := Cleanup.MarkRevoked(s.leases, id, ClaimOn(s.workers[w], id), s.now))
    case RetryRow(w, id) =>
      var claim := ClaimOn(s.workers[w], id);
      Work(s, w, Settled(s.workers[w], id))
      .(leases := if claim.None? then s.leases else Cleanup.ScheduleRetry(s.leases, id, claim.value, s.now))
    case StopWorker(w) => Work(s, w, IDLE)
  }

  predicate StepAt(ss: seq<State>, acts: seq<Action>, k: nat)
    requires k < |acts| && |ss| == |acts| + 1
  {
    Enabled(ss[k], acts[k]) && ss[k + 1] == Apply(ss[k], acts[k])
  }

  predicate IsRun(ss: seq<State>, acts: seq<Action>) {
    && |ss| == |acts| + 1
    && ss[0].leases == map[] && ss[0].roles == {} && ss[0].issuers == map[] && ss[0].workers == []
    && forall k: nat :: k < |acts| ==> StepAt(ss, acts, k)
  }

  /** Some unrevoked lease row leads the cleanup to this very role. */
  ghost predicate Tracked(s: State, role: CredentialId) {
    exists id :: id in s.leases && Live(s.leases[id]) && SweptRole(id, s.leases[id]) == role
  }

  /** The worker has looked for the role and its mark would still hit the row: it is a drain's, or
      the claim under which its sweep took the row still stands. */
  predicate CanRetire(s: State, w: nat, id: Id) {
    LookedFor(s, w, id) && Cleanup.Fence(s.leases, id, ClaimOn(s.workers[w], id))
  }

  /** The lease's row is still live, and no worker that could still retire it has already looked for
      its role. */
  ghost predicate RowAwaitsRole(s: State, id: Id) {
    id in s.leases && Live(s.leases[id]) && forall w: nat :: !CanRetire(s, w, id)
  }

  // ---- What always holds ---------------------------------------------------------------------------------

  ghost predicate NamesInv(s: State) {
    && (forall id :: id in s.issuers ==> id in s.leases)
    && (forall id :: id in s.leases ==> SweptRole(id, s.leases[id]) == RoleOf(s, id))
    && (forall w: nat, id :: w < |s.workers| && id in s.workers[w].todo ==>
          id in s.leases && SweptRole(id, s.workers[w].todo[id]) == RoleOf(s, id))
    && (forall w: nat, id :: LookedFor(s, w, id) ==> id in s.leases)
  }

  /** Claims never run ahead of the row. */
  ghost predicate ClaimsInv(s: State) {
    forall w: nat, id :: w < |s.workers| && id in s.workers[w].claims ==>
      id in s.leases && s.workers[w].claims[id] <= s.leases[id].cleanupAttempts
  }

  /** Past a successful call the role has been made; a revoke that was confirmed left none. */
  predicate MadeInv(s: State) {
    && (forall r :: r in s.roles ==>
          r.NeonRole? && r.lease in s.issuers && r.lease in s.leases && r == RoleOf(s, r.lease) && s.issuers[r.lease].made)
    && (forall id :: id in s.issuers && !s.issuers[id].made ==> s.issuers[id].phase in {Calling, Errored, Finished})
    && (forall id :: id in s.issuers && s.issuers[id].phase == Undone(true) ==> id in s.leases && RoleOf(s, id) !in s.roles)
  }

  /** The issuer still waits for its call and its reservation has not expired. */
  predicate Open(s: State, id: Id) {
    id in s.issuers && s.issuers[id].phase == Calling && s.now < s.issuers[id].until
  }

  ghost predicate OpenInv(s: State) {
    && (forall id :: id in s.issuers && Open(s, id) ==>
          && id in s.leases && Live(s.leases[id]) && s.leases[id].kind == Pending
          && s.leases[id].expiresAt == s.issuers[id].until && s.issuers[id].final.NotSent?)
    && (forall w: nat :: w < |s.workers| && s.workers[w].clock.Some? ==> s.workers[w].clock.value <= s.now)
    && (forall w: nat, id :: w < |s.workers| && id in s.workers[w].todo && Open(s, id) ==>
          s.workers[w].todo[id].kind == Pending && s.workers[w].todo[id].expiresAt == s.issuers[id].until)
    && (forall w: nat, id :: LookedFor(s, w, id) ==> !Open(s, id))
  }

  ghost predicate Inv(s: State) {
    NamesInv(s) && ClaimsInv(s) && MadeInv(s) && OpenInv(s)
  }

  lemma OpenOnlyCloses(s: State, a: Action, id: Id)
    requires Enabled(s, a) && Open(Apply(s, a), id)
    ensures (a.Reserve? && a.id == id) || (Open(s, id) && s.issuers[id].until == Apply(s, a).issuers[id].until)
  {
  }

  lemma RowKept(s: State, a: Action, id: Id)
    requires Inv(s) && Enabled(s, a) && id in s.leases
    ensures id in Apply(s, a).leases && RoleOf(Apply(s, a), id) == RoleOf(s, id)
    ensures SweptRole(id, Apply(s, a).leases[id]) == RoleOf(s, id)
    ensures Open(s, id) && Open(Apply(s, a), id) ==> SameUntilOpen(s.leases[id], Apply(s, a).leases[id])
  {
    assert a.MarkRow? ==> LookedFor(s, a.worker, a.id);
  }

  /** What cleanup claims and retries leave alone. */
  predicate SameUntilOpen(l: Lease, m: Lease) {
    Live(l) == Live(m) && l.kind == m.kind && l.expiresAt == m.expiresAt
  }

  /** A worker that has a row on its list had it there before, or has just read it. */
  lemma TodoComesFrom(s: State, a: Action, w: nat, id: Id)
    requires Enabled(s, a) && w < |Apply(s, a).workers| && id in Apply(s, a).workers[w].todo
    ensures (w < |s.workers| && id in s.workers[w].todo && s.workers[w].todo[id] == Apply(s, a).workers[w].todo[id])
            || ((a.Drain? || a.Sweep?) && id in s.leases && Apply(s, a).workers[w].todo[id] == s.leases[id]
                && Apply(s, a).issuers == s.issuers && Apply(s, a).now == s.now)
  {
  }

  lemma LookComesFrom(s: State, a: Action, w: nat, id: Id)
    requires Enabled(s, a) && LookedFor(Apply(s, a), w, id)
    ensures (LookedFor(s, w, id) && ClaimOn(Apply(s, a).workers[w], id) == ClaimOn(s.workers[w], id))
            || (a == DropRole(w, id) && id in s.workers[w].todo
                && Apply(s, a).leases == s.leases && Apply(s, a).issuers == s.issuers && Apply(s, a).now == s.now)
  {
  }

  lemma NamesKept(s: State, a: Action)
    requires Inv(s) && Enabled(s, a)
    ensures NamesInv(Apply(s, a))
  {
    hide ClaimsInv, MadeInv, OpenInv, Cleanup.Fence;
    var s' := Apply(s, a);
    forall id | id in s'.leases ensures SweptRole(id, s'.leases[id]) == RoleOf(s', id) {
      if id in s.leases {
        RowKept(s, a, id);
      }
    }
    forall w: nat, id | w < |s'.workers| && id in s'.workers[w].todo
      ensures id in s'.leases && SweptRole(id, s'.workers[w].todo[id]) == RoleOf(s', id)
    {
      TodoComesFrom(s, a, w, id);
      RowKept(s, a, id);
    }
    forall w: nat, id | LookedFor(s', w, id) ensures id in s'.leases {
      LookComesFrom(s, a, w, id);
      RowKept(s, a, id);
    }
  }

  lemma ClaimsKept(s: State, a: Action)
    requires Inv(s) && Enabled(s, a)
    ensures ClaimsInv(Apply(s, a))
  {
    var s' := Apply(s, a);
    forall w: nat, id | w < |s'.workers| && id in s'.workers[w].claims
      ensures id in s'.leases && s'.workers[w].claims[id] <= s'.leases[id].cleanupAttempts
    {
      ClaimComesFrom(s, a, w, id);
      if w < |s.workers| {
        CleanupColumns(s, a, id);
      }
    }
  }

  /** A worker that holds a claim held it before, or has just claimed the row's next attempt. */
  lemma ClaimComesFrom(s: State, a: Action, w: nat, id: Id)
    requires Enabled(s, a) && w < |Apply(s, a).workers| && id in Apply(s, a).workers[w].claims
    ensures w < |s.workers| ==> id in s.workers[w].claims && s.workers[w].claims[id] == Apply(s, a).workers[w].claims[id]
    ensures w >= |s.workers| ==>
              id in Apply(s, a).leases && Apply(s, a).workers[w].claims[id] == Apply(s, a).leases[id].cleanupAttempts
  {
  }

  /** Attempts only grow, and a row is claimed only under a new attempt. */
  lemma CleanupColumns(s: State, a: Action, id: Id)
    requires Enabled(s, a) && id in s.leases
    ensures id in Apply(s, a).leases
    ensures var l, m := s.leases[id], Apply(s, a).leases[id];
            && l.cleanupAttempts <= m.cleanupAttempts
            && (l.cleanupAttempts == m.cleanupAttempts && m.cleanupClaimedAt.Some? ==> l.cleanupClaimedAt.Some?)
  {
  }

  lemma MadeKept(s: State, a: Action)
    requires Inv(s) && Enabled(s, a)
    ensures MadeInv(Apply(s, a))
  {
    hide Apply, Enabled;
    var s' := Apply(s, a);
    forall r | r in s'.roles
      ensures r.NeonRole? && r.lease in s'.issuers && r.lease in s'.leases && r == RoleOf(s', r.lease) && s'.issuers[r.lease].made
    {
      RoleWasMade(s, a, r);
    }
    forall id | id in s'.issuers
      ensures !s'.issuers[id].made ==> s'.issuers[id].phase in {Calling, Errored, Finished}
      ensures s'.issuers[id].phase == Undone(true) ==> id in s'.leases && RoleOf(s', id) !in s'.roles
    {
      IssuerFits(s, a, id);
    }
  }

  lemma RoleWasMade(s: State, a: Action, r: CredentialId)
    requires Inv(s) && Enabled(s, a) && r in Apply(s, a).roles
    ensures var s' := Apply(s, a);
            r.NeonRole? && r.lease in s'.issuers && r.lease in s'.leases && r == RoleOf(s', r.lease) && s'.issuers[r.lease].made
  {
    hide ClaimsInv, OpenInv, SweptRole, Cleanup.Fence, Cleanup.MarkRevoked, Cleanup.ScheduleRetry;
    if r in s.roles {
      RowKept(s, a, r.lease);
    } else {
      RowKept(s, a, a.id);
    }
  }

  lemma IssuerFits(s: State, a: Action, id: Id)
    requires Inv(s) && Enabled(s, a) && id in Apply(s, a).issuers
    ensures var s' := Apply(s, a);
            && (!s'.issuers[id].made ==> s'.issuers[id].phase in {Calling, Errored, Finished})
            && (s'.issuers[id].phase == Undone(true) ==> id in s'.leases && RoleOf(s', id) !in s'.roles)
  {
    hide ClaimsInv, OpenInv, SweptRole, Cleanup.Fence, Cleanup.MarkRevoked, Cleanup.ScheduleRetry;
    if id in s.issuers {
      RowKept(s, a, id);
    }
  }

  lemma OpenKept(s: State, a: Action)
    requires Inv(s) && Enabled(s, a)
    ensures OpenInv(Apply(s, a))
  {
    hide NamesInv, ClaimsInv, MadeInv, SweptRole;
    var s' := Apply(s, a);
    forall id | id in s'.issuers && Open(s', id)
      ensures id in s'.leases && Live(s'.leases[id]) && s'.leases[id].kind == Pending
      ensures s'.leases[id].expiresAt == s'.issuers[id].until && s'.issuers[id].final.NotSent?
    {
      OpenOnlyCloses(s, a, id);
      if Open(s, id) {
        RowKept(s, a, id);
      }
    }
    forall w: nat, id | w < |s'.workers| && id in s'.workers[w].todo && Open(s', id)
      ensures s'.workers[w].todo[id].kind == Pending && s'.workers[w].todo[id].expiresAt == s'.issuers[id].until
    {
      OpenTodo(s, a, w, id);
    }
    forall w: nat, id | LookedFor(s', w, id) ensures !Open(s', id) {
      OpenDropped(s, a, w, id);
    }
  }

  lemma OpenTodo(s: State, a: Action, w: nat, id: Id)
    requires Inv(s) && Enabled(s, a) && w < |Apply(s, a).workers| && id in Apply(s, a).workers[w].todo && Open(Apply(s, a), id)
    ensures Apply(s, a).workers[w].todo[id].kind == Pending
    ensures Apply(s, a).workers[w].todo[id].expiresAt == Apply(s, a).issuers[id].until
  {
    TodoComesFrom(s, a, w, id);
    OpenOnlyCloses(s, a, id);
    hide Apply, Enabled, SweptRole;
  }

  lemma OpenDropped(s: State, a: Action, w: nat, id: Id)
    requires Inv(s) && Enabled(s, a) && LookedFor(Apply(s, a), w, id)
    ensures !Open(Apply(s, a), id)
  {
    LookComesFrom(s, a, w, id);
    if Open(Apply(s, a), id) {
      OpenOnlyCloses(s, a, id);
    }
  }

  lemma {:induction false} RunKeepsInv(ss: seq<State>, acts: seq<Action>, k: nat)
    requires IsRun(ss, acts) && k < |ss|
    ensures Inv(ss[k])
  {
    hide Apply, Enabled, NamesInv, ClaimsInv, MadeInv, OpenInv;
    if k == 0 {
      NothingYet(ss[0]);
    } else {
      RunKeepsInv(ss, acts, k - 1);
      assert StepAt(ss, acts, k - 1);
      NamesKept(ss[k - 1], acts[k - 1]);
      ClaimsKept(ss[k - 1], acts[k - 1]);
      MadeKept(ss[k - 1], acts[k - 1]);
      OpenKept(ss[k - 1], acts[k - 1]);
    }
  }

  lemma NothingYet(s: State)
    requires s.leases == map[] && s.roles == {} && s.issuers == map[] && s.workers == []
    ensures Inv(s)
  {
  }

  // ---- A role whose row awaited it stays tracked -----------------------------------------------------------

  /** Once made, the role is gone for good or its row is live and nobody retires it in vain. */
  ghost predicate GoneOrAwaited(s: State, id: Id) {
    && id in s.issuers && id in s.leases && s.issuers[id].made
    && (RoleOf(s, id) in s.roles ==> RowAwaitsRole(s, id))
  }

  /** A row retires only for a cleanup that has looked for its role, or a confirmed revoke. */
  lemma RetiringRow(s: State, a: Action, id: Id)
    requires Inv(s) && Enabled(s, a) && id in s.leases && Live(s.leases[id])
    requires id in Apply(s, a).leases && !Live(Apply(s, a).leases[id])
    ensures Apply(s, a).roles == s.roles
    ensures RoleOf(s, id) !in s.roles || exists w: nat :: CanRetire(s, w, id)
  {
    if a.MarkRow? {
      assert CanRetire(s, a.worker, id);
    }
  }

  lemma RoleComesFrom(s: State, a: Action, r: CredentialId)
    requires Enabled(s, a) && r in Apply(s, a).roles
    ensures r in s.roles || (a.CreateRole? && a.id in s.leases && a.id in s.issuers && r == RoleOf(s, a.id) && !s.issuers[a.id].made)
    ensures a.DropRole? ==>
              a.worker < |s.workers| && a.id in s.workers[a.worker].todo && r != SweptRole(a.id, s.workers[a.worker].todo[a.id])
  {
  }

  lemma MadeStays(s: State, a: Action, id: Id)
    requires Enabled(s, a) && id in s.issuers && s.issuers[id].made
    ensures id in Apply(s, a).issuers && Apply(s, a).issuers[id].made
  {
  }

  /** A mark that has lost its fence does not get it back. */
  lemma RetiringComesFrom(s: State, a: Action, w: nat, id: Id)
    requires Inv(s) && Enabled(s, a) && id in s.leases && Live(s.leases[id]) && CanRetire(Apply(s, a), w, id)
    ensures CanRetire(s, w, id) || (a == DropRole(w, id) && id in s.workers[w].todo)
  {
    hide Apply, Enabled, NamesInv, MadeInv, OpenInv;
    LookComesFrom(s, a, w, id);
    CleanupColumns(s, a, id);
  }

  lemma GoneOrAwaitedKept(s: State, a: Action, id: Id)
    requires Inv(s) && Enabled(s, a) && GoneOrAwaited(s, id)
    ensures GoneOrAwaited(Apply(s, a), id)
  {
    hide Apply, Enabled, OpenInv;
    var s' := Apply(s, a);
    RowKept(s, a, id);
    MadeStays(s, a, id);
    if RoleOf(s', id) in s'.roles {
      RoleComesFrom(s, a, RoleOf(s', id));
      if !Live(s'.leases[id]) {
        RetiringRow(s, a, id);
      }
      forall w: nat ensures !CanRetire(s', w, id) {
        if CanRetire(s', w, id) {
          RetiringComesFrom(s, a, w, id);
        }
      }
    }
  }

  lemma CreationIsAwaited(s: State, id: Id)
    requires Inv(s) && Enabled(s, CreateRole(id)) && RowAwaitsRole(s, id)
    ensures GoneOrAwaited(Apply(s, CreateRole(id)), id)
  {
    var s' := Apply(s, CreateRole(id));
    forall w: nat ensures !CanRetire(s', w, id) {
      assert !CanRetire(s, w, id);
    }
  }

  lemma {:induction false} AwaitedRoleStays(ss: seq<State>, acts: seq<Action>, k: nat, j: nat, id: Id)
    requires IsRun(ss, acts) && k < j < |ss| && acts[k] == CreateRole(id) && RowAwaitsRole(ss[k], id)
    ensures GoneOrAwaited(ss[j], id)
    decreases j
  {
    hide Apply, Enabled, Inv, GoneOrAwaited, RowAwaitsRole;
    assert StepAt(ss, acts, j - 1);
    RunKeepsInv(ss, acts, j - 1);
    if j == k + 1 {
      CreationIsAwaited(ss[k], id);
    } else {
      AwaitedRoleStays(ss, acts, k, j - 1, id);
      GoneOrAwaitedKept(ss[j - 1], acts[j - 1], id);
    }
  }

  lemma AwaitedIsTracked(s: State, id: Id)
    requires Inv(s) && GoneOrAwaited(s, id) && RoleOf(s, id) in s.roles
    ensures Tracked(s, RoleOf(s, id))
  {
    assert Live(s.leases[id]) && SweptRole(id, s.leases[id]) == RoleOf(s, id);
  }

  // ---- And a role whose row did not await it can be lost ----------------------------------------------------

  lemma RetiredIsUntracked(s: State, id: Id)
    requires Inv(s) && id in s.leases && !Live(s.leases[id])
    ensures !Tracked(s, RoleOf(s, id))
  {
    forall other | other in s.leases && Live(s.leases[other]) ensures SweptRole(other, s.leases[other]) != RoleOf(s, id) {
      assert SweptRole(other, s.leases[other]) == RoleOf(s, other);
    }
  }

  lemma PrefixIsRun(ss: seq<State>, acts: seq<Action>, n: nat)
    requires IsRun(ss, acts) && n <= |acts|
    ensures IsRun(ss[..n + 1], acts[..n])
  {
    hide Apply, Enabled;
    var ss', acts' := ss[..n + 1], acts[..n];
    forall k: nat | k < n ensures StepAt(ss', acts', k) {
      assert StepAt(ss, acts, k);
    }
  }

  lemma RunGoesOn(ss: seq<State>, acts: seq<Action>, a: Action)
    requires IsRun(ss, acts) && Enabled(ss[|acts|], a)
    ensures IsRun(ss + [Apply(ss[|acts|], a)], acts + [a])
  {
    hide Apply, Enabled;
    var ss', acts' := ss + [Apply(ss[|acts|], a)], acts + [a];
    forall k: nat | k < |acts'| ensures StepAt(ss', acts', k) {
      if k < |acts| {
        assert StepAt(ss, acts, k);
      }
    }
  }

  lemma MarkRetires(s: State, w: nat, id: Id)
    requires Inv(s) && CanRetire(s, w, id)
    ensures Enabled(s, MarkRow(w, id)) && id in s.leases
    ensures id in Apply(s, MarkRow(w, id)).leases && !Live(Apply(s, MarkRow(w, id)).leases[id])
    ensures Apply(s, MarkRow(w, id)).roles == s.roles && RoleOf(Apply(s, MarkRow(w, id)), id) == RoleOf(s, id)
  {
  }

  lemma CreationEffect(s: State, id: Id)
    requires Enabled(s, CreateRole(id))
    ensures var s' := Apply(s, CreateRole(id));
            s'.leases == s.leases && s'.workers == s.workers && RoleOf(s, id) in s'.roles
  {
  }

  /** If the row did not await the role, there is a continuation, at most one step on, in which the
      role is alive and nothing leads to it. */
  lemma UnawaitedRoleCanBeLost(ss: seq<State>, acts: seq<Action>, k: nat, id: Id) returns (ss': seq<State>, acts': seq<Action>)
    requires IsRun(ss, acts) && k < |acts| && acts[k] == CreateRole(id) && !RowAwaitsRole(ss[k], id)
    ensures IsRun(ss', acts') && Continues(ss', acts', ss, acts, k + 1) && id in ss[k].leases
    ensures RoleOf(ss[k], id) in ss'[|acts'|].roles && !Tracked(ss'[|acts'|], RoleOf(ss[k], id))
  {
    hide Apply, Enabled, Inv, NamesInv, MadeInv, OpenInv, IsRun, Tracked;
    assert |ss| == |acts| + 1 && StepAt(ss, acts, k) by { StepOf(ss, acts, k); }
    var s := ss[k];
    CreationHasRow(s, id);
    CreationEffect(s, id);
    PrefixIsRun(ss, acts, k + 1);
    ss', acts' := ss[..k + 2], acts[..k + 1];
    RunKeepsInv(ss', acts', k + 1);
    if !Live(s.leases[id]) {
      RetiredIsUntracked(ss[k + 1], id);
    } else {
      var w: nat :| CanRetire(s, w, id);
      assert CanRetire(ss[k + 1], w, id);
      MarkRetires(ss[k + 1], w, id);
      RunGoesOn(ss', acts', MarkRow(w, id));
      ss', acts' := ss' + [Apply(ss[k + 1], MarkRow(w, id))], acts' + [MarkRow(w, id)];
      RunKeepsInv(ss', acts', k + 2);
      RetiredIsUntracked(ss'[k + 2], id);
    }
  }

  lemma StepOf(ss: seq<State>, acts: seq<Action>, k: nat)
    requires IsRun(ss, acts) && k < |acts|
    ensures |ss| == |acts| + 1 && StepAt(ss, acts, k)
  {
  }

  lemma CreationHasRow(s: State, id: Id)
    requires Enabled(s, CreateRole(id))
    ensures id in s.leases
  {
  }

  /** The run agrees with another one through its first n steps. */
  predicate Continues(ss': seq<State>, acts': seq<Action>, ss: seq<State>, acts: seq<Action>, n: nat) {
    && n <= |acts| && n <= |acts'| && n < |ss| && n < |ss'| && |ss'| == |acts'| + 1
    && ss'[..n + 1] == ss[..n + 1] && acts'[..n] == acts[..n]
  }

  /** Whatever happens after the k-th step, the role is tracked whenever it is alive. */
  ghost predicate AlwaysTracked(ss: seq<State>, acts: seq<Action>, k: nat, role: CredentialId) {
    forall ss': seq<State>, acts': seq<Action>, j: nat ::
      Continues(ss', acts', ss, acts, k + 1) && IsRun(ss', acts') && k < j < |ss'| && role in ss'[j].roles ==>
        Tracked(ss'[j], role)
  }

  /** A role the provider commits is tracked in every continuation of the run exactly when, at that
      moment, its lease row is live and no drain, and no sweep whose claim still stands, has looked
      for the role in vain. */
  lemma RoleIsTrackedExactly(ss: seq<State>, acts: seq<Action>, k: nat, id: Id)
    requires IsRun(ss, acts) && k < |acts| && acts[k] == CreateRole(id)
    ensures id in ss[k].leases
    ensures AlwaysTracked(ss, acts, k, RoleOf(ss[k], id)) <==> RowAwaitsRole(ss[k], id)
  {
    hide Apply, Enabled, Inv, Tracked, RowAwaitsRole;
    StepOf(ss, acts, k);
    CreationHasRow(ss[k], id);
    var role := RoleOf(ss[k], id);
    if RowAwaitsRole(ss[k], id) {
      forall ss': seq<State>, acts': seq<Action>, j: nat
        | Continues(ss', acts', ss, acts, k + 1) && IsRun(ss', acts') && k < j < |ss'| && role in ss'[j].roles
        ensures Tracked(ss'[j], role)
      {
        assert ss'[k] == ss'[..k + 2][k] == ss[k] && acts'[k] == acts'[..k + 1][k] == acts[k];
        AwaitedRoleStays(ss', acts', k, j, id);
        NameStays(ss', acts', k, j, id);
        RunKeepsInv(ss', acts', j);
        AwaitedIsTracked(ss'[j], id);
      }
    } else {
      var ss', acts' := UnawaitedRoleCanBeLost(ss, acts, k, id);
      assert k < |acts'| < |ss'|;
    }
  }

  lemma {:induction false} NameStays(ss: seq<State>, acts: seq<Action>, k: nat, j: nat, id: Id)
    requires IsRun(ss, acts) && k <= j < |ss| && id in ss[k].leases
    ensures id in ss[j].leases && RoleOf(ss[j], id) == RoleOf(ss[k], id)
    decreases j
  {
    hide Apply, Enabled, Inv;
    if k < j {
      NameStays(ss, acts, k, j - 1, id);
      RunKeepsInv(ss, acts, j - 1);
      assert StepAt(ss, acts, j - 1);
      RowKept(ss[j - 1], acts[j - 1], id);
    }
  }

  // ---- Runs in which every role is awaited --------------------------------------------------------------------

  ghost predicate AllAwaited(ss: seq<State>, acts: seq<Action>)
    requires |ss| == |acts| + 1
  {
    forall k: nat :: k < |acts| && acts[k].CreateRole? ==> RowAwaitsRole(ss[k], acts[k].id)
  }

  lemma {:induction false} RoleWasCreated(ss: seq<State>, acts: seq<Action>, j: nat, role: CredentialId) returns (k: nat)
    requires IsRun(ss, acts) && j < |ss| && role in ss[j].roles
    ensures k < j && acts[k].CreateRole? && acts[k].id in ss[k].leases && role == RoleOf(ss[k], acts[k].id)
  {
    hide Apply, Enabled;
    assert j > 0;
    assert StepAt(ss, acts, j - 1);
    RoleComesFrom(ss[j - 1], acts[j - 1], role);
    if role in ss[j - 1].roles {
      k := RoleWasCreated(ss, acts, j - 1, role);
    } else {
      k := j - 1;
      CreationHasRow(ss[k], acts[k].id);
    }
  }

  /** No untracked role: if every role was committed to a row that awaited it, every role alive at
      the provider has a live lease row from which a cleanup derives that very role name, whatever
      fails or stops. */
  lemma EveryRoleIsTracked(ss: seq<State>, acts: seq<Action>, j: nat, role: CredentialId)
    requires IsRun(ss, acts) && AllAwaited(ss, acts) && j < |ss| && role in ss[j].roles
    ensures Tracked(ss[j], role)
  {
    hide Apply, Enabled, Inv, Tracked, RowAwaitsRole;
    var k := RoleWasCreated(ss, acts, j, role);
    AwaitedRoleStays(ss, acts, k, j, acts[k].id);
    NameStays(ss, acts, k, j, acts[k].id);
    RunKeepsInv(ss, acts, j);
    AwaitedIsTracked(ss[j], acts[k].id);
  }

  /** A role committed while its issuer still waits and before its reservation expires is awaited. */
  lemma TimelyRoleIsAwaited(ss: seq<State>, acts: seq<Action>, k: nat, id: Id)
    requires IsRun(ss, acts) && k < |acts| && acts[k] == CreateRole(id) && Open(ss[k], id)
    ensures RowAwaitsRole(ss[k], id)
  {
    hide Apply, Enabled, NamesInv, ClaimsInv, MadeInv;
    RunKeepsInv(ss, acts, k);
  }

  /** And a cleanup never drops a role that belongs to another lease. */
  lemma DropHitsOwnRole(ss: seq<State>, acts: seq<Action>, k: nat, role: CredentialId)
    requires IsRun(ss, acts) && k < |acts| && acts[k].DropRole?
    requires role in ss[k].roles && role !in ss[k + 1].roles
    ensures acts[k].id in ss[k].leases && role == NeonRole(ss[k].leases[acts[k].id].user, acts[k].id)
  {
    RunKeepsInv(ss, acts, k);
    assert StepAt(ss, acts, k);
  }

  // ---- Two ways to lose a role -----------------------------------------------------------------------------------

  const FRESH: Lease := Lease(0, 0, 0, 7, Neon, ReadAccess, OwnId(1), Pending, 1, PENDING_LEASE_MS, None, 0, None, None)

  const START: State := State(0, map[], {}, map[], [])

  function Requested(now: Time, phase: Phase, l: Lease): State {
    State(now, map[1 := l], {}, map[1 := Issuer(phase, PENDING_LEASE_MS, false, false, NotSent)], [])
  }

  lemma RequestRuns() returns (ss: seq<State>, acts: seq<Action>)
    ensures IsRun(ss, acts) && |acts| == 1 && |ss| == 2 && ss[1] == Requested(0, Calling, FRESH)
  {
    ss, acts := [START], [];
    RunGoesOn(ss, acts, Reserve(1, FRESH));
    ss, acts := [START, Requested(0, Calling, FRESH)], [Reserve(1, FRESH)];
    assert [START] + [Requested(0, Calling, FRESH)] == ss && [] + [Reserve(1, FRESH)] == acts;
  }

  lemma StateCount(ss: seq<State>, acts: seq<Action>)
    requires IsRun(ss, acts)
    ensures |ss| == |acts| + 1
  {
  }

  /** The reservation once a sweep has claimed it. */
  function ClaimedRow(now: Time, l: Lease): Lease {
    l.(cleanupAttempts := 1, cleanupClaimedAt := Some(now))
  }

  /** One sweep holds the reservation, or has looked for its role and found none. */
  function Swept(now: Time, phase: Phase, l: Lease, at: Time, sweeper: Worker): State {
    State(now, map[1 := ClaimedRow(at, l)], {}, map[1 := Issuer(phase, PENDING_LEASE_MS, false, false, NotSent)], [sweeper])
  }

  const LOOKING: Worker := Worker(map[], map[1 := 1], None, Some(1))

  lemma SweepClaims(now: Time, phase: Phase, l: Lease)
    requires l == FRESH.(expiresAt := l.expiresAt) && l.expiresAt <= now
    ensures Enabled(Requested(now, phase, l), Sweep({1}))
    ensures Apply(Requested(now, phase, l), Sweep({1})) == Swept(now, phase, l, now, Worker(map[1 := l], map[1 := 1], None, None))
  {
    var s := Apply(Requested(now, phase, l), Sweep({1}));
    assert s.leases == map[1 := ClaimedRow(now, l)];
    assert s.workers[0].todo == map[1 := l] && s.workers[0].claims == map[1 := 1];
  }

  lemma SweepLooks(now: Time, phase: Phase, l: Lease)
    requires l == FRESH.(expiresAt := l.expiresAt) && l.expiresAt <= now
    ensures var s1 := Swept(now, phase, l, now, Worker(map[1 := l], map[1 := 1], None, None));
            var s2 := Swept(now, phase, l, now, Worker(map[1 := l], map[1 := 1], Some(now), None));
            && Enabled(s1, ReadClock(0)) && Apply(s1, ReadClock(0)) == s2
            && Enabled(s2, DropRole(0, 1))
            && Apply(s2, DropRole(0, 1)) == Swept(now, phase, l, now, LOOKING.(clock := Some(now)))
  {
    var s2 := Swept(now, phase, l, now, Worker(map[1 := l], map[1 := 1], Some(now), None));
    var s3 := Apply(s2, DropRole(0, 1));
    assert s3.workers[0].todo == map[] && s3.roles == {};
  }

  lemma SweepMarks(now: Time, phase: Phase, l: Lease)
    requires l == FRESH.(expiresAt := l.expiresAt) && l.expiresAt <= now
    ensures var s3 := Swept(now, phase, l, now, LOOKING.(clock := Some(now)));
            && Enabled(s3, MarkRow(0, 1))
            && Apply(s3, MarkRow(0, 1)).leases == map[1 := l.(revokedAt := Some(now), cleanupAttempts := 1)]
            && Apply(s3, MarkRow(0, 1)).issuers == s3.issuers && Apply(s3, MarkRow(0, 1)).now == now
  {
  }

  /** A sweep claims the expired row, looks for its role and finds none. */
  lemma SweepFindsNothing(ss: seq<State>, acts: seq<Action>, phase: Phase, l: Lease) returns (ss': seq<State>, acts': seq<Action>)
    requires IsRun(ss, acts) && ss[|acts|] == Requested(ss[|acts|].now, phase, l)
    requires l == FRESH.(expiresAt := l.expiresAt) && l.expiresAt <= ss[|acts|].now
    ensures IsRun(ss', acts') && |ss'| - 1 == |acts'| == |acts| + 3 && ss <= ss' && acts <= acts'
    ensures ss'[|acts'|] == Swept(ss[|acts|].now, phase, l, ss[|acts|].now, LOOKING.(clock := Some(ss[|acts|].now)))
  {
    hide IsRun, Apply, Enabled;
    StateCount(ss, acts);
    var now := ss[|acts|].now;
    var s1 := Swept(now, phase, l, now, Worker(map[1 := l], map[1 := 1], None, None));
    var s2 := Swept(now, phase, l, now, Worker(map[1 := l], map[1 := 1], Some(now), None));
    var s3 := Swept(now, phase, l, now, LOOKING.(clock := Some(now)));
    SweepClaims(now, phase, l);
    SweepLooks(now, phase, l);
    RunGoesOn(ss, acts, Sweep({1}));
    RunGoesOn(ss + [s1], acts + [Sweep({1})], ReadClock(0));
    RunGoesOn(ss + [s1] + [s2], acts + [Sweep({1})] + [ReadClock(0)], DropRole(0, 1));
    ss' := ss + [s1] + [s2] + [s3];
    acts' := acts + [Sweep({1})] + [ReadClock(0)] + [DropRole(0, 1)];
  }

  /** A cleanup finds no role for an expired row, and the row retires. */
  lemma CleanupFindsNothing(ss: seq<State>, acts: seq<Action>, phase: Phase, l: Lease) returns (ss': seq<State>, acts': seq<Action>)
    requires IsRun(ss, acts) && ss[|acts|] == Requested(ss[|acts|].now, phase, l)
    requires l == FRESH.(expiresAt := l.expiresAt) && l.expiresAt <= ss[|acts|].now
    ensures IsRun(ss', acts') && |ss'| - 1 == |acts'| == |acts| + 4 && ss'[|acts'|].now == ss[|acts|].now
    ensures ss <= ss' && acts <= acts'
    ensures ss'[|acts'|].leases == map[1 := l.(revokedAt := Some(ss[|acts|].now), cleanupAttempts := 1)]
    ensures ss'[|acts'|].issuers == map[1 := Issuer(phase, PENDING_LEASE_MS, false, false, NotSent)]
  {
    hide IsRun, Apply, Enabled;
    StateCount(ss, acts);
    var now := ss[|acts|].now;
    ss', acts' := SweepFindsNothing(ss, acts, phase, l);
    SweepMarks(now, phase, l);
    var s4 := Apply(ss'[|acts'|], MarkRow(0, 1));
    RunGoesOn(ss', acts', MarkRow(0, 1));
    ss', acts' := ss' + [s4], acts' + [MarkRow(0, 1)];
  }

  lemma RoleIsLost(ss: seq<State>, acts: seq<Action>, phase: Phase, l: Lease) returns (ss': seq<State>, acts': seq<Action>)
    requires IsRun(ss, acts) && ss[|acts|].leases == map[1 := l] && !Live(l) && l.kind == Pending && l.user == 7
    requires ss[|acts|].issuers == map[1 := Issuer(phase, PENDING_LEASE_MS, false, false, NotSent)]
    ensures IsRun(ss', acts') && |ss'| - 1 == |acts'| == |acts| + 1 && acts'[|acts|] == CreateRole(1) && ss <= ss' && acts <= acts'
    ensures NeonRole(7, 1) in ss'[|acts'|].roles && !Tracked(ss'[|acts'|], NeonRole(7, 1))
  {
    hide IsRun;
    StateCount(ss, acts);
    var s := Apply(ss[|acts|], CreateRole(1));
    RunGoesOn(ss, acts, CreateRole(1));
    ss', acts' := ss + [s], acts + [CreateRole(1)];
  }

  lemma TickRuns(now: Time)
    requires now >= 0
    ensures Enabled(Requested(0, Calling, FRESH), Tick(now))
    ensures Apply(Requested(0, Calling, FRESH), Tick(now)) == Requested(now, Calling, FRESH)
  {
  }

  lemma FailureRuns()
    ensures Enabled(Requested(0, Calling, FRESH), CallFails(1))
    ensures Apply(Requested(0, Calling, FRESH), CallFails(1)) == Requested(0, Errored, FRESH)
    ensures Enabled(Requested(0, Errored, FRESH), ExpireReservation(1))
    ensures Apply(Requested(0, Errored, FRESH), ExpireReservation(1)) == Requested(0, Finished, FRESH.(expiresAt := 0))
  {
    var e := Issuer(Errored, PENDING_LEASE_MS, false, false, NotSent);
    assert map[1 := Issuer(Calling, PENDING_LEASE_MS, false, false, NotSent)][1 := e] == map[1 := e];
    assert map[1 := e][1 := e.(phase := Finished)] == map[1 := e.(phase := Finished)];
    assert map[1 := FRESH][1 := FRESH.(expiresAt := 0)] == map[1 := FRESH.(expiresAt := 0)];
  }

  /** A role committed after its expired reservation was swept stays behind untracked. */
  lemma LateRoleIsLost() returns (ss: seq<State>, acts: seq<Action>)
    ensures IsRun(ss, acts) && |acts| == 7 && acts[6] == CreateRole(1)
    ensures 1 in ss[6].issuers && ss[6].issuers[1].phase == Calling && ss[6].now == ss[6].issuers[1].until
    ensures NeonRole(7, 1) in ss[7].roles && !Tracked(ss[7], NeonRole(7, 1))
  {
    hide IsRun, Tracked, Apply, Enabled;
    ss, acts := RequestRuns();
    TickRuns(PENDING_LEASE_MS);
    RunGoesOn(ss, acts, Tick(PENDING_LEASE_MS));
    ss, acts := ss + [Requested(PENDING_LEASE_MS, Calling, FRESH)], acts + [Tick(PENDING_LEASE_MS)];
    ss, acts := CleanupFindsNothing(ss, acts, Calling, FRESH);
    ss, acts := RoleIsLost(ss, acts, Calling, FRESH.(revokedAt := Some(PENDING_LEASE_MS), cleanupAttempts := 1));
  }

  /** So does a role committed after its issuer saw the call fail, however early: the issuer expires
      the reservation at once, and the next sweep retires it. */
  lemma FailedCallsRoleIsLost() returns (ss: seq<State>, acts: seq<Action>)
    ensures IsRun(ss, acts) && |acts| == 8 && acts[1] == CallFails(1) && acts[7] == CreateRole(1)
    ensures 1 in ss[7].issuers && ss[7].now == 0 < ss[7].issuers[1].until
    ensures NeonRole(7, 1) in ss[8].roles && !Tracked(ss[8], NeonRole(7, 1))
  {
    hide IsRun, Tracked, Apply, Enabled;
    ss, acts := RequestRuns();
    FailureRuns();
    RunGoesOn(ss, acts, CallFails(1));
    ss, acts := ss + [Requested(0, Errored, FRESH)], acts + [CallFails(1)];
    var expired := FRESH.(expiresAt := 0);
    RunGoesOn(ss, acts, ExpireReservation(1));
    ss, acts := ss + [Requested(0, Finished, expired)], acts + [ExpireReservation(1)];
    ss, acts := CleanupFindsNothing(ss, acts, Finished, expired);
    ss, acts := RoleIsLost(ss, acts, Finished, expired.(revokedAt := Some(0), cleanupAttempts := 1));
  }

  // ---- A look in vain that does no harm ---------------------------------------------------------------------------

  const LATER: Time := PENDING_LEASE_MS + Cleanup.CLEANUP_CLAIM_STALE_MS + 1

  /** A sweep has looked for the role in vain and stalls; its claim goes stale and another sweep
      takes the row over. */
  function TakenOver(): State {
    State(LATER, map[1 := FRESH.(cleanupAttempts := 2, cleanupClaimedAt := Some(LATER))], {},
          map[1 := Issuer(Calling, PENDING_LEASE_MS, false, false, NotSent)],
          [Worker(map[], map[1 := 1], Some(PENDING_LEASE_MS), Some(1)), Worker(map[1 := ClaimedRow(PENDING_LEASE_MS, FRESH)], map[1 := 2], None, None)])
  }

  /** The sweep has looked for the role of an expired reservation and stalls. */
  function Stalled(now: Time): State {
    Swept(now, Calling, FRESH, PENDING_LEASE_MS, LOOKING.(clock := Some(PENDING_LEASE_MS)))
  }

  lemma SweepTakesOver()
    ensures Enabled(Stalled(PENDING_LEASE_MS), Tick(LATER))
    ensures Apply(Stalled(PENDING_LEASE_MS), Tick(LATER)) == Stalled(LATER)
    ensures Enabled(Stalled(LATER), Sweep({1})) && Apply(Stalled(LATER), Sweep({1})) == TakenOver()
  {
    var s := Apply(Stalled(LATER), Sweep({1}));
    assert s.leases == TakenOver().leases;
    assert s.workers[1].todo == map[1 := ClaimedRow(PENDING_LEASE_MS, FRESH)] && s.workers[1].claims == map[1 := 2];
  }

  lemma TakenOverAwaits()
    ensures LookedFor(TakenOver(), 0, 1) && RowAwaitsRole(TakenOver(), 1)
  {
  }

  /** Having looked in vain is not enough to lose the role: once the look's claim has been taken
      over, a role committed late is still tracked in every continuation. */
  lemma SupersededLookIsHarmless() returns (ss: seq<State>, acts: seq<Action>)
    ensures IsRun(ss, acts) && |acts| == 8 && acts[7] == CreateRole(1)
    ensures LookedFor(ss[7], 0, 1) && 1 in ss[7].issuers && ss[7].issuers[1].until < ss[7].now
    ensures 1 in ss[7].leases && AlwaysTracked(ss, acts, 7, RoleOf(ss[7], 1))
  {
    hide IsRun, Apply, Enabled, AlwaysTracked, RowAwaitsRole;
    ss, acts := RequestRuns();
    TickRuns(PENDING_LEASE_MS);
    RunGoesOn(ss, acts, Tick(PENDING_LEASE_MS));
    ss, acts := ss + [Requested(PENDING_LEASE_MS, Calling, FRESH)], acts + [Tick(PENDING_LEASE_MS)];
    ss, acts := SweepFindsNothing(ss, acts, Calling, FRESH);
    SweepTakesOver();
    RunGoesOn(ss, acts, Tick(LATER));
    ss, acts := ss + [Stalled(LATER)], acts + [Tick(LATER)];
    RunGoesOn(ss, acts, Sweep({1}));
    ss, acts := ss + [TakenOver()], acts + [Sweep({1})];
    TakenOverAwaits();
    CreationIsEnabled(TakenOver(), 1);
    RunGoesOn(ss, acts, CreateRole(1));
    ss, acts := ss + [Apply(TakenOver(), CreateRole(1))], acts + [CreateRole(1)];
    RoleIsTrackedExactly(ss, acts, 7, 1);
  }

  lemma CreationIsEnabled(s: State, id: Id)
    requires id in s.issuers && id in s.leases && !s.issuers[id].made
    ensures Enabled(s, CreateRole(id))
  {
  }
}
