/** Any number of sweeps and drains working on the same rows: claims are fenced by attempt counts,
    workers crash at any point, and claims older than two minutes are taken over. */
module CleanupRuns {
  import opened Wrappers
  import opened Gates
  import opened Leases
  import opened Cleanup

  /** todo maps the rows still to handle to the attempt they were claimed under, if any. */
  datatype Worker = Worker(todo: map<Id, Option<Attempt>>, revoked: nat, deferred: nat)

  datatype State = State(now: Time, leases: map<Id, Lease>, workers: seq<Worker>)

  datatype Action =
    | Tick(to: Time)
    | Insert(id: Id, lease: Lease)
    | Sweep(ids: set<Id>)
    | Drain(ids: set<Id>)
    | Mark(worker: nat, id: Id)
    | Retry(worker: nat, id: Id)
    | Wait(worker: nat, id: Id)
    | Crash(worker: nat)
    | Finalize(id: Id, credentialId: CredentialId, kind: Kind, expiresAt: Time)
    | IssuerRetires(id: Id)
    | IssuerExpires(id: Id)

  /** The WHERE clause under which a sweep claims a row. */
  predicate Ready(l: Lease, now: Time) {
    && Live(l) && l.expiresAt <= now
    && (l.cleanupNextAttemptAt.None? || l.cleanupNextAttemptAt.value <= now)
    && (l.cleanupClaimedAt.None? || l.cleanupClaimedAt.value < now - CLEANUP_CLAIM_STALE_MS)
  }

  function ClaimedForCleanup(l: Lease, now: Time): Lease {
    l.(cleanupClaimedAt := Some(now), cleanupAttempts := l.cleanupAttempts + 1)
  }

  function ClaimOf(l: Lease): Option<Attempt> {
    Some(l.cleanupAttempts + 1)
  }

  predicate Has(s: State, w: nat, id: Id) {
    w < |s.workers| && id in s.workers[w].todo
  }

  predicate Enabled(s: State, a: Action) {
    match a
    case Tick(to) => s.now <= to
    case Insert(id, l) => id !in s.leases && Live(l) && l.cleanupAttempts == 0 && l.cleanupClaimedAt.None?
    case Sweep(ids) => forall id :: id in ids ==> id in s.leases && Ready(s.leases[id], s.now)
    case Drain(ids) => forall id :: id in ids ==> id in s.leases && Live(s.leases[id])
    case Mark(w, id) => Has(s, w, id)
    case Retry(w, id) => Has(s, w, id)
    case Wait(w, id) => Has(s, w, id)
    case Crash(w) => w < |s.workers|
    case Finalize(id, _, _, _) => id in s.leases && Live(s.leases[id]) && s.leases[id].kind == Pending
    case IssuerRetires(id) => id in s.leases
    case IssuerExpires(id) => id in s.leases
  }

  function Finish(s: State, w: nat, id: Id): Worker
    requires w < |s.workers|
  {
    s.workers[w].(todo := s.workers[w].todo - {id})
  }

  function Apply(s: State, a: Action): State
    requires Enabled(s, a)
  {
    match a
    case Tick(to) => s.(now := to)
    case Insert(id, l) => s.(leases := s.leases[id := l])
    case Sweep(ids) =>
      s.(leases := map id | id in s.leases :: if id in ids then ClaimedForCleanup(s.leases[id], s.now) else s.leases[id],
         workers := s.workers + [Worker(map id | id in ids :: ClaimOf(s.leases[id]), 0, 0)])
    case Drain(ids) => s.(workers := s.workers + [Worker(map id | id in ids :: None, 0, 0)])
    case Mark(w, id) =>
      var claim := s.workers[w].todo[id];
      var hit := Fence(s.leases, id, claim);
      s.(leases := MarkRevoked(s.leases, id, claim, s.now),
         workers := s.workers[w := Finish(s, w, id).(revoked := s.workers[w].revoked + (if hit then 1 else 0))])
    case Retry(w, id) =>
      var claim := s.workers[w].todo[id];
      var counts := claim.None? || Fence(s.leases, id, claim);
      s.(leases := if claim.None? then s.leases else ScheduleRetry(s.leases, id, claim.value, s.now),
         workers := s.workers[w := Finish(s, w, id).(deferred := s.workers[w].deferred + (if counts then 1 else 0))])
    case Wait(w, id) => s.(workers := s.workers[w := Finish(s, w, id).(deferred := s.workers[w].deferred + 1)])
    case Crash(w) => s.(workers := s.workers[w := s.workers[w].(todo := map[])])
    case Finalize(id, c, k, e) => s.(leases := s.leases[id := s.leases[id].(credentialId := c, kind := k, expiresAt := e)])
    case IssuerRetires(id) => s.(leases := s.leases[id := s.leases[id].(revokedAt := Some(s.now))])
    case IssuerExpires(id) => s.(leases := s.leases[id := s.leases[id].(expiresAt := s.now)])
  }

  predicate StepAt(ss: seq<State>, acts: seq<Action>, k: nat)
    requires k < |acts| && |ss| == |acts| + 1
  {
    Enabled(ss[k], acts[k]) && ss[k + 1] == Apply(ss[k], acts[k])
  }

  predicate IsRun(ss: seq<State>, acts: seq<Action>) {
    && |ss| == |acts| + 1
    && ss[0].leases == map[] && ss[0].workers == []
    && forall k: nat :: k < |acts| ==> StepAt(ss, acts, k)
  }

  // ---- What a sweep may claim ------------------------------------------------------------------

  /** A sweep may claim exactly the rows that are live and expired, whose next attempt is due, and that
      nobody has claimed within the last two minutes. */
  lemma SweepClaimsExactly(s: State, ids: set<Id>)
    ensures Enabled(s, Sweep(ids)) <==>
            forall id :: id in ids ==>
              && id in s.leases
              && var l := s.leases[id];
              && l.revokedAt == None && l.expiresAt <= s.now
              && (l.cleanupNextAttemptAt == None || l.cleanupNextAttemptAt.value <= s.now)
              && (l.cleanupClaimedAt == None || l.cleanupClaimedAt.value + 120_000 < s.now)
  {
  }

  /** The claim under which a worker holds a row was made by a sweep, at a time at which the row was
      live and expired, its next attempt due, and any earlier claim more than two minutes old. */
  ghost predicate ClaimedAt(ss: seq<State>, acts: seq<Action>, k: nat, id: Id, claim: int)
    requires k < |acts| && |ss| == |acts| + 1
  {
    && acts[k].Sweep? && id in acts[k].ids && id in ss[k].leases && id in ss[k + 1].leases
    && var l := ss[k].leases[id];
    && l.revokedAt == None && l.expiresAt <= ss[k].now
    && (l.cleanupNextAttemptAt == None || l.cleanupNextAttemptAt.value <= ss[k].now)
    && (l.cleanupClaimedAt == None || l.cleanupClaimedAt.value + 120_000 < ss[k].now)
    && claim == l.cleanupAttempts + 1
    && ss[k + 1].leases[id] == l.(cleanupClaimedAt := Some(ss[k].now), cleanupAttempts := claim)
  }

  lemma {:induction false} ClaimOrigin(ss: seq<State>, acts: seq<Action>, j: nat, w: nat, id: Id) returns (k: nat)
    requires IsRun(ss, acts) && j < |ss| && Has(ss[j], w, id) && ss[j].workers[w].todo[id].Some?
    ensures k < j && ClaimedAt(ss, acts, k, id, ss[j].workers[w].todo[id].value)
    decreases j
  {
    assert j > 0;
    assert StepAt(ss, acts, j - 1);
    ClaimsComeFromSweeps(ss[j - 1], acts[j - 1], w, id);
    if Has(ss[j - 1], w, id) && ss[j - 1].workers[w].todo[id] == ss[j].workers[w].todo[id] {
      k := ClaimOrigin(ss, acts, j - 1, w, id);
    } else {
      k := j - 1;
    }
  }

  /** A row that a sweep's mark retires had expired when that sweep claimed it. */
  lemma SweptRowHadExpired(ss: seq<State>, acts: seq<Action>, j: nat, w: nat, id: Id) returns (k: nat)
    requires IsRun(ss, acts) && j < |acts| && acts[j] == Mark(w, id)
    requires Has(ss[j], w, id) && ss[j].workers[w].todo[id].Some?
    requires id in ss[j].leases && Live(ss[j].leases[id]) && id in ss[j + 1].leases && !Live(ss[j + 1].leases[id])
    ensures k < j && ClaimedAt(ss, acts, k, id, ss[j].workers[w].todo[id].value)
    ensures ss[j].leases[id].cleanupAttempts == ss[j].workers[w].todo[id].value && ss[j].leases[id].cleanupClaimedAt.Some?
  {
    assert StepAt(ss, acts, j);
    k := ClaimOrigin(ss, acts, j, w, id);
  }

  // ---- Fencing ---------------------------------------------------------------------------------

  /** Claims never run ahead of the row, and no two workers hold the same attempt of a row. */
  ghost predicate Inv(s: State) {
    && (forall w: nat, id :: Has(s, w, id) && s.workers[w].todo[id].Some? ==>
          id in s.leases && s.workers[w].todo[id].value <= s.leases[id].cleanupAttempts)
    && (forall w: nat, v: nat, id :: (w != v && Has(s, w, id) && Has(s, v, id)
                                      && s.workers[w].todo[id].Some? && s.workers[v].todo[id].Some?) ==>
          s.workers[w].todo[id] != s.workers[v].todo[id])
  }

  lemma AttemptsOnlyGrow(s: State, a: Action, id: Id)
    requires Enabled(s, a) && id in s.leases
    ensures id in Apply(s, a).leases && s.leases[id].cleanupAttempts <= Apply(s, a).leases[id].cleanupAttempts
    ensures !Live(s.leases[id]) ==> !Live(Apply(s, a).leases[id])
  {
  }

  /** A worker that still has a row either had it before, or has just claimed the row's next attempt. */
  lemma ClaimsComeFromSweeps(s: State, a: Action, w: nat, id: Id)
    requires Enabled(s, a) && Has(Apply(s, a), w, id) && Apply(s, a).workers[w].todo[id].Some?
    ensures || (Has(s, w, id) && s.workers[w].todo[id] == Apply(s, a).workers[w].todo[id])
            || (a.Sweep? && w == |s.workers| && id in a.ids && id in s.leases
                && Apply(s, a).workers[w].todo[id].value == s.leases[id].cleanupAttempts + 1
                && Apply(s, a).leases[id].cleanupAttempts == s.leases[id].cleanupAttempts + 1)
  {
  }

  lemma InvKept(s: State, a: Action)
    requires Inv(s) && Enabled(s, a)
    ensures Inv(Apply(s, a))
  {
    var s' := Apply(s, a);
    forall w: nat, id | Has(s', w, id) && s'.workers[w].todo[id].Some?
      ensures id in s'.leases && s'.workers[w].todo[id].value <= s'.leases[id].cleanupAttempts
    {
      ClaimsComeFromSweeps(s, a, w, id);
      AttemptsOnlyGrow(s, a, id);
    }
    forall w: nat, v: nat, id | w != v && Has(s', w, id) && Has(s', v, id)
                                && s'.workers[w].todo[id].Some? && s'.workers[v].todo[id].Some?
      ensures s'.workers[w].todo[id] != s'.workers[v].todo[id]
    {
      ClaimsComeFromSweeps(s, a, w, id);
      ClaimsComeFromSweeps(s, a, v, id);
    }
  }

  lemma {:induction false} RunKeepsInv(ss: seq<State>, acts: seq<Action>, k: nat)
    requires IsRun(ss, acts) && k < |ss|
    ensures Inv(ss[k])
  {
    if k > 0 {
      RunKeepsInv(ss, acts, k - 1);
      assert StepAt(ss, acts, k - 1);
      InvKept(ss[k - 1], acts[k - 1]);
    }
  }

  /** At any moment at most one sweeping worker passes the fence of a row. */
  lemma OneWorkerPasses(ss: seq<State>, acts: seq<Action>, k: nat, w: nat, v: nat, id: Id)
    requires IsRun(ss, acts) && k < |ss| && Has(ss[k], w, id) && Has(ss[k], v, id)
    requires ss[k].workers[w].todo[id].Some? && Fence(ss[k].leases, id, ss[k].workers[w].todo[id])
    requires ss[k].workers[v].todo[id].Some? && Fence(ss[k].leases, id, ss[k].workers[v].todo[id])
    ensures w == v
  {
    RunKeepsInv(ss, acts, k);
  }

  predicate Superseded(s: State, w: nat, id: Id) {
    Has(s, w, id) && s.workers[w].todo[id].Some? && id in s.leases
    && s.workers[w].todo[id].value < s.leases[id].cleanupAttempts
  }

  /** Once a row has been claimed again, whatever the earlier worker still does changes no row. */
  lemma {:induction false} SupersededIsPowerless(ss: seq<State>, acts: seq<Action>, i: nat, j: nat, w: nat, id: Id)
    requires IsRun(ss, acts) && i <= j < |acts|
    requires Superseded(ss[i], w, id)
    requires acts[j] == Mark(w, id) || acts[j] == Action.Retry(w, id)
    ensures ss[j + 1].leases == ss[j].leases && w < |ss[j].workers| && w < |ss[j + 1].workers|
    ensures ss[j + 1].workers[w].revoked == ss[j].workers[w].revoked && ss[j + 1].workers[w].deferred == ss[j].workers[w].deferred
  {
    assert StepAt(ss, acts, j);
    SupersededStays(ss, acts, i, j, w, id);
  }

  lemma {:induction false} SupersededStays(ss: seq<State>, acts: seq<Action>, i: nat, j: nat, w: nat, id: Id)
    requires IsRun(ss, acts) && i <= j < |ss| && Superseded(ss[i], w, id) && Has(ss[j], w, id)
    ensures Superseded(ss[j], w, id)
    decreases j
  {
    if i < j {
      assert StepAt(ss, acts, j - 1);
      WorkersKept(ss, acts, i, j - 1, w);
      KeepsClaim(ss[j - 1], acts[j - 1], w, id);
      SupersededStays(ss, acts, i, j - 1, w, id);
      AttemptsOnlyGrow(ss[j - 1], acts[j - 1], id);
    }
  }

  lemma KeepsClaim(s: State, a: Action, w: nat, id: Id)
    requires Enabled(s, a) && w < |s.workers|
    ensures w < |Apply(s, a).workers|
    ensures Has(Apply(s, a), w, id) ==> Has(s, w, id) && Apply(s, a).workers[w].todo[id] == s.workers[w].todo[id]
  {
  }

  lemma {:induction false} WorkersKept(ss: seq<State>, acts: seq<Action>, i: nat, j: nat, w: nat)
    requires IsRun(ss, acts) && i <= j < |ss| && w < |ss[i].workers|
    ensures w < |ss[j].workers|
    decreases j
  {
    if i < j {
      WorkersKept(ss, acts, i, j - 1, w);
      assert StepAt(ss, acts, j - 1);
    }
  }

  /** A revoked row never becomes live again. */
  lemma {:induction false} RevokedStaysRevoked(ss: seq<State>, acts: seq<Action>, i: nat, j: nat, id: Id)
    requires IsRun(ss, acts) && i <= j < |ss|
    requires id in ss[i].leases && !Live(ss[i].leases[id])
    ensures id in ss[j].leases && !Live(ss[j].leases[id])
    decreases j
  {
    if i < j {
      RevokedStaysRevoked(ss, acts, i, j - 1, id);
      assert StepAt(ss, acts, j - 1);
      AttemptsOnlyGrow(ss[j - 1], acts[j - 1], id);
    }
  }

  // ---- Conservation --------------------------------------------------------------------------------

  function TotalRevoked(ws: seq<Worker>): nat {
    if ws == [] then 0 else TotalRevoked(ws[..|ws| - 1]) + ws[|ws| - 1].revoked
  }

  lemma {:induction false} TotalAfterUpdate(ws: seq<Worker>, w: nat, x: Worker)
    requires w < |ws|
    ensures TotalRevoked(ws[w := x]) == TotalRevoked(ws) - ws[w].revoked + x.revoked
  {
    var n := |ws| - 1;
    if w == n {
      assert ws[w := x][..n] == ws[..n];
    } else {
      assert ws[w := x][..n] == ws[..n][w := x];
      TotalAfterUpdate(ws[..n], w, x);
    }
  }

  lemma TotalAfterAppend(ws: seq<Worker>, x: Worker)
    ensures TotalRevoked(ws + [x]) == TotalRevoked(ws) + x.revoked
  {
    assert (ws + [x])[..|ws|] == ws;
  }

  /** The k-th step moves some row from live to revoked on behalf of a sweep or drain. */
  predicate MovesRow(ss: seq<State>, acts: seq<Action>, k: nat)
    requires k < |acts| && |ss| == |acts| + 1
  {
    && acts[k].Mark? && acts[k].id in ss[k].leases && acts[k].id in ss[k + 1].leases
    && Live(ss[k].leases[acts[k].id]) && !Live(ss[k + 1].leases[acts[k].id])
  }

  function RowsMoved(ss: seq<State>, acts: seq<Action>, k: nat): nat
    requires k <= |acts| && |ss| == |acts| + 1
  {
    if k == 0 then 0 else RowsMoved(ss, acts, k - 1) + (if MovesRow(ss, acts, k - 1) then 1 else 0)
  }

  lemma StepConserves(ss: seq<State>, acts: seq<Action>, k: nat)
    requires IsRun(ss, acts) && k < |acts|
    ensures TotalRevoked(ss[k + 1].workers) == TotalRevoked(ss[k].workers) + (if MovesRow(ss, acts, k) then 1 else 0)
  {
    hide ScheduleRetry, Ready;
    assert StepAt(ss, acts, k);
    var s, a, s' := ss[k], acts[k], ss[k + 1];
    match a
    case Sweep(_) => TotalAfterAppend(s.workers, s'.workers[|s.workers|]);
    case Drain(_) => TotalAfterAppend(s.workers, s'.workers[|s.workers|]);
    case Mark(w, _) => TotalAfterUpdate(s.workers, w, s'.workers[w]);
    case Retry(w, _) => TotalAfterUpdate(s.workers, w, s'.workers[w]);
    case Wait(w, _) => TotalAfterUpdate(s.workers, w, s'.workers[w]);
    case Crash(w) => TotalAfterUpdate(s.workers, w, s'.workers[w]);
    case _ =>
  }

  /** With any number of workers, crashes and takeovers, the revoked counts of all calls together
      are exactly the number of rows those calls moved: no row is counted twice or missed. */
  lemma {:induction false} RevokedCountsAddUp(ss: seq<State>, acts: seq<Action>, k: nat)
    requires IsRun(ss, acts) && k <= |acts|
    ensures TotalRevoked(ss[k].workers) == RowsMoved(ss, acts, k)
  {
    if k > 0 {
      RevokedCountsAddUp(ss, acts, k - 1);
      StepConserves(ss, acts, k - 1);
    }
  }

  /** And no row is moved twice. */
  lemma RowMovesOnce(ss: seq<State>, acts: seq<Action>, i: nat, j: nat)
    requires IsRun(ss, acts) && i < j < |acts| && MovesRow(ss, acts, i) && MovesRow(ss, acts, j)
    ensures acts[i].id != acts[j].id
  {
    if acts[i].id == acts[j].id {
      RevokedStaysRevoked(ss, acts, i + 1, j, acts[i].id);
    }
  }

  // ---- The steps are those of the loop -----------------------------------------------------------------------

  /** The step of a worker that has judged a row. */
  function WorkerAction(w: nat, id: Id, v: Verdict): Action {
    match v
    case Retire => Action.Mark(w, id)
    case Wait => Action.Wait(w, id)
    case Retry => Action.Retry(w, id)
  }

  /** Working a row that the worker still has is exactly one step of the loop over rows: the same rows,
      the same revoked and the same deferred count. */
  lemma WorkerStepIsLoopStep(s: State, w: nat, row: CleanupRow, integrations: map<Id, IntegrationInfo>, r: Reply, now: Time)
    requires Has(s, w, row.id) && row.claim == s.workers[w].todo[row.id] && r.at == s.now
    ensures var a := WorkerAction(w, row.id, Judge(row, integrations, r.outcome, now));
            && Enabled(s, a)
            && var t := Apply(s, a);
            && Progress(t.leases, t.workers[w].revoked, t.workers[w].deferred)
               == StepRow(Progress(s.leases, s.workers[w].revoked, s.workers[w].deferred), row, integrations, r, now)
            && t.workers[w].todo == s.workers[w].todo - {row.id}
            && (forall v :: 0 <= v < |s.workers| && v != w ==> t.workers[v] == s.workers[v])
  {
    hide Judge, RetryDelay;
  }
}
