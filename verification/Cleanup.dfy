/** Revocation of lease rows: the fenced row updates, the retry schedule, and the loop that works
    through a list of leases while counting what it revoked and what it deferred. */
module Cleanup {
  import opened Wrappers
  import opened Gates
  import opened Leases

  const CLEANUP_CLAIM_STALE_MS: int := 2 * 60 * 1000
  const CLEANUP_RETRY_BASE_MS: int := 60 * 1000
  const CLEANUP_RETRY_MAX_MS: int := 60 * 60 * 1000

  // ---- Retry delay ---------------------------------------------------------------------------

  function Min(a: int, b: int): int {
    if a <= b then a else b
  }

  function Pow2(n: nat): nat {
    if n == 0 then 1 else 2 * Pow2(n - 1)
  }

  function RetryDelay(attempt: int): Result<int, string> {
    if attempt < 1 then Err("Invalid managed lease cleanup attempt")
    else Ok(Min(CLEANUP_RETRY_BASE_MS * Pow2(Min(attempt - 1, 16)), CLEANUP_RETRY_MAX_MS))
  }

  lemma {:induction false} Pow2Grows(m: nat, n: nat)
    requires m <= n
    ensures 1 <= Pow2(m) <= Pow2(n)
    decreases n
  {
    if m < n {
      Pow2Grows(m, n - 1);
    } else if m > 0 {
      Pow2Grows(m - 1, m - 1);
    }
  }

  /** The delay is the doubling sequence cut off at one hour: the exponent clamp never shows. */
  lemma DelayIgnoresClamp(attempt: int)
    requires 1 <= attempt
    ensures RetryDelay(attempt) == Ok(Min(CLEANUP_RETRY_BASE_MS * Pow2(attempt - 1), CLEANUP_RETRY_MAX_MS))
  {
    if attempt - 1 > 16 {
      assert Pow2(3) == 8 && Pow2(6) == 64;
      Pow2Grows(6, 16);
      Pow2Grows(16, attempt - 1);
    }
  }

  lemma DelayMonotoneAndBounded(a: int, b: int)
    requires 1 <= a <= b
    ensures CLEANUP_RETRY_BASE_MS <= RetryDelay(a).value <= RetryDelay(b).value <= CLEANUP_RETRY_MAX_MS
  {
    hide RetryDelay;
    DelayIgnoresClamp(a);
    DelayIgnoresClamp(b);
    Pow2Grows(a - 1, b - 1);
    hide Pow2;
  }

  /** Attempts are counted from one; a sweep rejects a claim with any other count. */
  type Attempt = n: int | n >= 1 witness 1

  // ---- Row updates -----------------------------------------------------------------------------

  /** The WHERE clause of a fenced update: the row is live, and if a sweep claimed it, this very
      attempt is still the claim on it. */
  predicate Fence(leases: map<Id, Lease>, id: Id, claim: Option<Attempt>) {
    && id in leases && Live(leases[id])
    && (claim.Some? ==> leases[id].cleanupAttempts == claim.value && leases[id].cleanupClaimedAt.Some?)
  }

  function Retired(l: Lease, at: Time): Lease {
    l.(revokedAt := Some(at), cleanupClaimedAt := None, cleanupNextAttemptAt := None)
  }

  function Rescheduled(l: Lease, attempt: Attempt, at: Time): Lease {
    l.(cleanupClaimedAt := None,
       cleanupNextAttemptAt := Some(at + RetryDelay(attempt).value))
  }

  function MarkRevoked(leases: map<Id, Lease>, id: Id, claim: Option<Attempt>, at: Time): map<Id, Lease> {
    if Fence(leases, id, claim) then leases[id := Retired(leases[id], at)] else leases
  }

  function ScheduleRetry(leases: map<Id, Lease>, id: Id, attempt: Attempt, at: Time): map<Id, Lease> {
    if Fence(leases, id, Some(attempt)) then leases[id := Rescheduled(leases[id], attempt, at)] else leases
  }

  // ---- What happens to one lease -----------------------------------------------------------------

  datatype IntegrationInfo = IntegrationInfo(organization: Id, provider: Provider)

  /** A lease as a drain or sweep has read it, with the attempt the sweep claimed it under. */
  datatype CleanupRow = CleanupRow(
    id: Id, lease: Lease, connectionOrganization: Id, connectionIntegration: Option<Id>, claim: Option<Attempt>)

  datatype Outcome = Done | NotFound | Failed

  /** How the provider answered, and when the answer was there. */
  datatype Reply = Reply(outcome: Outcome, at: Time)

  datatype Verdict = Retire | Wait | Retry

  predicate AuthorityMatches(row: CleanupRow, i: IntegrationInfo) {
    && row.connectionOrganization == row.lease.organization
    && row.connectionIntegration == Some(row.lease.integration)
    && i.organization == row.lease.organization
    && i.provider == row.lease.provider
  }

  function Answered(o: Outcome): Verdict {
    match o
    case Done => Retire
    case NotFound => Retire
    case Failed => Retry
  }

  function Judge(row: CleanupRow, integrations: map<Id, IntegrationInfo>, o: Outcome, now: Time): Verdict {
    var l := row.lease;
    var expired := l.expiresAt <= now;
    if l.integration !in integrations || !AuthorityMatches(row, integrations[l.integration]) then Retry
    else match l.provider
         case GcpCloudSql => if expired then Retire else Wait
         case Neon =>
           if l.kind == Pending then (if expired then Answered(o) else Wait)
           else if l.kind == Role then Answered(o) else Retry
         case PlanetScale =>
           if l.kind == Pending then (if expired then Retire else Wait)
           else if l.kind == Role || l.kind == Password then Answered(o) else Retry
  }

  datatype Progress = Progress(leases: map<Id, Lease>, revoked: nat, deferred: nat)

  function StepRow(p: Progress, row: CleanupRow, integrations: map<Id, IntegrationInfo>, r: Reply, now: Time): Progress {
    match Judge(row, integrations, r.outcome, now)
    case Retire =>
      if Fence(p.leases, row.id, row.claim)
      then p.(leases := MarkRevoked(p.leases, row.id, row.claim, r.at), revoked := p.revoked + 1)
      else p
    case Wait => p.(deferred := p.deferred + 1)
    case Retry =>
      if row.claim.None? then p.(deferred := p.deferred + 1)
      else if Fence(p.leases, row.id, row.claim)
      then p.(leases := ScheduleRetry(p.leases, row.id, row.claim.value, r.at), deferred := p.deferred + 1)
      else p
  }

  function Work(p: Progress, rows: seq<CleanupRow>, integrations: map<Id, IntegrationInfo>, replies: seq<Reply>, now: Time): Progress
    requires |rows| == |replies|
  {
    if rows == [] then p
    else StepRow(Work(p, rows[..|rows| - 1], integrations, replies[..|rows| - 1], now),
                 rows[|rows| - 1], integrations, replies[|rows| - 1], now)
  }

  // ---- One row, on its columns ---------------------------------------------------------------------

  /** The lease, its connection and its active integration still belong together. */
  predicate BelongsTogether(row: CleanupRow, integrations: map<Id, IntegrationInfo>) {
    && row.lease.integration in integrations
    && var i := integrations[row.lease.integration];
    && row.connectionOrganization == row.lease.organization && i.organization == row.lease.organization
    && row.connectionIntegration == Some(row.lease.integration) && i.provider == row.lease.provider
  }

  /** Nothing at a provider outlives the row: an expired IAM login, or an expired reservation for which
      no credential was ever named. */
  predicate NothingThere(l: Lease, now: Time) {
    l.expiresAt <= now && (l.provider == GcpCloudSql || (l.provider == PlanetScale && l.kind == Pending))
  }

  /** The provider has a credential that a row of this kind leads to. */
  predicate HasCredential(l: Lease, now: Time) {
    || (l.provider == PlanetScale && (l.kind == Role || l.kind == Password))
    || (l.provider == Neon && (l.kind == Role || (l.kind == Pending && l.expiresAt <= now)))
  }

  /** A row may be retired when its credential is known to be gone: the provider said so, or there is none. */
  predicate Retirable(row: CleanupRow, integrations: map<Id, IntegrationInfo>, o: Outcome, now: Time) {
    && BelongsTogether(row, integrations)
    && (NothingThere(row.lease, now) || (HasCredential(row.lease, now) && (o == Done || o == NotFound)))
  }

  /** Not yet expired, and without a way to be revoked before. */
  predicate MustExpire(row: CleanupRow, integrations: map<Id, IntegrationInfo>, now: Time) {
    && BelongsTogether(row, integrations) && now < row.lease.expiresAt
    && (row.lease.provider == GcpCloudSql || row.lease.kind == Pending)
  }

  lemma JudgeMeans(row: CleanupRow, integrations: map<Id, IntegrationInfo>, o: Outcome, now: Time)
    ensures Judge(row, integrations, o, now) == Retire <==> Retirable(row, integrations, o, now)
    ensures Judge(row, integrations, o, now) == Wait <==> MustExpire(row, integrations, now)
  {
  }

  /** The row is live, and if a sweep claimed it, under the attempt that is still on it. */
  predicate Stands(l: Lease, claim: Option<Attempt>) {
    l.revokedAt == None && (claim.Some? ==> l.cleanupAttempts == claim.value && l.cleanupClaimedAt.Some?)
  }

  /** What becomes of a row. */
  function RowAfter(l: Lease, row: CleanupRow, integrations: map<Id, IntegrationInfo>, r: Reply, now: Time): Lease {
    if !Stands(l, row.claim) then l
    else if Retirable(row, integrations, r.outcome, now) then
      l.(revokedAt := Some(r.at), cleanupClaimedAt := None, cleanupNextAttemptAt := None)
    else if row.claim.Some? && !MustExpire(row, integrations, now) then
      l.(cleanupClaimedAt := None,
         cleanupNextAttemptAt := Some(r.at + Min(60_000 * Pow2(row.claim.value - 1), 3_600_000)))
    else l
  }

  /** Whether the row counts as deferred; a sweep does not count a row it no longer holds. */
  predicate Defers(leases: map<Id, Lease>, row: CleanupRow, integrations: map<Id, IntegrationInfo>, o: Outcome, now: Time) {
    && !Retirable(row, integrations, o, now)
    && (row.claim.None? || MustExpire(row, integrations, now) || (row.id in leases && Stands(leases[row.id], row.claim)))
  }

  lemma StepRowMeans(p: Progress, row: CleanupRow, integrations: map<Id, IntegrationInfo>, r: Reply, now: Time)
    ensures var q := StepRow(p, row, integrations, r, now);
            && q.leases == (if row.id in p.leases
                            then p.leases[row.id := RowAfter(p.leases[row.id], row, integrations, r, now)] else p.leases)
            && q.deferred == p.deferred + (if Defers(p.leases, row, integrations, r.outcome, now) then 1 else 0)
            && q.revoked == p.revoked + (if row.id in p.leases && Stands(p.leases[row.id], row.claim)
                                            && Retirable(row, integrations, r.outcome, now) then 1 else 0)
  {
    hide Judge, Retirable, MustExpire, RetryDelay, Pow2;
    JudgeMeans(row, integrations, r.outcome, now);
    if row.claim.Some? {
      DelayIgnoresClamp(row.claim.value);
    }
  }

  ghost predicate DistinctRows(rows: seq<CleanupRow>) {
    forall i, j :: 0 <= i < j < |rows| ==> rows[i].id != rows[j].id
  }

  predicate InRows(rows: seq<CleanupRow>, id: Id) {
    exists i :: 0 <= i < |rows| && rows[i].id == id
  }

  /** Every row of the list became what it should, and no other row changed. */
  ghost predicate WorkedOff(before: map<Id, Lease>, after: map<Id, Lease>, rows: seq<CleanupRow>,
                            integrations: map<Id, IntegrationInfo>, replies: seq<Reply>, now: Time)
    requires |rows| == |replies|
  {
    && after.Keys == before.Keys
    && (forall i :: 0 <= i < |rows| && rows[i].id in before ==>
          after[rows[i].id] == RowAfter(before[rows[i].id], rows[i], integrations, replies[i], now))
    && (forall id :: id in before && !InRows(rows, id) ==> after[id] == before[id])
  }

  /** How many of the rows are deferred. */
  function Deferrals(leases: map<Id, Lease>, rows: seq<CleanupRow>, integrations: map<Id, IntegrationInfo>,
                     replies: seq<Reply>, now: Time): nat
    requires |rows| == |replies|
  {
    if rows == [] then 0
    else var n := |rows| - 1;
         Deferrals(leases, rows[..n], integrations, replies[..n], now)
         + (if Defers(leases, rows[n], integrations, replies[n].outcome, now) then 1 else 0)
  }

  /** Working a list retires exactly the rows whose credential is known to be gone and whose claim
      stands; a failed revocation leaves its row live and is counted. */
  lemma {:induction false} WorkMeans(p: Progress, rows: seq<CleanupRow>, integrations: map<Id, IntegrationInfo>, replies: seq<Reply>, now: Time)
    requires |rows| == |replies| && DistinctRows(rows)
    ensures WorkedOff(p.leases, Work(p, rows, integrations, replies, now).leases, rows, integrations, replies, now)
    ensures Work(p, rows, integrations, replies, now).deferred == p.deferred + Deferrals(p.leases, rows, integrations, replies, now)
  {
    hide StepRow, RowAfter, Stands, Retirable, MustExpire;
    if rows != [] {
      var n := |rows| - 1;
      WorkMeans(p, rows[..n], integrations, replies[..n], now);
      var q := Work(p, rows[..n], integrations, replies[..n], now);
      StepRowMeans(q, rows[n], integrations, replies[n], now);
      forall i | 0 <= i < n ensures rows[i].id != rows[n].id && rows[..n][i] == rows[i] && replies[..n][i] == replies[i] {
      }
      assert !InRows(rows[..n], rows[n].id);
      forall id | InRows(rows[..n], id) ensures InRows(rows, id) {
        var i :| 0 <= i < n && rows[..n][i].id == id;
        assert rows[i].id == id;
      }
    }
  }

  // ---- The table -----------------------------------------------------------------------------------

  class LeaseTable {
    var leases: map<Id, Lease>

    constructor (leases: map<Id, Lease>)
      ensures this.leases == leases
    {
      this.leases := leases;
    }

    method Mark(id: Id, claim: Option<Attempt>, at: Time) returns (ok: bool)
      modifies this
      ensures ok <==> Fence(old(leases), id, claim)
      ensures leases == MarkRevoked(old(leases), id, claim, at)
      ensures id in leases && claim.None? ==> !Live(leases[id])
    {
      if id !in leases || leases[id].revokedAt.Some? {
        return false;
      }
      if claim.Some? && (leases[id].cleanupAttempts != claim.value || leases[id].cleanupClaimedAt.None?) {
        return false;
      }
      leases := leases[id := leases[id].(revokedAt := Some(at), cleanupClaimedAt := None, cleanupNextAttemptAt := None)];
      return true;
    }

    method Reschedule(id: Id, claim: Option<Attempt>, at: Time) returns (ok: bool)
      modifies this
      ensures ok <==> claim.Some? && Fence(old(leases), id, claim)
      ensures leases == if claim.Some? then ScheduleRetry(old(leases), id, claim.value, at) else old(leases)
      ensures ok ==> Live(leases[id]) && leases[id].cleanupClaimedAt.None?
                     && leases[id].cleanupNextAttemptAt.Some?
                     && at + CLEANUP_RETRY_BASE_MS <= leases[id].cleanupNextAttemptAt.value <= at + CLEANUP_RETRY_MAX_MS
      ensures ok ==> leases[id].cleanupNextAttemptAt.value == at + Min(60_000 * Pow2(claim.value - 1), 3_600_000)
    {
      if claim.None? || id !in leases {
        return false;
      }
      if leases[id].revokedAt.Some? || leases[id].cleanupAttempts != claim.value || leases[id].cleanupClaimedAt.None? {
        return false;
      }
      DelayMonotoneAndBounded(claim.value, claim.value);
      DelayIgnoresClamp(claim.value);
      leases := leases[id := leases[id].(cleanupClaimedAt := None,
                                         cleanupNextAttemptAt := Some(at + RetryDelay(claim.value).value))];
      return true;
    }

    method RevokeLeaseRows(rows: seq<CleanupRow>, integrations: map<Id, IntegrationInfo>, replies: seq<Reply>, now: Time)
      returns (revoked: nat, deferred: nat)
      requires |rows| == |replies|
      modifies this
      ensures Progress(leases, revoked, deferred) == Work(Progress(old(leases), 0, 0), rows, integrations, replies, now)
      ensures DistinctRows(rows) ==>
                && WorkedOff(old(leases), leases, rows, integrations, replies, now)
                && deferred == Deferrals(old(leases), rows, integrations, replies, now)
    {
      hide DistinctRows, WorkedOff, Deferrals;
      revoked, deferred := 0, 0;
      var i := 0;
      while i < |rows|
        invariant 0 <= i <= |rows|
        invariant Progress(leases, revoked, deferred)
                  == Work(Progress(old(leases), 0, 0), rows[..i], integrations, replies[..i], now)
      {
        var row, reply := rows[i], replies[i];
        assert rows[..i + 1][..i] == rows[..i] && replies[..i + 1][..i] == replies[..i];
        match Judge(row, integrations, reply.outcome, now) {
          case Retire =>
            var ok := Mark(row.id, row.claim, reply.at);
            if ok {
              revoked := revoked + 1;
            }
          case Wait =>
            deferred := deferred + 1;
          case Retry =>
            var scheduled := Reschedule(row.id, row.claim, reply.at);
            if row.claim.None? || scheduled {
              deferred := deferred + 1;
            }
        }
        i := i + 1;
      }
      assert rows[..|rows|] == rows && replies[..|rows|] == replies;
      if DistinctRows(rows) {
        WorkMeans(Progress(old(leases), 0, 0), rows, integrations, replies, now);
      }
    }
  }

  // ---- What the loop adds up to ----------------------------------------------------------------------

  /** The rows that were live in one table and are revoked in the other. */
  function Moved(before: map<Id, Lease>, after: map<Id, Lease>): set<Id> {
    set id | id in before && id in after && Live(before[id]) && !Live(after[id])
  }

  lemma {:induction false} WorkOnlyRetires(p: Progress, rows: seq<CleanupRow>, integrations: map<Id, IntegrationInfo>, replies: seq<Reply>, now: Time)
    requires |rows| == |replies|
    ensures var q := Work(p, rows, integrations, replies, now);
            && q.leases.Keys == p.leases.Keys
            && p.revoked <= q.revoked && p.deferred <= q.deferred
            && (forall id :: id in p.leases ==> SameLease(p.leases[id], q.leases[id]) && p.leases[id].cleanupAttempts == q.leases[id].cleanupAttempts)
            && (forall id :: id in p.leases && !Live(p.leases[id]) ==> q.leases[id] == p.leases[id])
  {
    if rows != [] {
      WorkOnlyRetires(p, rows[..|rows| - 1], integrations, replies[..|rows| - 1], now);
    }
  }

  /** The returned count is the number of rows this call moved from live to revoked. */
  lemma {:induction false} RevokedCountsMovedRows(p: Progress, rows: seq<CleanupRow>, integrations: map<Id, IntegrationInfo>, replies: seq<Reply>, now: Time)
    requires |rows| == |replies|
    ensures var q := Work(p, rows, integrations, replies, now);
            q.revoked - p.revoked == |Moved(p.leases, q.leases)|
  {
    if rows == [] {
      assert Moved(p.leases, p.leases) == {};
    } else {
      hide StepRow, Moved;
      var n := |rows| - 1;
      RevokedCountsMovedRows(p, rows[..n], integrations, replies[..n], now);
      WorkOnlyRetires(p, rows[..n], integrations, replies[..n], now);
      StepMovesOne(p.leases, Work(p, rows[..n], integrations, replies[..n], now), rows[n], integrations, replies[n], now);
    }
  }

  /** One row's step moves that row, or none. */
  lemma StepMovesOne(before: map<Id, Lease>, q: Progress, row: CleanupRow, integrations: map<Id, IntegrationInfo>, r: Reply, now: Time)
    requires q.leases.Keys == before.Keys
    requires forall id :: id in before && !Live(before[id]) ==> q.leases[id] == before[id]
    ensures var p := StepRow(q, row, integrations, r, now);
            p.revoked - q.revoked == |Moved(before, p.leases)| - |Moved(before, q.leases)|
  {
    hide Judge, RetryDelay;
    var p := StepRow(q, row, integrations, r, now);
    if p.revoked == q.revoked + 1 {
      assert row.id !in Moved(before, q.leases);
      assert Moved(before, p.leases) == Moved(before, q.leases) + {row.id};
    } else {
      assert Moved(before, p.leases) == Moved(before, q.leases);
    }
  }

  predicate Gone(leases: map<Id, Lease>, id: Id) {
    id in leases ==> !Live(leases[id])
  }

  /** A drain, which carries no cleanup claims, accounts for every row: the ones it did not defer
      are revoked at the end, so deferred = 0 means none of its rows is live. */
  lemma {:induction false} DrainAccountsForEveryRow(p: Progress, rows: seq<CleanupRow>, integrations: map<Id, IntegrationInfo>, replies: seq<Reply>, now: Time)
    requires |rows| == |replies|
    requires forall i :: 0 <= i < |rows| ==> rows[i].claim.None?
    ensures var q := Work(p, rows, integrations, replies, now);
            && q.deferred == p.deferred + DeferredRows(rows, integrations, replies, now)
            && (forall i :: 0 <= i < |rows| && Judge(rows[i], integrations, replies[i].outcome, now) == Retire ==>
                              Gone(q.leases, rows[i].id))
            && (q.deferred == p.deferred ==> forall i :: 0 <= i < |rows| ==> Gone(q.leases, rows[i].id))
  {
    if rows != [] {
      var n := |rows| - 1;
      DrainAccountsForEveryRow(p, rows[..n], integrations, replies[..n], now);
      WorkOnlyRetires(p, rows[..n], integrations, replies[..n], now);
      var q := Work(p, rows[..n], integrations, replies[..n], now);
      forall i | 0 <= i < n && Judge(rows[i], integrations, replies[i].outcome, now) == Retire
        ensures Gone(q.leases, rows[i].id)
      {
        assert rows[..n][i] == rows[i] && replies[..n][i] == replies[i];
      }
      forall i | 0 <= i < n && q.deferred == p.deferred
        ensures Gone(q.leases, rows[i].id)
      {
        assert rows[..n][i] == rows[i];
      }
    }
  }

  function DeferredRows(rows: seq<CleanupRow>, integrations: map<Id, IntegrationInfo>, replies: seq<Reply>, now: Time): nat
    requires |rows| == |replies|
  {
    if rows == [] then 0
    else var n := |rows| - 1;
         DeferredRows(rows[..n], integrations, replies[..n], now)
         + (if Judge(rows[n], integrations, replies[n].outcome, now) == Retire then 0 else 1)
  }
}
