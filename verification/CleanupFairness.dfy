/** Which rows a bounded sweep takes: fewest attempts first, then round-robin over tenants. */
module CleanupFairness {
  import opened Gates

  datatype Candidate = Candidate(id: Id, tenant: Id, attempts: nat, readyAt: Time, expiresAt: Time)

  predicate DistinctIds(e: set<Candidate>) {
    forall x, y :: x in e && y in e && x.id == y.id ==> x == y
  }

  /** ORDER BY attempts, ready_at, expires_at, id inside a tenant. */
  predicate TenantLeq(x: Candidate, y: Candidate) {
    || x.attempts < y.attempts
    || (x.attempts == y.attempts && x.readyAt < y.readyAt)
    || (x.attempts == y.attempts && x.readyAt == y.readyAt && x.expiresAt < y.expiresAt)
    || (x.attempts == y.attempts && x.readyAt == y.readyAt && x.expiresAt == y.expiresAt && x.id <= y.id)
  }

  function UpTo(e: set<Candidate>, x: Candidate): set<Candidate> {
    set y | y in e && y.tenant == x.tenant && TenantLeq(y, x)
  }

  /** ROW_NUMBER() OVER (PARTITION BY tenant ORDER BY ...). */
  function Rank(e: set<Candidate>, x: Candidate): nat {
    |UpTo(e, x)|
  }

  /** ORDER BY attempts, tenant_rank, ready_at, id over the whole batch. */
  predicate BatchLess(e: set<Candidate>, x: Candidate, y: Candidate) {
    || x.attempts < y.attempts
    || (x.attempts == y.attempts && Rank(e, x) < Rank(e, y))
    || (x.attempts == y.attempts && Rank(e, x) == Rank(e, y) && x.readyAt < y.readyAt)
    || (x.attempts == y.attempts && Rank(e, x) == Rank(e, y) && x.readyAt == y.readyAt && x.id < y.id)
  }

  /** ORDER BY ... LIMIT n. */
  predicate IsBatch(e: set<Candidate>, limit: nat, b: set<Candidate>) {
    && b <= e
    && |b| == (if |e| < limit then |e| else limit)
    && forall x, y :: x in b && y in e - b ==> BatchLess(e, x, y)
  }

  function Of(e: set<Candidate>, tenant: Id): set<Candidate> {
    set x | x in e && x.tenant == tenant
  }

  lemma {:induction false} BatchMinimum(e: set<Candidate>, rest: set<Candidate>) returns (m: Candidate)
    requires rest != {} && rest <= e && DistinctIds(e)
    ensures m in rest && forall y :: y in rest && y != m ==> BatchLess(e, m, y)
    decreases rest
  {
    var x :| x in rest;
    if rest == {x} {
      m := x;
    } else {
      var n := BatchMinimum(e, rest - {x});
      m := if BatchLess(e, x, n) then x else n;
      forall y | y in rest && y != m ensures BatchLess(e, m, y) {
        if y != x && y != n {
          assert y in rest - {x};
        }
      }
    }
  }

  /** For every limit there is a batch. */
  lemma {:induction false} BatchExists(e: set<Candidate>, limit: nat) returns (b: set<Candidate>)
    requires DistinctIds(e)
    ensures IsBatch(e, limit, b)
  {
    if limit == 0 {
      b := {};
    } else {
      var c := BatchExists(e, limit - 1);
      if e - c == {} {
        b := c;
        assert forall y :: y in e ==> y in e - c || y in c;
        assert c == e;
      } else {
        var m := BatchMinimum(e, e - c);
        b := c + {m};
        SubsetSize(c, e);
        if |c| == |e| {
          EqualSizes(c, e);
        }
      }
    }
  }

  lemma {:induction false} SubsetSize(a: set<Candidate>, b: set<Candidate>)
    requires a <= b
    ensures |a| <= |b|
  {
    if x :| x in a {
      SubsetSize(a - {x}, b - {x});
    }
  }

  lemma EqualSizes(a: set<Candidate>, b: set<Candidate>)
    requires a <= b && |a| == |b|
    ensures a == b
  {
    if x :| x in b && x !in a {
      SubsetSize(a, b - {x});
    }
  }

  lemma {:induction false} TenantMaximum(s: set<Candidate>) returns (m: Candidate)
    requires s != {}
    ensures m in s && forall y :: y in s ==> TenantLeq(y, m)
    decreases s
  {
    var x :| x in s;
    if s == {x} {
      m := x;
    } else {
      var n := TenantMaximum(s - {x});
      m := if TenantLeq(x, n) then n else x;
      forall y | y in s ensures TenantLeq(y, m) {
        if y != x {
          assert y in s - {x};
        }
      }
    }
  }

  lemma {:induction false} TenantMinimum(s: set<Candidate>) returns (m: Candidate)
    requires s != {}
    ensures m in s && forall y :: y in s ==> TenantLeq(m, y)
    decreases s
  {
    var x :| x in s;
    if s == {x} {
      m := x;
    } else {
      var n := TenantMinimum(s - {x});
      m := if TenantLeq(x, n) then x else n;
      forall y | y in s ensures TenantLeq(m, y) {
        if y != x {
          assert y in s - {x};
        }
      }
    }
  }

  /** Candidates of the level of attempts at which the batch is cut. */
  predicate SameAttempts(e: set<Candidate>) {
    forall x, y :: x in e && y in e ==> x.attempts == y.attempts
  }

  /** A batch never takes a lease while it leaves one with fewer attempts; and when all eligible
      leases have equally many, two tenants' shares of it differ by more than one only if the smaller
      share is everything that tenant has. */
  lemma SharesDifferByOne(e: set<Candidate>, limit: nat, b: set<Candidate>, more: Id, fewer: Id)
    requires DistinctIds(e) && IsBatch(e, limit, b)
    ensures forall x, y :: x in b && y in e - b ==> x.attempts <= y.attempts
    ensures SameAttempts(e) && |Of(b, more)| > |Of(b, fewer)| + 1 ==> Of(b, fewer) == Of(e, fewer)
  {
    if SameAttempts(e) && |Of(b, more)| > |Of(b, fewer)| + 1 && Of(b, fewer) != Of(e, fewer) {
      var y := FirstLeftOut(e, b, fewer);
      var x := LastTaken(e, b, more);
    }
  }

  lemma FirstLeftOut(e: set<Candidate>, b: set<Candidate>, tenant: Id) returns (y: Candidate)
    requires DistinctIds(e) && b <= e && Of(b, tenant) != Of(e, tenant)
    ensures y in e - b && y.tenant == tenant && Rank(e, y) <= |Of(b, tenant)| + 1
  {
    assert Of(b, tenant) <= Of(e, tenant);
    assert Of(e, tenant) == Of(b, tenant) + (Of(e, tenant) - Of(b, tenant));
    y := TenantMinimum(Of(e, tenant) - Of(b, tenant));
    forall z | z in UpTo(e, y) ensures z in Of(b, tenant) + {y} {
      if z !in b {
        assert z in Of(e, tenant) - Of(b, tenant);
      }
    }
    SubsetSize(UpTo(e, y), Of(b, tenant) + {y});
  }

  lemma LastTaken(e: set<Candidate>, b: set<Candidate>, tenant: Id) returns (x: Candidate)
    requires b <= e && Of(b, tenant) != {}
    ensures x in b && x.tenant == tenant && |Of(b, tenant)| <= Rank(e, x)
  {
    x := TenantMaximum(Of(b, tenant));
    SubsetSize(Of(b, tenant), UpTo(e, x));
  }

  /** By attempts, then by the time since which it waits, then by expiry, then by id. */
  predicate Before(x: Candidate, y: Candidate) {
    if x.attempts != y.attempts then x.attempts < y.attempts
    else if x.readyAt != y.readyAt then x.readyAt < y.readyAt
    else if x.expiresAt != y.expiresAt then x.expiresAt < y.expiresAt
    else x.id < y.id
  }

  /** Of one tenant a batch takes the leases in that order: what it takes comes before what it leaves. And
      of leases with equally many attempts that are equally far along in their tenants' lists, it takes the
      one that has waited longest. */
  lemma BatchesTakeInOrder(e: set<Candidate>, limit: nat, b: set<Candidate>, x: Candidate, y: Candidate)
    requires DistinctIds(e) && IsBatch(e, limit, b) && x in b && y in e - b
    ensures x.tenant == y.tenant ==> Before(x, y)
    ensures x.attempts == y.attempts && Rank(e, x) == Rank(e, y) ==> x.readyAt <= y.readyAt
  {
    if x.tenant == y.tenant && !Before(x, y) {
      assert TenantLeq(y, x) && x.id != y.id;
      EarlierRanksLower(e, y, x);
    }
  }

  lemma EarlierRanksLower(e: set<Candidate>, x: Candidate, y: Candidate)
    requires x in e && y in e && x.tenant == y.tenant && TenantLeq(x, y) && x.id != y.id
    ensures Rank(e, x) < Rank(e, y)
  {
    assert y in UpTo(e, y) && y !in UpTo(e, x);
    assert UpTo(e, x) <= UpTo(e, y) - {y};
    SubsetSize(UpTo(e, x), UpTo(e, y) - {y});
  }
}

/** The rows that fairness is about are the rows a sweep may claim. */
module SweepBatches {
  import opened Wrappers
  import opened Gates
  import opened Leases
  import opened CleanupFairness
  import CleanupRuns

  /** Live, expired, due for an attempt, and not claimed within the last two minutes. */
  predicate Eligible(l: Lease, now: Time) {
    && l.revokedAt == None && l.expiresAt <= now
    && (l.cleanupNextAttemptAt == None || l.cleanupNextAttemptAt.value <= now)
    && (l.cleanupClaimedAt == None || l.cleanupClaimedAt.value + 120_000 < now)
  }

  /** A row waits from its next attempt on, or from its expiry when there was none yet. */
  function CandidateOf(id: Id, l: Lease): Candidate {
    Candidate(id, l.organization, l.cleanupAttempts,
              if l.cleanupNextAttemptAt.Some? then l.cleanupNextAttemptAt.value else l.expiresAt, l.expiresAt)
  }

  /** The candidates of a sweep, of one integration or of all. */
  function Candidates(leases: map<Id, Lease>, now: Time, integration: Option<Id>): set<Candidate> {
    set id | id in leases && Eligible(leases[id], now) && (integration.Some? ==> leases[id].integration == integration.value)
      :: CandidateOf(id, leases[id])
  }

  function IdsOf(b: set<Candidate>): set<Id> {
    set c | c in b :: c.id
  }

  /** Every batch of the candidates is a sweep the protocol allows, and each sweep takes candidates only;
      so for every limit there is a sweep that takes a fair batch. */
  lemma BatchesAreSweeps(s: CleanupRuns.State, integration: Option<Id>, limit: nat, b: set<Candidate>, ids: set<Id>)
    ensures DistinctIds(Candidates(s.leases, s.now, integration))
    ensures IsBatch(Candidates(s.leases, s.now, integration), limit, b) ==>
              CleanupRuns.Enabled(s, CleanupRuns.Sweep(IdsOf(b)))
    ensures CleanupRuns.Enabled(s, CleanupRuns.Sweep(ids)) <==>
            forall id :: id in ids ==> id in IdsOf(Candidates(s.leases, s.now, None))
  {
    CleanupRuns.SweepClaimsExactly(s, IdsOf(b));
    hide CleanupRuns.Enabled;
    SweepsAreCandidates(s, ids);
  }

  lemma SweepsAreCandidates(s: CleanupRuns.State, ids: set<Id>)
    ensures CleanupRuns.Enabled(s, CleanupRuns.Sweep(ids)) <==>
            forall id :: id in ids ==> id in IdsOf(Candidates(s.leases, s.now, None))
  {
    CleanupRuns.SweepClaimsExactly(s, ids);
    hide CleanupRuns.Enabled, Candidates, IdsOf;
    forall id ensures id in IdsOf(Candidates(s.leases, s.now, None)) <==> id in s.leases && Eligible(s.leases[id], s.now) {
      CandidateIds(s.leases, s.now, id);
    }
  }

  lemma CandidateIds(leases: map<Id, Lease>, now: Time, id: Id)
    ensures id in IdsOf(Candidates(leases, now, None)) <==> id in leases && Eligible(leases[id], now)
  {
    var all := Candidates(leases, now, None);
    if id in leases && Eligible(leases[id], now) {
      assert CandidateOf(id, leases[id]) in all;
    }
  }
}
