/** The drain of the concurrent protocol is the loop over lease rows: each row it works is one drain
    step, whatever runs in between, and its deferred counter is the one the loop returns. */
module DrainLoop {
  import opened Wrappers
  import opened Gates
  import opened Leases
  import opened GateProtocol
  import opened GateSafety
  import opened GateTheorems
  import Cleanup

  /** What working a row without a cleanup claim does to the protocol's drain. */
  function LoopAction(d: Id, row: Cleanup.CleanupRow, integrations: map<Id, Cleanup.IntegrationInfo>,
                      o: Cleanup.Outcome, now: Time): Action
  {
    if Cleanup.Judge(row, integrations, o, now) == Cleanup.Retire then DrainMark(d, row.id) else DrainDefer(d, row.id)
  }

  function ProgressOf(s: State, d: Id): Cleanup.Progress
    requires d in s.drains
  {
    Cleanup.Progress(s.leases, s.drains[d].revoked, s.drains[d].deferred)
  }

  /** Working one row that no finalization has locked, as it was read at or before this moment, is
      exactly one step of the drain: the same rows, the same revoked and the same deferred count. */
  lemma LoopStepIsDrainStep(s: State, d: Id, row: Cleanup.CleanupRow, integrations: map<Id, Cleanup.IntegrationInfo>,
                            r: Cleanup.Reply, now: Time)
    requires d in s.drains && row.id in s.drains[d].todo && row.lease == s.drains[d].todo[row.id] && row.claim.None?
    requires row.id in s.leases && !LeaseLocked(s, row.id) && now <= s.now && r.at == s.now
    ensures var a := LoopAction(d, row, integrations, r.outcome, now);
            && Enabled(s, a)
            && d in Apply(s, a).drains
            && ProgressOf(Apply(s, a), d) == Cleanup.StepRow(ProgressOf(s, d), row, integrations, r, now)
            && Apply(s, a).drains[d].todo == s.drains[d].todo - {row.id}
  {
    LoopActionEnabled(s, d, row, integrations, r.outcome, now);
    hide Enabled, Apply, Cleanup.Judge, Cleanup.StepRow, LeaseLocked;
    DrainStepWorksRow(s, d, row, integrations, r, now);
    if LoopAction(d, row, integrations, r.outcome, now).DrainMark? {
      MarkingMarks(s, d, row.id);
    } else {
      DeferringDefers(s, d, row.id);
    }
  }

  lemma LoopActionEnabled(s: State, d: Id, row: Cleanup.CleanupRow, integrations: map<Id, Cleanup.IntegrationInfo>,
                          o: Cleanup.Outcome, now: Time)
    requires d in s.drains && row.id in s.drains[d].todo && row.lease == s.drains[d].todo[row.id]
    requires row.id in s.leases && !LeaseLocked(s, row.id) && now <= s.now
    ensures Enabled(s, LoopAction(d, row, integrations, o, now))
  {
    hide LeaseLocked;
  }

  lemma DrainStepWorksRow(s: State, d: Id, row: Cleanup.CleanupRow, integrations: map<Id, Cleanup.IntegrationInfo>,
                          r: Cleanup.Reply, now: Time)
    requires var a := LoopAction(d, row, integrations, r.outcome, now); Enabled(s, a)
    requires row.lease == s.drains[d].todo[row.id] && row.claim.None? && r.at == s.now
    ensures var a := LoopAction(d, row, integrations, r.outcome, now);
            && d in Apply(s, a).drains
            && ProgressOf(Apply(s, a), d) == Cleanup.StepRow(ProgressOf(s, d), row, integrations, r, now)
  {
    hide MustWait, LeaseLocked, Cleanup.Judge, Cleanup.ScheduleRetry;
    if LoopAction(d, row, integrations, r.outcome, now).DrainMark? {
      MarkingMarks(s, d, row.id);
    } else {
      DeferringDefers(s, d, row.id);
    }
    hide Enabled, Apply;
  }

  lemma MarkingMarks(s: State, d: Id, id: Id)
    requires Enabled(s, DrainMark(d, id))
    ensures var t := Apply(s, DrainMark(d, id));
            && id in s.leases && d in t.drains && t.drains[d].todo == s.drains[d].todo - {id}
            && t.leases == Cleanup.MarkRevoked(s.leases, id, None, s.now)
            && t.drains[d].deferred == s.drains[d].deferred
            && t.drains[d].revoked == s.drains[d].revoked + (if Live(s.leases[id]) then 1 else 0)
  {
    hide MustWait, LeaseLocked;
  }

  lemma DeferringDefers(s: State, d: Id, id: Id)
    requires Enabled(s, DrainDefer(d, id))
    ensures var t := Apply(s, DrainDefer(d, id));
            && d in t.drains && t.drains[d].todo == s.drains[d].todo - {id} && t.leases == s.leases
            && t.drains[d].deferred == s.drains[d].deferred + 1 && t.drains[d].revoked == s.drains[d].revoked
  {
  }

  predicate StepsDrain(a: Action, d: Id) {
    (a.DrainMark? || a.DrainDefer?) && a.drain == d
  }

  lemma DrainUntouched(s: State, a: Action, d: Id)
    requires Enabled(s, a) && d in s.drains && !StepsDrain(a, d)
    ensures d in Apply(s, a).drains && Apply(s, a).drains[d] == s.drains[d]
  {
    if a.BeginDrain? || a.DrainMark? || a.DrainDefer? {
      hide LeaseLocked, Matches, MustWait;
    } else {
      hide Apply, Enabled;
      DrainsStay(s, a);
    }
  }

  lemma DrainStepped(s: State, a: Action, d: Id)
    requires Enabled(s, a) && d in s.drains && StepsDrain(a, d)
    ensures d in Apply(s, a).drains && Apply(s, a).drains[d].todo == s.drains[d].todo - {a.lease}
    ensures Apply(s, a).drains[d].deferred == s.drains[d].deferred + (if a.DrainDefer? then 1 else 0)
  {
  }

  ghost predicate StillToDo(rows: seq<Cleanup.CleanupRow>, n: nat, l: Id) {
    exists i :: n <= i < |rows| && rows[i].id == l
  }

  /** What a drain has still to do are the rows from n on, as they were read. */
  ghost predicate TodoIs(todo: map<Id, Lease>, rows: seq<Cleanup.CleanupRow>, n: nat) {
    && (forall l :: l in todo ==> StillToDo(rows, n, l))
    && (forall i :: n <= i < |rows| ==> rows[i].id in todo && todo[rows[i].id] == rows[i].lease)
  }

  /** The loop between the steps b and e of a run: it has read the drain's list, works its rows one
      after the other at the steps at[0] < at[1] < ..., and nothing else steps this drain. */
  ghost predicate LoopRuns(ss: seq<State>, acts: seq<Action>, b: nat, e: nat, d: Id, rows: seq<Cleanup.CleanupRow>,
                           integrations: map<Id, Cleanup.IntegrationInfo>, replies: seq<Cleanup.Reply>, now: Time, at: seq<nat>)
    requires |ss| == |acts| + 1
  {
    && b < e <= |acts| && |rows| == |replies| == |at|
    && d in ss[b + 1].drains && ss[b + 1].drains[d].deferred == 0
    && (forall i :: 0 <= i < |rows| ==> rows[i].claim.None?)
    && (forall i, j :: 0 <= i < j < |rows| ==> rows[i].id != rows[j].id)
    && TodoIs(ss[b + 1].drains[d].todo, rows, 0)
    && (forall i :: 0 <= i < |at| ==> b < at[i] < e)
    && (forall i, j :: 0 <= i < j < |at| ==> at[i] < at[j])
    && (forall i :: 0 <= i < |at| ==> acts[at[i]] == LoopAction(d, rows[i], integrations, replies[i].outcome, now))
    && (forall i :: 0 <= i < |at| ==> replies[i].at == ss[at[i]].now && now <= ss[at[i]].now)
    && (forall k :: b < k < e && StepsDrain(acts[k], d) ==> k in at)
  }

  /** The rows from n on are still to do; the ones before are counted. */
  ghost predicate Worked(s: State, d: Id, rows: seq<Cleanup.CleanupRow>, integrations: map<Id, Cleanup.IntegrationInfo>,
                         replies: seq<Cleanup.Reply>, now: Time, n: nat)
    requires n <= |rows| == |replies|
  {
    && d in s.drains
    && TodoIs(s.drains[d].todo, rows, n)
    && s.drains[d].deferred == Cleanup.DeferredRows(rows[..n], integrations, replies[..n], now)
  }

  lemma OneMoreWorked(s: State, a: Action, d: Id, rows: seq<Cleanup.CleanupRow>, integrations: map<Id, Cleanup.IntegrationInfo>,
                      replies: seq<Cleanup.Reply>, now: Time, n: nat)
    requires n < |rows| == |replies| && Enabled(s, a) && Worked(s, d, rows, integrations, replies, now, n)
    requires a == LoopAction(d, rows[n], integrations, replies[n].outcome, now)
    requires forall i, j :: 0 <= i < j < |rows| ==> rows[i].id != rows[j].id
    ensures Worked(Apply(s, a), d, rows, integrations, replies, now, n + 1)
  {
    DrainStepped(s, a, d);
    hide Apply, Enabled, Cleanup.Judge;
    var s' := Apply(s, a);
    assert rows[..n + 1][..n] == rows[..n] && replies[..n + 1][..n] == replies[..n];
    forall l | l in s'.drains[d].todo ensures StillToDo(rows, n + 1, l) {
      var i :| n <= i < |rows| && rows[i].id == l;
      assert i != n;
    }
    forall i | n + 1 <= i < |rows| ensures rows[i].id in s'.drains[d].todo && s'.drains[d].todo[rows[i].id] == rows[i].lease {
      assert rows[n].id != rows[i].id;
    }
  }

  /** Where the loop stands at step k, when n of its rows were worked before it. */
  ghost predicate StandsAt(at: seq<nat>, n: nat, k: nat) {
    n <= |at| && (n > 0 ==> at[n - 1] < k) && (n < |at| ==> k <= at[n])
  }

  /** One step of the run inside the loop: the next row is worked, or the drain is not touched. */
  lemma WorkedStep(ss: seq<State>, acts: seq<Action>, b: nat, e: nat, d: Id, rows: seq<Cleanup.CleanupRow>,
                   integrations: map<Id, Cleanup.IntegrationInfo>, replies: seq<Cleanup.Reply>,
                   now: Time, at: seq<nat>, n: nat, k: nat)
    requires IsRun(ss, acts) && LoopRuns(ss, acts, b, e, d, rows, integrations, replies, now, at)
    requires b < k < e && n <= |rows| && StandsAt(at, n, k)
    requires Worked(ss[k], d, rows, integrations, replies, now, n)
    ensures Worked(ss[k + 1], d, rows, integrations, replies, now, if n < |rows| && at[n] == k then n + 1 else n)
  {
    hide Apply, Enabled, Init, LoopAction, Worked, StillToDo, StepsDrain;
    RunStep(ss, acts, k);
    if n < |rows| && at[n] == k {
      OneMoreWorked(ss[k], acts[k], d, rows, integrations, replies, now, n);
    } else {
      BetweenRows(acts, b, e, d, at, n, k);
      WorkedKept(ss[k], acts[k], d, rows, integrations, replies, now, n);
    }
  }

  lemma {:induction false} LoopState(ss: seq<State>, acts: seq<Action>, b: nat, e: nat, d: Id, rows: seq<Cleanup.CleanupRow>,
                                     integrations: map<Id, Cleanup.IntegrationInfo>, replies: seq<Cleanup.Reply>,
                                     now: Time, at: seq<nat>, n: nat, k: nat)
    requires IsRun(ss, acts) && LoopRuns(ss, acts, b, e, d, rows, integrations, replies, now, at)
    requires b < k <= e && n <= |rows| && StandsAt(at, n, k)
    ensures Worked(ss[k], d, rows, integrations, replies, now, n)
    decreases k
  {
    hide *;
    LoopShape(ss, acts, b, e, d, rows, integrations, replies, now, at, n, k);
    if k == b + 1 {
      NothingWorked(ss, acts, b, e, d, rows, integrations, replies, now, at);
    } else {
      var m := StoodBefore(ss, acts, b, e, d, rows, integrations, replies, now, at, n, k);
      LoopState(ss, acts, b, e, d, rows, integrations, replies, now, at, m, k - 1);
      WorkedStep(ss, acts, b, e, d, rows, integrations, replies, now, at, m, k - 1);
    }
  }

  lemma StoodBefore(ss: seq<State>, acts: seq<Action>, b: nat, e: nat, d: Id, rows: seq<Cleanup.CleanupRow>,
                    integrations: map<Id, Cleanup.IntegrationInfo>, replies: seq<Cleanup.Reply>,
                    now: Time, at: seq<nat>, n: nat, k: nat) returns (m: nat)
    requires IsRun(ss, acts) && LoopRuns(ss, acts, b, e, d, rows, integrations, replies, now, at)
    requires b + 1 < k <= e && n <= |rows| && StandsAt(at, n, k)
    ensures m <= |rows| && StandsAt(at, m, k - 1) && n == if m < |rows| && at[m] == k - 1 then m + 1 else m
  {
    hide Apply, Enabled, Init, LoopAction, StillToDo, StepsDrain, TodoIs, IsRun;
    m := if n > 0 && at[n - 1] == k - 1 then n - 1 else n;
    assert m > 0 && m < n ==> at[m - 1] < at[m];
  }

  lemma LoopShape(ss: seq<State>, acts: seq<Action>, b: nat, e: nat, d: Id, rows: seq<Cleanup.CleanupRow>,
                  integrations: map<Id, Cleanup.IntegrationInfo>, replies: seq<Cleanup.Reply>, now: Time, at: seq<nat>,
                  n: nat, k: nat)
    requires IsRun(ss, acts) && LoopRuns(ss, acts, b, e, d, rows, integrations, replies, now, at)
    requires n <= |rows| && StandsAt(at, n, k)
    ensures |ss| == |acts| + 1 && b < e <= |acts| && |rows| == |replies| == |at|
    ensures k == b + 1 ==> n == 0
  {
    hide Apply, Enabled, Init, LoopAction, StillToDo, StepsDrain, TodoIs;
  }

  lemma BetweenRows(acts: seq<Action>, b: nat, e: nat, d: Id, at: seq<nat>, n: nat, k: nat)
    requires b < k < e <= |acts| && n <= |at| && (n > 0 ==> at[n - 1] < k) && (n < |at| ==> k < at[n])
    requires forall i, j :: 0 <= i < j < |at| ==> at[i] < at[j]
    requires forall k :: b < k < e && StepsDrain(acts[k], d) ==> k in at
    ensures !StepsDrain(acts[k], d)
  {
    forall i | 0 <= i < |at| ensures at[i] != k {
      if i < n - 1 {
        assert at[i] < at[n - 1];
      } else if i > n {
        assert at[n] < at[i];
      }
    }
  }

  lemma WorkedKept(s: State, a: Action, d: Id, rows: seq<Cleanup.CleanupRow>, integrations: map<Id, Cleanup.IntegrationInfo>,
                   replies: seq<Cleanup.Reply>, now: Time, n: nat)
    requires n <= |rows| == |replies| && Enabled(s, a) && Worked(s, d, rows, integrations, replies, now, n) && !StepsDrain(a, d)
    ensures Worked(Apply(s, a), d, rows, integrations, replies, now, n)
  {
    DrainUntouched(s, a, d);
    hide Apply, Enabled, Cleanup.DeferredRows;
  }

  lemma NothingWorked(ss: seq<State>, acts: seq<Action>, b: nat, e: nat, d: Id, rows: seq<Cleanup.CleanupRow>,
                      integrations: map<Id, Cleanup.IntegrationInfo>, replies: seq<Cleanup.Reply>, now: Time, at: seq<nat>)
    requires |ss| == |acts| + 1 && LoopRuns(ss, acts, b, e, d, rows, integrations, replies, now, at)
    ensures Worked(ss[b + 1], d, rows, integrations, replies, now, 0)
  {
    hide LoopAction;
    assert rows[..0] == [] && replies[..0] == [];
  }

  /** When the loop is through, its drain has nothing left to do and has deferred exactly the rows the
      loop deferred, whatever ran in between. */
  lemma LoopCountsItsDrain(ss: seq<State>, acts: seq<Action>, b: nat, e: nat, d: Id, rows: seq<Cleanup.CleanupRow>,
                           integrations: map<Id, Cleanup.IntegrationInfo>, replies: seq<Cleanup.Reply>, now: Time, at: seq<nat>)
    requires IsRun(ss, acts) && LoopRuns(ss, acts, b, e, d, rows, integrations, replies, now, at)
    ensures d in ss[e].drains && ss[e].drains[d].todo == map[]
    ensures ss[e].drains[d].deferred == Cleanup.DeferredRows(rows, integrations, replies, now)
  {
    hide Apply, Enabled, Init, LoopAction, Cleanup.DeferredRows;
    if |rows| > 0 {
      assert at[|rows| - 1] < e;
    }
    assert StandsAt(at, |rows|, e);
    LoopState(ss, acts, b, e, d, rows, integrations, replies, now, at, |rows|, e);
    assert rows[..|rows|] == rows && replies[..|rows|] == replies;
    assert forall l :: l !in ss[e].drains[d].todo;
  }

  /** And every row the loop works, it works as the loop's body does on the table it finds. */
  lemma LoopWorksItsRows(ss: seq<State>, acts: seq<Action>, b: nat, e: nat, d: Id, rows: seq<Cleanup.CleanupRow>,
                         integrations: map<Id, Cleanup.IntegrationInfo>, replies: seq<Cleanup.Reply>, now: Time, at: seq<nat>,
                         i: nat)
    requires IsRun(ss, acts) && LoopRuns(ss, acts, b, e, d, rows, integrations, replies, now, at) && i < |rows|
    ensures d in ss[at[i]].drains && d in ss[at[i] + 1].drains
    ensures ProgressOf(ss[at[i] + 1], d) == Cleanup.StepRow(ProgressOf(ss[at[i]], d), rows[i], integrations, replies[i], now)
  {
    hide Apply, Enabled, Init, LoopAction, LeaseLocked, StillToDo, StepsDrain, Cleanup.StepRow, Cleanup.DeferredRows;
    var k := at[i];
    RunStep(ss, acts, k);
    assert StandsAt(at, i, k);
    LoopState(ss, acts, b, e, d, rows, integrations, replies, now, at, i, k);
    hide IsRun, LoopRuns;
    DrainStepWorksRow(ss[k], d, rows[i], integrations, replies[i], now);
  }

  /** Without deferrals every row's credential is known to be gone. */
  lemma {:induction false} NothingDeferred(rows: seq<Cleanup.CleanupRow>, integrations: map<Id, Cleanup.IntegrationInfo>,
                                           replies: seq<Cleanup.Reply>, now: Time)
    requires |rows| == |replies| && Cleanup.DeferredRows(rows, integrations, replies, now) == 0
    ensures forall i :: 0 <= i < |rows| ==> Cleanup.Retirable(rows[i], integrations, replies[i].outcome, now)
  {
    hide Cleanup.Judge, Cleanup.Retirable;
    if rows != [] {
      var n := |rows| - 1;
      NothingDeferred(rows[..n], integrations, replies[..n], now);
      Cleanup.JudgeMeans(rows[n], integrations, replies[n].outcome, now);
      forall i | 0 <= i < |rows| ensures Cleanup.Retirable(rows[i], integrations, replies[i].outcome, now) {
        if i < n {
          assert rows[..n][i] == rows[i] && replies[..n][i] == replies[i];
        }
      }
    }
  }

  /** The drain as it is called: if the loop over the leases of a pending gate returns deferred = 0,
      no live lease under that gate exists from then on until some step clears the gate, and of every
      lease it worked the credential is known to be gone. */
  lemma RevokingActiveLeasesIsSafe(ss: seq<State>, acts: seq<Action>, k: LockKey, b: nat, e: nat, j: nat, d: Id,
                                   rows: seq<Cleanup.CleanupRow>, integrations: map<Id, Cleanup.IntegrationInfo>,
                                   replies: seq<Cleanup.Reply>, now: Time, at: seq<nat>)
    requires IsRun(ss, acts) && LoopRuns(ss, acts, b, e, d, rows, integrations, replies, now, at) && e <= j <= |acts|
    requires acts[b] == BeginDrain(d, DrainFilter(k)) && KeyPending(ss[b], k) && NeverCleared(ss, acts, k, b, j)
    requires Cleanup.DeferredRows(rows, integrations, replies, now) == 0
    ensures NothingLive(ss[j], k)
    ensures forall i :: 0 <= i < |rows| ==> Cleanup.Retirable(rows[i], integrations, replies[i].outcome, now)
  {
    NothingDeferred(rows, integrations, replies, now);
    hide Apply, Enabled, Init, LoopAction, NeverCleared, KeyPending, NothingLive;
    LoopCountsItsDrain(ss, acts, b, e, d, rows, integrations, replies, now, at);
    DrainSafeUntilCleared(ss, acts, k, d, b, e, j);
  }
}
