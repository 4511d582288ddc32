/** The cleanup of Neon roles runs on the cleanup protocol: what the issuers, drains and sweeps of
    NeonRoles do to lease rows is a run of CleanupRuns. */
module NeonCleanup {
  import opened Wrappers
  import opened Gates
  import opened Leases
  import opened NeonRoles
  import C = CleanupRuns
  import Cleanup

  /** The rows that a worker still has, looked for or not, with their claims. */
  function Rows(x: Worker): map<Id, Option<Cleanup.Attempt>> {
    map id | id in x.todo.Keys + (if x.asked.Some? then {x.asked.value} else {}) :: ClaimOn(x, id)
  }

  ghost predicate Agrees(s: State, c: C.State) {
    && c.now == s.now && c.leases == s.leases && |c.workers| == |s.workers|
    && forall w :: 0 <= w < |s.workers| ==> c.workers[w].todo == Rows(s.workers[w])
  }

  /** What a step is to the cleanup protocol; steps that touch only issuers and roles are none. */
  function Below(s: State, a: Action): Option<C.Action>
    requires Enabled(s, a)
  {
    match a
    case Tick(to) => Some(C.Tick(to))
    case Reserve(id, l) => Some(C.Insert(id, l))
    case ExpireReservation(id) => Some(C.IssuerExpires(id))
    case CommitFinalize(id, e) => Some(C.Finalize(id, RoleOf(s, id), Role, e))
    case RecordUndo(id) => Some(if s.issuers[id].phase.revoked then C.IssuerRetires(id) else C.IssuerExpires(id))
    case Drain(ids) => Some(C.Drain(ids))
    case Sweep(ids) => Some(C.Sweep(ids))
    case SkipRow(w, id) => Some(C.Action.Wait(w, id))
    case MarkRow(w, id) => Some(C.Action.Mark(w, id))
    case RetryRow(w, id) => Some(C.Action.Retry(w, id))
    case StopWorker(w) => Some(C.Crash(w))
    case _ => None
  }

  lemma SettledRows(x: Worker, id: Id)
    requires x.asked == Some(id) || (x.asked.None? && id in x.todo)
    ensures id in Rows(x) && Rows(x)[id] == ClaimOn(x, id) && Rows(Settled(x, id)) == Rows(x) - {id}
  {
  }

  lemma AskedRows(x: Worker, id: Id)
    requires x.asked.None? && id in x.todo
    ensures Rows(x.(todo := x.todo - {id}, asked := Some(id))) == Rows(x)
  {
    assert x.todo.Keys - {id} + {id} == x.todo.Keys;
  }

  lemma WorkerStepAgrees(s: State, a: Action, c: C.State)
    requires Enabled(s, a) && Agrees(s, c) && (a.SkipRow? || a.MarkRow? || a.RetryRow?)
    ensures C.Enabled(c, Below(s, a).value) && Agrees(Apply(s, a), C.Apply(c, Below(s, a).value))
  {
    SettledRows(s.workers[a.worker], a.id);
    hide Rows, ClaimOn, Settled, Cleanup.Fence, Cleanup.MarkRevoked, Cleanup.ScheduleRetry, C.Ready;
  }

  lemma QuietStepAgrees(s: State, a: Action, c: C.State)
    requires Enabled(s, a) && Agrees(s, c) && Below(s, a).None?
    ensures Agrees(Apply(s, a), c)
  {
    if a.DropRole? {
      AskedRows(s.workers[a.worker], a.id);
    }
    hide Rows;
    if a.ReadClock? {
      SameRows(s.workers[a.worker], Some(s.now));
    }
  }

  lemma SameRows(x: Worker, clock: Option<Time>)
    ensures Rows(x.(clock := clock)) == Rows(x)
  {
  }

  lemma ReadingAgrees(s: State, a: Action, c: C.State)
    requires Enabled(s, a) && Agrees(s, c) && (a.Drain? || a.Sweep?)
    ensures C.Enabled(c, Below(s, a).value) && Agrees(Apply(s, a), C.Apply(c, Below(s, a).value))
  {
    hide C.Ready, C.ClaimedForCleanup;
    var x := Apply(s, a).workers[|s.workers|];
    assert x.todo.Keys == a.ids;
    assert C.Apply(c, Below(s, a).value).workers[|s.workers|].todo == Rows(x);
    hide Rows;
  }

  lemma OtherStepAgrees(s: State, a: Action, c: C.State)
    requires Enabled(s, a) && Agrees(s, c)
    requires Below(s, a).Some? && !a.Drain? && !a.Sweep? && !a.SkipRow? && !a.MarkRow? && !a.RetryRow?
    ensures C.Enabled(c, Below(s, a).value) && Agrees(Apply(s, a), C.Apply(c, Below(s, a).value))
  {
    assert Rows(IDLE) == map[];
    hide Rows, C.Ready;
  }

  /** One step is one step of the cleanup protocol or none, and the rows agree again. */
  lemma StepAgrees(s: State, a: Action, c: C.State)
    requires Enabled(s, a) && Agrees(s, c)
    ensures match Below(s, a)
            case None => Agrees(Apply(s, a), c)
            case Some(b) => C.Enabled(c, b) && Agrees(Apply(s, a), C.Apply(c, b))
  {
    hide Enabled, Apply, Agrees, C.Enabled, C.Apply;
    if Below(s, a).None? {
      QuietStepAgrees(s, a, c);
    } else if a.Drain? || a.Sweep? {
      ReadingAgrees(s, a, c);
    } else if a.SkipRow? || a.MarkRow? || a.RetryRow? {
      WorkerStepAgrees(s, a, c);
    } else {
      OtherStepAgrees(s, a, c);
    }
  }

  lemma Beginning(s: State)
    requires s.leases == map[] && s.workers == []
    ensures Agrees(s, C.State(s.now, map[], [])) && C.IsRun([C.State(s.now, map[], [])], [])
  {
  }

  lemma RunExtends(cs: seq<C.State>, bs: seq<C.Action>, b: C.Action)
    requires C.IsRun(cs, bs) && C.Enabled(cs[|bs|], b)
    ensures C.IsRun(cs + [C.Apply(cs[|bs|], b)], bs + [b])
  {
    hide C.Enabled, C.Apply;
    var ds, es := cs + [C.Apply(cs[|bs|], b)], bs + [b];
    forall k: nat | k < |es| ensures C.StepAt(ds, es, k) {
      assert k < |bs| ==> C.StepAt(cs, bs, k);
    }
  }

  /** Every run of NeonRoles, seen on its lease rows, is a run of the cleanup protocol. */
  lemma {:induction false} RunIsCleanupRun(ss: seq<State>, acts: seq<Action>, k: nat) returns (cs: seq<C.State>, bs: seq<C.Action>)
    requires IsRun(ss, acts) && k < |ss|
    ensures C.IsRun(cs, bs) && Agrees(ss[k], cs[|bs|])
  {
    hide Agrees, C.Enabled, C.Apply, Enabled, Apply, Below;
    if k == 0 {
      Beginning(ss[0]);
      cs, bs := [C.State(ss[0].now, map[], [])], [];
    } else {
      cs, bs := RunIsCleanupRun(ss, acts, k - 1);
      assert StepAt(ss, acts, k - 1);
      StepAgrees(ss[k - 1], acts[k - 1], cs[|bs|]);
      match Below(ss[k - 1], acts[k - 1])
      case None =>
      case Some(b) =>
        RunExtends(cs, bs, b);
        cs, bs := cs + [C.Apply(cs[|bs|], b)], bs + [b];
    }
  }

  /** So what the cleanup protocol keeps holds here too: of the sweeps that have a row, at most one passes
      its fence. */
  lemma OneSweepPasses(ss: seq<State>, acts: seq<Action>, k: nat, w: nat, v: nat, id: Id)
    requires IsRun(ss, acts) && k < |ss| && w < |ss[k].workers| && v < |ss[k].workers|
    requires var x, y := ss[k].workers[w], ss[k].workers[v];
             && id in Rows(x) && id in x.claims && Cleanup.Fence(ss[k].leases, id, ClaimOn(x, id))
             && id in Rows(y) && id in y.claims && Cleanup.Fence(ss[k].leases, id, ClaimOn(y, id))
    ensures w == v
  {
    var cs, bs := RunIsCleanupRun(ss, acts, k);
    hide C.IsRun, IsRun, Cleanup.Fence;
    C.OneWorkerPasses(cs, bs, |bs|, w, v, id);
  }
}
