/** The control plane as concurrent database transactions: gate claims, lease reservations,
    finalizations and deliverability checks interleave statement by statement with drains,
    sweeps, gate updates and edits by other routes. Every transaction can abort at any point. */
module GateProtocol {
  import opened Wrappers
  import opened Gates
  import opened Leases

  datatype WorkspaceRole = Viewer | Analyst | Editor | Admin | Owner

  datatype Engine = Postgres | Mysql

  datatype Member = Member(organization: Id, user: Id, role: WorkspaceRole)

  datatype Connection = Connection(
    organization: Id, deleted: bool, managed: bool, allowWrites: bool,
    integration: Option<Id>, engine: Engine, provider: Option<Provider>, revision: int)

  datatype Integration = Integration(organization: Id, provider: Provider, active: bool, revoked: bool)

  datatype Target =
    | MemberTarget(organization: Id, member: Id, user: Id)
    | ConnectionTarget(organization: Id, connection: Id)
    | IntegrationTarget(organization: Id, integration: Id)

  datatype RowId = MemberRow(id: Id) | ConnectionRow(id: Id) | IntegrationRow(id: Id)

  /** Advisory lock keys. The member key names the user, not the member row. */
  datatype LockKey =
    | MemberKey(organization: Id, user: Id)
    | ConnectionKey(organization: Id, connection: Id)
    | IntegrationKey(organization: Id, integration: Id)

  function RowOf(t: Target): RowId {
    match t
    case MemberTarget(_, m, _) => MemberRow(m)
    case ConnectionTarget(_, c) => ConnectionRow(c)
    case IntegrationTarget(_, i) => IntegrationRow(i)
  }

  function KeyOf(t: Target): LockKey {
    match t
    case MemberTarget(o, _, u) => MemberKey(o, u)
    case ConnectionTarget(o, c) => ConnectionKey(o, c)
    case IntegrationTarget(o, i) => IntegrationKey(o, i)
  }

  /** The filter with which a gate's drain selects leases. */
  function DrainFilter(k: LockKey): LeaseFilter {
    match k
    case MemberKey(o, u) => LeaseFilter(o, None, Some(u), None, None)
    case ConnectionKey(o, c) => LeaseFilter(o, None, None, Some(c), None)
    case IntegrationKey(o, i) => LeaseFilter(o, None, None, None, Some(i))
  }

  /** What a lease request claims to know about the rows it depends on. */
  datatype Authority = Authority(
    leaseId: Id, organization: Id, member: Id, user: Id, role: WorkspaceRole,
    connection: Id, revision: int, engine: Engine, integration: Id, provider: Provider, accessMode: AccessMode)

  datatype Credential = Credential(id: CredentialId, kind: Kind, expiresAt: Time)

  datatype Purpose =
    | Reserve(expiresAt: Time)
    | Finalize(credential: Credential)
    | Deliver(credential: Credential)

  /** Started: the clock is read and the statement is on its way. Waiting: its snapshot is taken. */
  datatype ClaimPhase = Started | Waiting | Locked | Written(hit: bool)

  /** Locking(n): n of the three shared locks are held. Offering: the reservation's insert still
      has these free slots of its snapshot to try. Matched: the statement's snapshot is taken.
      Answered: the statement is done and the commit is outstanding. */
  datatype ReadPhase =
    | Locking(held: nat)
    | Offering(allowed: bool, offered: seq<int>, inserted: Option<int>)
    | Matched(seen: bool)
    | Answered(hit: bool)

  datatype Txn =
    | Claiming(target: Target, claimId: Id, at: Time, seen: bool, step: ClaimPhase)
    | Reading(auth: Authority, purpose: Purpose, startedAt: Time, phase: ReadPhase)

  datatype Drain = Drain(filter: LeaseFilter, todo: map<Id, Lease>, revoked: nat, deferred: nat)

  datatype IssuedClaim = IssuedClaim(target: Target, claim: GateClaim)

  datatype State = State(
    now: Time,
    members: map<Id, Member>, connections: map<Id, Connection>, integrations: map<Id, Integration>,
    gates: map<RowId, Gate>, leases: map<Id, Lease>,
    txns: map<Id, Txn>, drains: map<Id, Drain>, claims: map<Id, IssuedClaim>, used: set<Id>)

  datatype Change = Release | Clear | Renew(newId: Id, at: Time)

  datatype Action =
    | Tick(to: Time)
    | BeginClaim(txn: Id, target: Target, claimId: Id)
    | SnapshotClaim(txn: Id)
    | LockExclusive(txn: Id)
    | WriteClaim(txn: Id)
    | CommitClaim(txn: Id)
    | BeginRead(txn: Id, auth: Authority, purpose: Purpose)
    | LockShared(txn: Id)
    | Snapshot(txn: Id)
    | TrySlot(txn: Id)
    | WriteFinal(txn: Id)
    | CommitRead(txn: Id)
    | Abort(txn: Id)
    | Update(claimId: Id, change: Change)
    | Edit(members: map<Id, Member>, connections: map<Id, Connection>, integrations: map<Id, Integration>, gates: map<RowId, Gate>)
    | Touch(lease: Id, after: Lease)
    | BeginDrain(drain: Id, filter: LeaseFilter)
    | DrainMark(drain: Id, lease: Id)
    | DrainDefer(drain: Id, lease: Id)

  // ---- Gates and locks -------------------------------------------------------------------

  function GateOf(s: State, r: RowId): Gate {
    if r in s.gates then s.gates[r] else OPEN
  }

  predicate RowHasKey(s: State, r: RowId, k: LockKey) {
    match r
    case MemberRow(m) => m in s.members && k == MemberKey(s.members[m].organization, s.members[m].user)
    case ConnectionRow(c) => c in s.connections && k == ConnectionKey(s.connections[c].organization, c)
    case IntegrationRow(i) => i in s.integrations && k == IntegrationKey(s.integrations[i].organization, i)
  }

  /** Some row under this lock key has a revocation pending. */
  ghost predicate KeyPending(s: State, k: LockKey) {
    exists r :: RowHasKey(s, r, k) && GateOf(s, r).pendingAt.Some?
  }

  function KeyAt(a: Authority, n: nat): LockKey
    requires n < 3
  {
    if n == 0 then MemberKey(a.organization, a.user)
    else if n == 1 then ConnectionKey(a.organization, a.connection)
    else IntegrationKey(a.organization, a.integration)
  }

  function HeldCount(p: ReadPhase): nat {
    if p.Locking? then p.held else 3
  }

  predicate HoldsShared(x: Txn, k: LockKey) {
    && x.Reading?
    && ((HeldCount(x.phase) > 0 && k == KeyAt(x.auth, 0))
        || (HeldCount(x.phase) > 1 && k == KeyAt(x.auth, 1))
        || (HeldCount(x.phase) > 2 && k == KeyAt(x.auth, 2)))
  }

  predicate HasLock(x: Txn) {
    x.Claiming? && (x.step.Locked? || x.step.Written?)
  }

  predicate HoldsExclusive(x: Txn, k: LockKey) {
    HasLock(x) && k == KeyOf(x.target)
  }

  predicate Holds(x: Txn, k: LockKey) {
    HoldsShared(x, k) || HoldsExclusive(x, k)
  }

  /** The row a claim's statement may update: right tenant and user, not deleted, still active. */
  predicate RowMatches(s: State, t: Target) {
    match t
    case MemberTarget(o, m, u) => m in s.members && s.members[m].organization == o && s.members[m].user == u
    case ConnectionTarget(o, c) => c in s.connections && s.connections[c].organization == o && !s.connections[c].deleted
    case IntegrationTarget(o, i) =>
      && i in s.integrations && s.integrations[i].organization == o
      && s.integrations[i].active && !s.integrations[i].revoked
  }

  /** Release, clear and renew do not look at an integration's status. */
  predicate RowUpdatable(s: State, t: Target) {
    match t
    case MemberTarget(_, _, _) => RowMatches(s, t)
    case ConnectionTarget(_, _) => RowMatches(s, t)
    case IntegrationTarget(o, i) => i in s.integrations && s.integrations[i].organization == o
  }

  predicate CanClaim(s: State, t: Target, at: Time) {
    RowMatches(s, t) && Claimable(GateOf(s, RowOf(t)), at)
  }

  /** A claim that has written its row but not committed blocks every other writer of that row. */
  predicate LocksRow(x: Txn, r: RowId) {
    x.Claiming? && x.step == Written(true) && RowOf(x.target) == r
  }

  predicate RowLocked(s: State, r: RowId) {
    exists t :: t in s.txns && LocksRow(s.txns[t], r)
  }

  // ---- Authority and lease rows ------------------------------------------------------------

  predicate GateFree(g: Gate) {
    g.pendingAt.None? && g.claimId.None?
  }

  predicate Capable(s: State, a: Authority)
    requires a.member in s.members && a.connection in s.connections
  {
    var role := s.members[a.member].role;
    if a.accessMode == WriteAccess
    then role in {Editor, Admin, Owner} && s.connections[a.connection].allowWrites
    else role in {Analyst, Editor, Admin, Owner}
  }

  predicate AuthorityHolds(s: State, a: Authority) {
    && a.member in s.members && a.connection in s.connections && a.integration in s.integrations
    && s.members[a.member] == Member(a.organization, a.user, a.role)
    && GateFree(GateOf(s, MemberRow(a.member)))
    && Capable(s, a)
    && var c := s.connections[a.connection];
    && c.organization == a.organization && !c.deleted && c.managed
    && GateFree(GateOf(s, ConnectionRow(a.connection)))
    && c.integration == Some(a.integration) && c.revision == a.revision
    && c.engine == a.engine && c.provider == Some(a.provider)
    && s.integrations[a.integration] == Integration(a.organization, a.provider, true, false)
    && GateFree(GateOf(s, IntegrationRow(a.integration)))
  }

  function ReservedLease(a: Authority, slot: int, expiresAt: Time): Lease {
    Lease(a.organization, a.connection, a.integration, a.user, a.provider, a.accessMode,
          OwnId(a.leaseId), Pending, slot, expiresAt, None, 0, None, None)
  }

  predicate SlotHeld(s: State, a: Authority, slot: int) {
    exists l :: l in s.leases && Live(s.leases[l]) && SameSlot(s.leases[l], ReservedLease(a, slot, 0))
  }

  function FreeSlots(s: State, a: Authority): seq<int> {
    FreeFrom(s, a, 1)
  }

  function FreeFrom(s: State, a: Authority, slot: int): seq<int>
    decreases SLOTS + 1 - slot
  {
    if slot > SLOTS then []
    else (if SlotHeld(s, a, slot) then [] else [slot]) + FreeFrom(s, a, slot + 1)
  }

  /** A reservation that has inserted its row but not committed. */
  predicate HasInsert(x: Txn) {
    x.Reading? && x.purpose.Reserve? && x.phase.Offering? && x.phase.inserted.Some?
  }

  function InsertOf(x: Txn): Lease
    requires HasInsert(x)
  {
    ReservedLease(x.auth, x.phase.inserted.value, x.purpose.expiresAt)
  }

  /** The unique index makes an insert wait for another transaction's uncommitted row in its slot. */
  predicate SlotInFlight(s: State, a: Authority, slot: int) {
    exists t :: t in s.txns && HasInsert(s.txns[t])
                && SameSlot(InsertOf(s.txns[t]), ReservedLease(a, slot, 0))
  }

  predicate SameAuthority(l: Lease, a: Authority) {
    && l.organization == a.organization && l.connection == a.connection && l.integration == a.integration
    && l.user == a.user && l.provider == a.provider && l.accessMode == a.accessMode
  }

  predicate CanFinalize(s: State, a: Authority, startedAt: Time, c: Credential) {
    && a.leaseId in s.leases
    && var l := s.leases[a.leaseId];
    && SameAuthority(l, a) && l.kind == Pending && Live(l)
    && startedAt < l.expiresAt && startedAt < c.expiresAt
  }

  predicate CanDeliver(s: State, a: Authority, startedAt: Time, c: Credential) {
    && a.leaseId in s.leases
    && var l := s.leases[a.leaseId];
    && SameAuthority(l, a) && l.credentialId == c.id && l.kind == c.kind && l.kind != Pending
    && l.expiresAt == c.expiresAt && startedAt < l.expiresAt && Live(l)
  }

  /** A finalization that has written its lease row but not committed. */
  predicate HasFinal(x: Txn) {
    x.Reading? && x.purpose.Finalize? && x.phase == Answered(true)
  }

  predicate LeaseLocked(s: State, l: Id) {
    exists t :: t in s.txns && HasFinal(s.txns[t]) && s.txns[t].auth.leaseId == l
  }

  // ---- Steps ---------------------------------------------------------------------------------

  ghost predicate EditAllowed(s: State, members: map<Id, Member>, connections: map<Id, Connection>,
                        integrations: map<Id, Integration>, gates: map<RowId, Gate>) {
    && (forall r :: r in gates <==>
          (match r
           case MemberRow(m) => m in members
           case ConnectionRow(c) => c in connections
           case IntegrationRow(i) => i in integrations))
    && (forall r :: r in gates ==> gates[r] == GateOf(s, r))
    && (forall m, n :: (m in members && n in members && members[m].organization == members[n].organization
                        && members[m].user == members[n].user) ==> m == n)
    && (forall m :: m in members && m in s.members ==>
          members[m].organization == s.members[m].organization && members[m].user == s.members[m].user)
    && s.connections.Keys <= connections.Keys
    && (forall c :: c in s.connections ==>
          connections[c].organization == s.connections[c].organization
          && s.connections[c].revision <= connections[c].revision)
    && s.integrations.Keys <= integrations.Keys
    && (forall i :: i in s.integrations ==> integrations[i].organization == s.integrations[i].organization)
    && (forall m :: m in s.members && RowLocked(s, MemberRow(m)) ==> m in members && members[m] == s.members[m])
    && (forall c :: c in s.connections && RowLocked(s, ConnectionRow(c)) ==> connections[c] == s.connections[c])
    && (forall i :: i in s.integrations && RowLocked(s, IntegrationRow(i)) ==> integrations[i] == s.integrations[i])
  }

  ghost predicate Enabled(s: State, a: Action) {
    match a
    case Tick(to) => s.now <= to
    case BeginClaim(t, target, id) => t !in s.txns && id !in s.used
    case SnapshotClaim(t) => t in s.txns && s.txns[t].Claiming? && s.txns[t].step.Started?
    case LockExclusive(t) =>
      && t in s.txns && s.txns[t].Claiming? && s.txns[t].step.Waiting?
      && forall u :: u in s.txns && u != t ==> !Holds(s.txns[u], KeyOf(s.txns[t].target))
    case WriteClaim(t) =>
      && t in s.txns && s.txns[t].Claiming? && s.txns[t].step.Locked? && !RowLocked(s, RowOf(s.txns[t].target))
    case CommitClaim(t) => t in s.txns && s.txns[t].Claiming? && s.txns[t].step.Written?
    case BeginRead(t, auth, purpose) =>
      && t !in s.txns
      && (purpose.Reserve? ==> auth.leaseId !in s.used && purpose.expiresAt == s.now + PENDING_LEASE_MS)
      && (purpose.Finalize? ==> purpose.credential.kind != Pending)
    case LockShared(t) =>
      && t in s.txns && s.txns[t].Reading? && s.txns[t].phase.Locking? && s.txns[t].phase.held < 3
      && forall u :: u in s.txns ==> !HoldsExclusive(s.txns[u], KeyAt(s.txns[t].auth, s.txns[t].phase.held))
    case Snapshot(t) => t in s.txns && s.txns[t].Reading? && s.txns[t].phase == Locking(3)
    case TrySlot(t) =>
      && t in s.txns && s.txns[t].Reading? && s.txns[t].phase.Offering?
      && s.txns[t].phase.offered != [] && s.txns[t].phase.inserted.None?
      && !SlotInFlight(s, s.txns[t].auth, s.txns[t].phase.offered[0])
    case WriteFinal(t) =>
      && t in s.txns && s.txns[t].Reading? && s.txns[t].purpose.Finalize? && s.txns[t].phase.Matched?
      && !LeaseLocked(s, s.txns[t].auth.leaseId)
    case CommitRead(t) =>
      && t in s.txns && s.txns[t].Reading?
      && (s.txns[t].phase.Answered?
          || (s.txns[t].phase.Offering? && (s.txns[t].phase.inserted.Some? || s.txns[t].phase.offered == [])))
    case Abort(t) => t in s.txns
    case Update(id, change) =>
      && id in s.claims && !RowLocked(s, RowOf(s.claims[id].target))
      && RowUpdatable(s, s.claims[id].target) && Owns(GateOf(s, RowOf(s.claims[id].target)), id)
      && (change.Renew? ==> change.newId !in s.used && s.claims[id].claim.claimedAt <= change.at <= s.now)
    case Edit(members, connections, integrations, gates) => EditAllowed(s, members, connections, integrations, gates)
    case Touch(l, after) =>
      && l in s.leases && !LeaseLocked(s, l) && SameLease(s.leases[l], after)
      && s.leases[l].credentialId == after.credentialId && s.leases[l].kind == after.kind
      && (Live(after) ==> Live(s.leases[l]))
    case BeginDrain(d, filter) => d !in s.drains
    case DrainMark(d, l) =>
      && d in s.drains && l in s.drains[d].todo && l in s.leases && !LeaseLocked(s, l)
      && !MustWait(s.drains[d].todo[l], s.now)
    case DrainDefer(d, l) => d in s.drains && l in s.drains[d].todo
  }

  function SetPhase(s: State, t: Id, p: ReadPhase): State
    requires t in s.txns && s.txns[t].Reading?
  {
    s.(txns := s.txns[t := s.txns[t].(phase := p)])
  }

  function SetStep(s: State, t: Id, p: ClaimPhase): State
    requires t in s.txns && s.txns[t].Claiming?
  {
    s.(txns := s.txns[t := s.txns[t].(step := p)])
  }

  /** The committed effect of a claim: the gate, its episode count, and the claim handed back. */
  function ClaimEffect(s: State, target: Target, id: Id, at: Time): State {
    var g := GateOf(s, RowOf(target));
    var bumped := if target.ConnectionTarget? && target.connection in s.connections && g.pendingAt.None?
                  then s.connections[target.connection := s.connections[target.connection].(revision := s.connections[target.connection].revision + 1)]
                  else s.connections;
    s.(gates := s.gates[RowOf(target) := Claimed(g, at, id)],
       connections := bumped,
       claims := s.claims[id := IssuedClaim(target, ParsedClaim(g, at, id))])
  }

  function ReadEffect(s: State, x: Txn): State
    requires x.Reading?
  {
    match x.purpose
    case Reserve(_) =>
      if HasInsert(x) then s.(leases := s.leases[x.auth.leaseId := InsertOf(x)]) else s
    case Finalize(c) =>
      if x.phase == Answered(true) && x.auth.leaseId in s.leases
      then s.(leases := s.leases[x.auth.leaseId :=
                s.leases[x.auth.leaseId].(credentialId := c.id, kind := c.kind, expiresAt := c.expiresAt)])
      else s
    case Deliver(_) => s
  }

  /** What a reading transaction tells its caller when it commits. */
  predicate Succeeds(x: Txn) {
    x.Reading? && (HasInsert(x) || (!x.purpose.Reserve? && x.phase == Answered(true)))
  }

  function SnapshotPhase(s: State, x: Txn): ReadPhase
    requires x.Reading?
  {
    var allowed := AuthorityHolds(s, x.auth);
    match x.purpose
    case Reserve(_) => Offering(allowed, if allowed then FreeSlots(s, x.auth) else [], None)
    case Finalize(c) => Matched(allowed && CanFinalize(s, x.auth, x.startedAt, c))
    case Deliver(c) => Answered(allowed && CanDeliver(s, x.auth, x.startedAt, c))
  }

  /** A renewal, too, has read its clock before its statement ran. */
  function Change1(g: Gate, change: Change): Gate {
    match change
    case Release => Released(g)
    case Clear => OPEN
    case Renew(id, at) => Renewed(g, at, id)
  }

  ghost function Apply(s: State, a: Action): State
    requires Enabled(s, a)
  {
    match a
    case Tick(to) => s.(now := to)
    case BeginClaim(t, target, id) =>
      s.(txns := s.txns[t := Claiming(target, id, s.now, false, Started)], used := s.used + {id})
    case SnapshotClaim(t) =>
      var x := s.txns[t];
      s.(txns := s.txns[t := x.(seen := CanClaim(s, x.target, x.at), step := Waiting)])
    case LockExclusive(t) => SetStep(s, t, Locked)
    case WriteClaim(t) =>
      var x := s.txns[t];
      SetStep(s, t, Written(x.seen && CanClaim(s, x.target, x.at)))
    case CommitClaim(t) =>
      var x := s.txns[t];
      (if x.step.hit then ClaimEffect(s, x.target, x.claimId, x.at) else s).(txns := s.txns - {t})
    case BeginRead(t, auth, purpose) =>
      s.(txns := s.txns[t := Reading(auth, purpose, s.now, Locking(0))],
         used := if purpose.Reserve? then s.used + {auth.leaseId} else s.used)
    case LockShared(t) => SetPhase(s, t, Locking(s.txns[t].phase.held + 1))
    case Snapshot(t) => SetPhase(s, t, SnapshotPhase(s, s.txns[t]))
    case TrySlot(t) =>
      var x := s.txns[t];
      var slot := x.phase.offered[0];
      SetPhase(s, t, x.phase.(offered := x.phase.offered[1..],
                              inserted := if SlotHeld(s, x.auth, slot) then None else Some(slot)))
    case WriteFinal(t) =>
      var x := s.txns[t];
      SetPhase(s, t, Answered(x.phase.seen && CanFinalize(s, x.auth, x.startedAt, x.purpose.credential)))
    case CommitRead(t) => ReadEffect(s, s.txns[t]).(txns := s.txns - {t})
    case Abort(t) => s.(txns := s.txns - {t})
    case Update(id, change) =>
      var c := s.claims[id];
      var r := RowOf(c.target);
      s.(gates := s.gates[r := Change1(GateOf(s, r), change)],
         claims := if change.Renew?
                   then s.claims[change.newId := IssuedClaim(c.target, c.claim.(claimId := change.newId, claimedAt := change.at))]
                   else s.claims,
         used := if change.Renew? then s.used + {change.newId} else s.used)
    case Edit(members, connections, integrations, gates) =>
      s.(members := members, connections := connections, integrations := integrations, gates := gates)
    case Touch(l, after) => s.(leases := s.leases[l := after])
    case BeginDrain(d, filter) =>
      s.(drains := s.drains[d := Drain(filter, map l | l in s.leases && Live(s.leases[l]) && Matches(filter, l, s.leases[l]) :: s.leases[l], 0, 0)])
    case DrainMark(d, l) =>
      var live := Live(s.leases[l]);
      s.(leases := if live then s.leases[l := s.leases[l].(revokedAt := Some(s.now), cleanupClaimedAt := None, cleanupNextAttemptAt := None)] else s.leases,
         drains := s.drains[d := s.drains[d].(todo := s.drains[d].todo - {l}, revoked := s.drains[d].revoked + (if live then 1 else 0))])
    case DrainDefer(d, l) =>
      s.(drains := s.drains[d := s.drains[d].(todo := s.drains[d].todo - {l}, deferred := s.drains[d].deferred + 1)])
  }

  ghost predicate Init(s: State) {
    && s.txns == map[] && s.drains == map[] && s.claims == map[] && s.leases == map[] && s.used == {}
    && EditAllowed(s.(members := map[], connections := map[], integrations := map[], gates := map[]),
                   s.members, s.connections, s.integrations, s.gates)
  }

  ghost predicate StepAt(ss: seq<State>, acts: seq<Action>, k: nat)
    requires k < |acts| && |ss| == |acts| + 1
  {
    Enabled(ss[k], acts[k]) && ss[k + 1] == Apply(ss[k], acts[k])
  }

  ghost predicate IsRun(ss: seq<State>, acts: seq<Action>) {
    && |ss| == |acts| + 1
    && Init(ss[0])
    && forall k: nat :: k < |acts| ==> StepAt(ss, acts, k)
  }
}
