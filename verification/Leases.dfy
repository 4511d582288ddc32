/** Rows of the credential lease table and the filters that select them. */
module Leases {
  import opened Wrappers
  import opened Gates

  datatype Provider = PlanetScale | Neon | GcpCloudSql

  datatype AccessMode = ReadAccess | WriteAccess

  datatype Kind = Pending | Role | Password | IamToken

  /** A reservation stores its own lease id; a Neon role name is a function of user and lease. */
  datatype CredentialId = OwnId(lease: Id) | NeonRole(user: Id, lease: Id) | External(id: Id)

  const SLOTS: int := 5
  const PENDING_LEASE_MS: int := 2 * 60 * 1000

  datatype Lease = Lease(
    organization: Id, connection: Id, integration: Id, user: Id,
    provider: Provider, accessMode: AccessMode,
    credentialId: CredentialId, kind: Kind, activeSlot: int, expiresAt: Time, revokedAt: Option<Time>,
    cleanupAttempts: nat, cleanupNextAttemptAt: Option<Time>, cleanupClaimedAt: Option<Time>)

  predicate Live(l: Lease) {
    l.revokedAt.None?
  }

  /** The columns no statement ever changes after the insert. */
  predicate SameLease(a: Lease, b: Lease) {
    && a.organization == b.organization && a.connection == b.connection
    && a.integration == b.integration && a.user == b.user
    && a.provider == b.provider && a.accessMode == b.accessMode && a.activeSlot == b.activeSlot
  }

  /** The unique index on live leases: organization, connection, user and slot. */
  predicate SameSlot(a: Lease, b: Lease) {
    && a.organization == b.organization && a.connection == b.connection
    && a.user == b.user && a.activeSlot == b.activeSlot
  }

  datatype LeaseFilter = LeaseFilter(
    organization: Id, leaseId: Option<Id>, user: Option<Id>, connection: Option<Id>, integration: Option<Id>)

  predicate Matches(f: LeaseFilter, id: Id, l: Lease) {
    && l.organization == f.organization
    && (f.leaseId.Some? ==> id == f.leaseId.value)
    && (f.user.Some? ==> l.user == f.user.value)
    && (f.connection.Some? ==> l.connection == f.connection.value)
    && (f.integration.Some? ==> l.integration == f.integration.value)
  }

  /** Reservations and unrevocable IAM tokens have to wait for their expiry. */
  predicate MustWait(l: Lease, now: Time) {
    now < l.expiresAt && (l.provider == GcpCloudSql || l.kind == Pending)
  }
}
