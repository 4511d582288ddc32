# DopeDB: verified models of its protocols and text formats

A Dafny 4.11 project that models the parts of DopeDB whose correctness is hard to see by reading one
function at a time, and proves what they are for. `dafny verify dfyconfig.toml` checks everything.

## What is modelled

**Revocation gates and managed leases** (workspace-cloud/lib). Members, connections and provider
integrations carry a revocation gate; leases may be issued only while all three gates are open.

- `Gates` is one gate row and its in-place updates.
- `GateProtocol` is the whole control plane as concurrent transactions. Claims, reservations,
  finalizations and deliverability checks are split into clock, lock, snapshot, write and commit; they
  interleave with each other, with drains, sweeps, gate updates and edits by other routes, and any of
  them can abort at any point. `GateSafety` and `LeaseSafety` hold the invariants, `GateTheorems` what
  follows from them: drains are complete, no lease crosses a gate, slots stay distinct, no deadlock.
- `Answers` says in terms of the rows' columns when a claim, reservation, finalization, deliverability check
  and gate update succeeds, over all runs of that protocol.
- `GateOwnership` says who owns a gate over all runs of that protocol, where a claim that takes over has
  read the clock before it waited for its lock.
- `ControlPlane` holds the same statements as calls on one mutable state.
- `Cleanup`, `CleanupRuns` and `CleanupFairness` are revocation of lease rows: the loop with its two
  counters, cleanup claims fenced by attempt counts over any number of workers and crashes, and the
  batch order. `SweepBatches` ties the batches to the sweeps of the protocol. `DrainLoop` ties that loop to
  the drains of the protocol, row by row and counter by counter. `NeonRoles` and `NeonNames` follow the database roles at Neon from request to cleanup;
  `NeonCleanup` proves that what they do to lease rows is a run of `CleanupRuns`.

Ids are opaque: only equality matters, and a new random id is one that was never used before. Time is a
number of milliseconds on one clock that does not run backwards.

**SQL text in the data grid** (src/lib). `SqlStatements` is the statement splitter as it runs, with the
functions it computes; `SplitterLaws` proves it against a character-by-character automaton. `SqlBuild`
holds the builders, `InertText` is the text that the splitter passes over, `BuilderSplitter` proves that
built statements are single statements to the splitter, `MySqlNames` says for which MySQL names,
`SqlReadBack` and `QueryReadBack` read built statements back by the SQL lexical rules,
`Paging` shows that pages fit together, and `Csv` parses the CSV export. Text is a sequence of
characters; every character the code tests for is the same in UTF-16.

**Control frames** (dopedb-protocol). `Json` checks the structural limits with an explicit stack and
compares that with a recursive walk; `Frame` is the bounded writer, the length prefix, and the encoder
and decoder; `Responses` is the response envelope. JSON text is given by the chunks a serializer writes
and by a parse function.

**Catalog snapshots** (dopedb-protocol). `Sorting` is comparators and stable sorting, `Catalog` the
canonical order and the fingerprint, `CatalogLaws` what they mean, and `CatalogOrder` spells out the order,
the refusals and the hexadecimal text. SHA-256 is an arbitrary function to 32 bytes. The JSON printer of each DTO is an arbitrary function that prints different values differently.

**Schema comparison** (src/lib). `SchemaDiff` is the comparison of two catalogs, `SchemaDiffLaws` what
its list of differences says, `SchemaNames` what its rendered keys and values tell apart, `SchemaDiffView`
the counts by status and the order of the table list.

## Where the code differs from its description

- `firstPending` compares two times, so it also holds for a later claim that falls into the opening
  millisecond of an episode (`GateOwnership.SameMillisecondBothFirst`); `FirstPendingMeaning` gives the
  exact condition.
- A claim's own time can lie before the pending time it hands out: it read the clock, waited for its lock,
  and another claim opened the episode meanwhile (`GateOwnership.ClaimCanPredateItsEpisode`).
- Neon cleanup finds a role in every continuation exactly if, when the provider commits the role, its lease
  row is live and no worker whose claim still stands has looked for the role in vain
  (`NeonRoles.RoleIsTrackedExactly`; a drain's look always stands, a sweep's until the row is claimed again,
  as `SupersededLookIsHarmless` shows). That holds while the issuer waits and the reservation has not expired
  (`TimelyRoleIsAwaited`). It fails for a role committed
  after the expired reservation was swept (`LateRoleIsLost`), and, however early, for one committed after the
  client has seen its call fail: the issuer then expires the reservation at once and a sweep takes the answer
  404 to mean that the role is gone (`FailedCallsRoleIsLost`).
- The splitter's comment names `$$` and `$tag$` as dollar quotes; the expression also accepts `$1$`. The
  model follows the expression.
- The splitter does not know MySQL backticks. A MySQL count query is one statement exactly if the name, read
  by the splitter, holds no cut (`MySqlNames.CountIsOneStatementExactly`), and every delete from a table is
  one statement exactly if the name also leaves no quote, dollar quote or comment open
  (`MySqlNames.SafeNamesExactly`). Every name without quotes, semicolons, dollars, `--` and `/*` is such a
  name (`InertText.PlainNameIsClosed`).
- The schema comparison lists of an added or missing table its kind alone: its columns, indexes and foreign
  keys are not listed (`SchemaDiffLaws.AddedTableHidesItsParts`), so applying the list rebuilds tables of
  both catalogs only.
- The schema comparison compares rendered names. A schema with a dot, a comma in an index column or a
  dot in a referenced name can make two different objects look alike, and then their difference is not listed
  (`SchemaNames.DottedSchemasClash`, `CommasClash`, `DotsAndArrowsClash`). For names without these characters
  nothing is hidden (`SchemaNames.NothingListedExactly`).
- `toCsv` gives one row of one empty cell the same text as no rows (`Csv.CsvReadsBack`).

## Model

| member | source | states |
|---|---|---|
| Gates.GateRow.Claim | workspace-cloud/lib/revocation-gates.ts:108-198 | A claim succeeds exactly when the gate is unclaimed or its claim is older than five minutes; it keeps the episode's start, takes ownership, and raises a connection's revision only when it opens the episode. |
| Gates.GateRow.Release | workspace-cloud/lib/revocation-gates.ts:200-262 | Only the owner releases; the gate stays pending and becomes claimable at once. |
| Gates.GateRow.Clear | workspace-cloud/lib/revocation-gates.ts:264-268 | Only the owner clears, and clearing leaves an open gate. |
| Gates.GateRow.Renew | workspace-cloud/lib/revocation-gates.ts:270-275 | Only the owner renews; ownership moves to the fresh claim id and the episode's start is kept. |
| GateOwnership.RunKeepsInv | workspace-cloud/lib/schema.ts:111-117 | In every interleaving of the claims, whose clock, snapshot, lock, write and commit are separate steps, each gate passes the claim-consistency check, its pending time is not in the future, it shows the times of the claim that owns it, and claim ids are used once. |
| GateOwnership.AtMostOneOwner | workspace-cloud/lib/revocation-gates.ts:200-249 | Of all claims ever handed out at most one can renew, release or clear a row; it was made for that row, and the row shows exactly its id and times. |
| GateOwnership.LostStaysLost | workspace-cloud/lib/revocation-gates.ts:131-134 | A claim that has lost ownership never regains it, whatever claims are in flight. |
| GateOwnership.TakeoverEndsOwnership | workspace-cloud/lib/revocation-gates.ts:111-139 | The owner loses its gate by exactly three kinds of steps: another claim's hit on the row, its own release, clear or renewal, and the row's deletion; a claim that hits read its clock more than five minutes after the owner's time. |
| GateOwnership.TakeoverExactly | workspace-cloud/lib/revocation-gates.ts:111-139 | A claim's statement hits an owned row exactly when its snapshot had the row, the row still matches, and the owner's time lies more than five minutes before the time the claim read before it waited. |
| GateOwnership.EpisodeKeepsItsStart | workspace-cloud/lib/revocation-gates.ts:123-126 | The first pending time survives re-claims, takeovers, renewals and releases until the owner clears or the row is deleted. |
| GateOwnership.EpisodeHasOpener | workspace-cloud/lib/revocation-gates.ts:117-139 | Every pending gate was opened by the commit of one claim that found it open, and shows the time that claim had read before it waited. |
| GateOwnership.FirstPendingMeaning | workspace-cloud/lib/revocation-gates.ts:97-105 | firstPending holds exactly for the claim that opens the episode or one that had read the opener's very time; if all claims that hit had read different times, exactly for the opener. |
| GateOwnership.SameMillisecondBothFirst | workspace-cloud/lib/revocation-gates.ts:102 | Two claims of one episode in one millisecond both carry the mark. |
| GateOwnership.ClaimCanPredateItsEpisode | workspace-cloud/lib/revocation-gates.ts:111-139 | A run in which a claim hits with a claim time before the pending time it hands out, and is not marked first. |
| GateSafety.OnlyClaimsOpenEpisodes | workspace-cloud/lib/revocation-gates.ts:108-198 | No step but the commit of a claim that hit can make a lock key pending, and only its own key. |
| GateSafety.RunKeepsInv | workspace-cloud/lib/revocation-gates.ts:339-360 | In every interleaving: one member row per user, consistent gates, exclusive keys held by one transaction only, and gates that a running transaction saw open stay open until it ends. |
| LeaseSafety.RunKeepsAll | workspace-cloud/lib/schema.ts:429-444 | In every interleaving live leases and uncommitted inserts hold distinct slots from 1 to 5, and rows being finalized are live and pending. |
| GateTheorems.ClaimMakesPending | workspace-cloud/lib/revocation-gates.ts:117-139 | A committed claim makes its lock key pending and owns the gate. |
| GateTheorems.PendingUntilCleared | workspace-cloud/lib/revocation-gates.ts:200-256 | No step ends a pending episode but its owner's clear or the removal of the member row. |
| GateTheorems.SuccessMeetsOpenGates | workspace-cloud/lib/revocation-gates.ts:310-360 | When a reservation, finalization or deliverability check commits with success, none of its three gates is pending at that moment: the shared locks make the check atomic. Which lease rows succeed is in Answers. |
| Answers.DeliveryAnswersExactly | workspace-cloud/lib/revocation-gates.ts:449-480 | Over all runs: a deliverability check commits with success exactly when, at its snapshot, the member, connection and integration rows were as the request says and the lease row was this authority's, held this credential's id, kind and expiry, was not pending, expired after the check began, and was not revoked. |
| Answers.RevokedIsNotDelivered | workspace-cloud/lib/revocation-gates.ts:474 | Once a lease is revoked, no check whose snapshot comes later succeeds. |
| Answers.FinalizationAnswersExactly | workspace-cloud/lib/revocation-gates.ts:417-447 | Over all runs: a finalization succeeds exactly when, at its snapshot, the three rows were as the request says and the reservation was live, unexpired and pending, and the reservation still was when the row was written. |
| Answers.ReservationAnswersExactly | workspace-cloud/lib/revocation-gates.ts:362-415 | Over all runs: a reservation is blocked exactly when the three rows were not as the request says at its snapshot; on success it takes the lowest slot from 1 to 5 that was free there and not taken since, as a pending lease of two minutes; it answers limit only if all five were taken. |
| Answers.ClaimAnswersExactly | workspace-cloud/lib/revocation-gates.ts:108-198 | Over all runs: a claim hits exactly when the target's row was there, in service, and unclaimed or claimed more than five minutes before the time the claim had read, both in its snapshot and when it holds the lock. |
| Answers.UpdatesExactly | workspace-cloud/lib/revocation-gates.ts:200-268 | A release or clear goes through exactly when no statement holds the row, it is still the target's, its revocation is pending and this claim's id is on it. |
| Answers.UpdateEffects | workspace-cloud/lib/revocation-gates.ts:200-275 | What goes through changes the three columns of that row alone: a release keeps the pending time, a clear does not, a renewal puts in the new id and time. |
| Answers.ClaimCommits | workspace-cloud/lib/revocation-gates.ts:108-198 | A claim that hit leaves its id, its time and the episode's pending time on its row, hands out the same, and raises the revision of a connection by one exactly if it opens its episode; it changes nothing else. |
| Answers.FiltersSelect | workspace-cloud/lib/provider-integrations.ts:738-755 | A drain's filter selects the leases of its organization that agree with every part that is given. |
| Answers.DrainsWorkTheirOwn | workspace-cloud/lib/provider-integrations.ts:738-775 | Over all runs: a drain reads exactly the live leases that its filter selects, and works no others. |
| Answers.DrainMarksExactly | workspace-cloud/lib/provider-integrations.ts:653-735 | A drain may mark exactly rows still on its list that no finalization has locked, but neither an IAM login nor a reservation that has not expired. |
| GateTheorems.DrainsSelectLockedKeys | workspace-cloud/lib/provider-integrations.ts:738-755 | A drain's filter selects a lease exactly when the drained key is one of the three keys the lease's authority locks. |
| GateTheorems.PendingGateAdmitsNothing | workspace-cloud/lib/revocation-gates.ts:310-447 | While a gate is pending no step adds, revives or finalizes a lease its drain selects. |
| GateTheorems.DrainCovers | workspace-cloud/lib/provider-integrations.ts:633-775 | While the gate stays pending and nothing is deferred, every live matching lease is still among the rows that the drain has read and not yet worked. |
| GateTheorems.DrainSafety | workspace-cloud/lib/provider-integrations.ts:633-775 | A drain begun under a pending gate that ends with deferred = 0 leaves no live matching lease, and none appears while the gate stays pending, over all interleavings. |
| GateTheorems.DrainSafeUntilCleared | workspace-cloud/lib/provider-integrations.ts:633-775 | The same with the gate's part in terms of steps: nothing live until some step clears the gate or deletes its row. |
| DrainLoop.LoopStepIsDrainStep | workspace-cloud/lib/provider-integrations.ts:653-735 | Working a row without a cleanup claim that no finalization has locked is exactly one step of the protocol's drain: same rows, same revoked and same deferred count. |
| DrainLoop.LoopWorksItsRows | workspace-cloud/lib/provider-integrations.ts:653-735 | In every run each row of the loop is worked as the loop's body does on the table it then finds, whatever other transactions have done in between. |
| DrainLoop.LoopCountsItsDrain | workspace-cloud/lib/provider-integrations.ts:633-735 | When the loop is through, its drain has nothing left to do and has deferred exactly the rows the loop deferred, whatever ran in between. |
| DrainLoop.RevokingActiveLeasesIsSafe | workspace-cloud/lib/provider-integrations.ts:738-775 | If the loop over the leases of a pending gate returns deferred = 0, no live lease under that gate exists until some step clears the gate, and of every lease it worked the credential is known to be gone. |
| GateTheorems.EpisodeRaisesRevisionOnce | workspace-cloud/lib/revocation-gates.ts:147-166 | From the step that opens an episode to the step that clears it, in every interleaving, exactly one commit of a claim raises the connection's revision: the opening, by one. |
| GateTheorems.NothingCrossesTheGate | workspace-cloud/lib/revocation-gates.ts:326-479 | After an episode has opened, no request made with a revision from before it is ever reserved, finalized or found deliverable, even after the gate is cleared. |
| GateTheorems.LiveSlotsDistinct | workspace-cloud/lib/schema.ts:429-444 | Live leases of one member on one connection hold distinct slots from 1 to 5 in every interleaving, although reservations offer slots from stale snapshots. |
| GateTheorems.NeverMoreThanFive | workspace-cloud/lib/revocation-gates.ts:374-402 | A member never has more than five live leases on a connection. |
| GateTheorems.NoDeadlock | workspace-cloud/lib/revocation-gates.ts:339-360 | As long as a transaction is in flight, some transaction can take its next step: waits for locks, inserts and rows form no cycle. |
| ControlPlane.FirstOfferIsLowest | workspace-cloud/lib/revocation-gates.ts:374-388 | The first offered slot is the lowest free one, and nothing is offered exactly when all five are held. |
| ControlPlane.Database.ClaimGate | workspace-cloud/lib/revocation-gates.ts:108-198 | The uninterrupted claim has exactly the effect the protocol's claim commits, for all three kinds of target. |
| ControlPlane.Database.ReserveLease | workspace-cloud/lib/revocation-gates.ts:362-415 | One insert offers every free slot under one id, and at most one row goes in; it takes the lowest free slot; "limit" means authority and five held slots, "blocked" means no authority. |
| ControlPlane.Database.FinalizeLease | workspace-cloud/lib/revocation-gates.ts:417-447 | Finalizing succeeds exactly under authority on a live, unexpired pending row; a finalized lease is deliverable. |
| ControlPlane.UndisturbedReservation | workspace-cloud/lib/revocation-gates.ts:366-409 | Run alone, the protocol's reservation commits exactly the row with the lowest free slot. |
| Cleanup.DelayIgnoresClamp | workspace-cloud/lib/provider-integrations.ts:99-107 | The exponent clamp never shows: the delay is the doubling sequence cut off at one hour. |
| Cleanup.DelayMonotoneAndBounded | workspace-cloud/lib/provider-integrations.ts:95-107 | The delay grows with the attempt and stays between one minute and one hour. |
| Cleanup.LeaseTable.Mark | workspace-cloud/lib/provider-integrations.ts:588-611 | A mark hits exactly a live row whose claim, if any, is still the one on the row; after an unfenced mark the row is revoked. |
| Cleanup.LeaseTable.Reschedule | workspace-cloud/lib/provider-integrations.ts:613-631 | A retry is scheduled exactly under the claim still on the row and frees the claim; the stored time lies 60 seconds times two to the number of earlier attempts ahead, at most one hour. |
| Cleanup.LeaseTable.RevokeLeaseRows | workspace-cloud/lib/provider-integrations.ts:633-736 | The loop works the rows one by one; for distinct rows, a row turns revoked exactly when its claim stands and its credential is known to be gone (the provider said done or not found, or it is an expired IAM login or an expired PlanetScale reservation), every other row keeps its revocation as it was, and deferred counts exactly the rows whose credential is not known to be gone, but for those that a sweep no longer holds. |
| Cleanup.JudgeMeans | workspace-cloud/lib/provider-integrations.ts:657-735 | A row is retired exactly when its credential is known to be gone, and waits exactly when it has not expired and cannot be revoked before; spelled for every provider, kind and answer. |
| Cleanup.WorkMeans | workspace-cloud/lib/provider-integrations.ts:633-736 | Working a list of distinct rows retires exactly those whose credential is known to be gone and whose claim stands; a failed revocation leaves its row live and is counted. |
| Cleanup.WorkOnlyRetires | workspace-cloud/lib/provider-integrations.ts:633-736 | Working rows adds none, revives none, changes no identity and no attempt count, and leaves revoked rows untouched. |
| Cleanup.RevokedCountsMovedRows | workspace-cloud/lib/provider-integrations.ts:722-735 | The revoked count is the number of rows the call moved from live to revoked. |
| Cleanup.DrainAccountsForEveryRow | workspace-cloud/lib/provider-integrations.ts:657-735 | A drain without cleanup claims defers or revokes every row: deferred = 0 means none of its rows is live. |
| CleanupRuns.OneWorkerPasses | workspace-cloud/lib/provider-integrations.ts:592-600 | At any moment at most one sweeping worker passes the fence of a row; which rows it may have claimed is in SweepClaimsExactly. |
| CleanupRuns.SweepClaimsExactly | workspace-cloud/lib/provider-integrations.ts:814-850 | A sweep may claim exactly rows that are live, have expired, are due for an attempt, and are unclaimed or were claimed more than two minutes ago. |
| CleanupRuns.SweptRowHadExpired | workspace-cloud/lib/provider-integrations.ts:838-850 | Over all runs: a row that a sweep's mark retires had expired, and was live and due, when that sweep claimed it under that attempt. |
| CleanupRuns.WorkerStepIsLoopStep | workspace-cloud/lib/provider-integrations.ts:653-735 | Working a row that a worker still has is exactly one step of the loop: same rows, same revoked and same deferred count. |
| CleanupRuns.SupersededIsPowerless | workspace-cloud/lib/provider-integrations.ts:588-631 | Once a row is claimed again, the earlier attempt's mark or reschedule changes no row and no counter. |
| CleanupRuns.RevokedStaysRevoked | workspace-cloud/lib/provider-integrations.ts:588-611 | A revoked row never becomes live again, over all runs. |
| CleanupRuns.RevokedCountsAddUp | workspace-cloud/lib/provider-integrations.ts:633-736 | With any number of workers, crashes and takeovers, the sum of the revoked counts is the number of rows those calls moved. |
| CleanupRuns.RowMovesOnce | workspace-cloud/lib/provider-integrations.ts:588-611 | No row is moved twice. |
| CleanupFairness.BatchExists | workspace-cloud/lib/provider-integrations.ts:802-860 | For every limit the order defines a batch. |
| CleanupFairness.SharesDifferByOne | workspace-cloud/lib/provider-integrations.ts:803-860 | A batch never takes a lease while leaving one with fewer attempts; with equal attempts, two tenants' shares differ by more than one only if the smaller tenant ran out. |
| CleanupFairness.BatchesTakeInOrder | workspace-cloud/lib/provider-integrations.ts:809-860 | Of one tenant a batch takes the leases by attempts, then by the time they became ready, then by expiry, then by id; between tenants with equal attempts and equal places it takes the one ready first. |
| SweepBatches.BatchesAreSweeps | workspace-cloud/lib/provider-integrations.ts:803-860 | The candidates of a sweep are exactly the leases that the protocol's sweep may claim, so every batch is a sweep of the protocol and every sweep takes candidates only. |
| NeonRoles.RoleIsTrackedExactly | workspace-cloud/lib/provider-integrations.ts:470-631 | A role the provider commits, during the call, after a crash or after a failed call, is found by cleanup whenever it is alive in every continuation, exactly if at that moment its row is live and no worker whose claim still stands has looked for it in vain. |
| NeonRoles.EveryRoleIsTracked | workspace-cloud/lib/provider-integrations.ts:470-553 | If every role was committed to a row that awaited it, every role alive at the provider has a live lease row from which a cleanup derives that role's name, through failed calls, finalizations that fail or commit unseen, failed best-effort revocation, retries, takeovers and crashes. |
| NeonRoles.UnawaitedRoleCanBeLost | workspace-cloud/lib/provider-integrations.ts:588-716 | If the row did not await the role, some continuation at most one step on has the role alive and nothing that leads to it: that step is the mark of a worker that passes the row's fence. |
| NeonRoles.TimelyRoleIsAwaited | workspace-cloud/lib/revocation-gates.ts:24 | A role committed while its issuer still waits and before its reservation expires is awaited by its row. |
| NeonRoles.DropHitsOwnRole | workspace-cloud/lib/provider-integrations.ts:679-716 | A cleanup never drops a role that belongs to another lease, timely or not. |
| NeonRoles.LateRoleIsLost | workspace-cloud/lib/revocation-gates.ts:24 | A run in which a role is committed after its expired reservation was swept and stays behind with no row to find it. |
| NeonRoles.FailedCallsRoleIsLost | workspace-cloud/lib/provider-integrations.ts:522-530 | A run, all at time 0, in which the call fails, the issuer expires the reservation, a sweep retires it and the role appears then: it is lost although the two minutes are not over. |
| NeonRoles.SupersededLookIsHarmless | workspace-cloud/lib/provider-integrations.ts:588-611 | A run in which a sweep looks in vain and stalls, its row is claimed again, and the role committed then is tracked in every continuation. |
| NeonCleanup.StepAgrees | workspace-cloud/lib/provider-integrations.ts:588-860 | Every step of the issuers, drains and sweeps of NeonRoles is one step of the cleanup protocol on the same lease rows, or none. |
| NeonCleanup.RunIsCleanupRun | workspace-cloud/lib/provider-integrations.ts:470-860 | Every state of every run of NeonRoles has the lease rows, clock and claims of a state that the cleanup protocol reaches. |
| NeonCleanup.OneSweepPasses | workspace-cloud/lib/provider-integrations.ts:592-600 | So in every run with roles, too, at most one sweep passes the fence of a row. |
| NeonNames.RoleNamesAreUnique | workspace-cloud/lib/providers/neon-core.ts:213-221 | Two leases never share a role name, whoever their users are. |
| NeonNames.RoleNameParts | workspace-cloud/lib/providers/neon-core.ts:213-221 | A role name is the prefix, the first eight letters and digits of the user id, an underscore and the 32 digits of the lease id; it is refused exactly if the user id has no letter or digit. |
| NeonNames.SqueezeOneExactly | workspace-cloud/lib/providers/neon-core.ts:213-221 | Capitals become small letters, small letters and digits stay, every other character goes. |
| NeonNames.IssuedNamesAreRevocable | workspace-cloud/lib/providers/neon.ts:689-703 | Every issued role name passes the pattern that revocation insists on. |
| SqlStatements.SplitStatements | src/lib/sqlStatements.ts:25-70 | The scanner computes the pieces its token jumps define, trimmed, without comment-only pieces; it ends on every input, unclosed quotes and comments included. |
| SqlStatements.SkipQuoted | src/lib/sqlStatements.ts:32-44 | The inner loop stops where some text with its quotes doubled fills what it skipped and a closing quote that is not doubled follows, or at the end of the text. |
| SqlStatements.SkipBlock | src/lib/sqlStatements.ts:47-50 | A block comment ends just behind its first closer, or with the text if it has none. |
| SqlStatements.QuoteEndExactly | src/lib/sqlStatements.ts:32-44 | There is exactly one such place for a quoted text, and the scanner goes there. |
| SqlStatements.BlockEndExactly | src/lib/sqlStatements.ts:47-50 | There is exactly one such place for a block comment, and the scanner goes there. |
| SqlStatements.DollarTagExactly | src/lib/sqlStatements.ts:13-16 | An opener is recognized exactly where a dollar, then letters, digits and underscores, then a dollar stand, and it is the whole of it. |
| SqlStatements.BlockIsStripped | src/lib/sqlStatements.ts:7-11 | A closed block comment becomes one blank; the text before it stays and the rest is treated the same. |
| SqlStatements.LineIsStripped | src/lib/sqlStatements.ts:7-11 | A line comment becomes one blank up to its line break; the text before it stays and the rest is treated the same. |
| SqlStatements.NotesAreDropped | src/lib/sqlStatements.ts:18-21 | A line comment alone is dropped; followed by a line with anything in it the piece is kept. |
| SplitterLaws.ScannerMatchesAutomaton | src/lib/sqlStatements.ts:25-70 | Cuts fall exactly on the semicolons that a character-by-character automaton sees outside quotes, dollar quotes and comments. |
| SplitterLaws.SegmentsJoinBack | src/lib/sqlStatements.ts:60-68 | The raw segments joined by semicolons are the input. |
| SplitterLaws.Locality | src/lib/sqlStatements.ts:25-70 | A piece that starts in plain text is read inside the whole exactly as it is read alone. |
| SplitterLaws.StatementSplitsToItself | src/lib/sqlStatements.ts:18-70 | Splitting any returned statement returns just that statement. |
| SplitterLaws.RejoinedSplitsBack | src/lib/sqlStatements.ts:18-70 | Splitting the returned list joined by newline, semicolon, newline returns the same list. |
| SqlBuild.BuildWhere | src/lib/sqlBuild.ts:91-102 | The loop joins the conditions of the boxes that are not blank, in column order. |
| BuilderSplitter.CountQueryIsOneStatement | src/lib/sqlBuild.ts:145-152 | A count query over arbitrary names and filters splits into exactly itself, for MySQL if the splitter can read its names. |
| BuilderSplitter.PageQueryIsOneStatement | src/lib/sqlBuild.ts:130-143 | A page query over arbitrary names, filters and sort splits into exactly itself, for MySQL if the splitter can read its names. |
| BuilderSplitter.InsertIsOneStatement | src/lib/sqlBuild.ts:161-167 | An INSERT over arbitrary names and cells splits into exactly itself, for MySQL if the splitter can read its names. |
| BuilderSplitter.UpdateIsOneStatement | src/lib/sqlBuild.ts:169-182 | An UPDATE over arbitrary names and cells splits into exactly itself, for MySQL if the splitter can read its names. |
| BuilderSplitter.DeleteIsOneStatement | src/lib/sqlBuild.ts:184-190 | A DELETE over arbitrary names and cells splits into exactly itself, for MySQL if the splitter can read its names. |
| MySqlNames.CountIsOneStatementExactly | src/lib/sqlBuild.ts:145-152 | For every name, the count query of a MySQL table is one statement exactly if the name as it stands between its backticks holds no cut. |
| MySqlNames.SafeNamesExactly | src/lib/sqlBuild.ts:184-190 | For every name, all deletes from a MySQL table are one statement each exactly if the name holds no cut and leaves nothing open. |
| MySqlNames.BacktickNamesCanBeCut | src/lib/tableRef.ts:4-7 | A readable name with a semicolon put behind it is cut. |
| InertText.PlainNameIsClosed | src/lib/sqlStatements.ts:25-70 | A name without quotes, semicolons, dollars, two hyphens in a row and a slash before an asterisk is read by the splitter without a cut and with nothing left open. |
| SqlReadBack.DoubledReadsBack | src/lib/tableRef.ts:4-7 | A quoted name or text reads back to its value whatever follows its closing quote. |
| SqlReadBack.MySqlTextReadsBack | src/lib/sqlBuild.ts:15-20 | A MySQL text reads back under backslash escapes. |
| SqlReadBack.RefReadsBack | src/lib/tableRef.ts:9-13 | A table reference reads back to the name with the schema if the engine is Postgres and the schema is given and not empty, and to the name alone in every other case. |
| SqlReadBack.NumbersExactly | src/lib/sqlBuild.ts:32-41 | The texts that a numeric column prints bare are exactly an optional minus sign, digits, an optional fraction and an optional exponent. |
| SqlReadBack.SetPairsMean | src/lib/sqlBuild.ts:155-182 | The assignments are the columns that a cell is given for, in column order, each with the meaning of its cell. |
| SqlReadBack.KeyPairsMean | src/lib/sqlBuild.ts:169-190 | The key conditions are the given keys in order, each with the meaning of its cell under its column's type. |
| SqlReadBack.ValueReadsBack | src/lib/sqlBuild.ts:32-41 | A value reads back to NULL, to the trimmed number, or to the exact text, as its column and text call for; NumbersExactly says which texts are numbers. |
| SqlReadBack.InsertReadsBack | src/lib/sqlBuild.ts:161-167 | An INSERT reads back to its table, and to the names and the meanings of the cells given, in column order, for every engine. |
| SqlReadBack.UpdateReadsBack | src/lib/sqlBuild.ts:155-182 | An UPDATE reads back to its table, its assignments in column order and its key conditions in the order of the keys given. |
| SqlReadBack.DeleteReadsBack | src/lib/sqlBuild.ts:184-190 | A DELETE reads back to its table and its key conditions in the order of the keys given. |
| SqlReadBack.RefusedExactly | src/lib/sqlBuild.ts:161-190 | A write is refused exactly when it names no column, no key or no change. |
| QueryReadBack.ClauseReadsBack | src/lib/sqlBuild.ts:77-89 | A filter box that is not blank reads back as IS NULL, IS NOT NULL, an equality with its typed value, or a text search, and a blank one gives no condition. |
| QueryReadBack.NullWords | src/lib/sqlBuild.ts:77-89 | The two null tests are the words NULL and NOT NULL in any case. |
| QueryReadBack.CountQueryReadsBack | src/lib/sqlBuild.ts:145-152 | A count query reads back to its table and the conditions of its boxes. |
| QueryReadBack.PageQueryReadsBack | src/lib/sqlBuild.ts:130-143 | A page query reads back to its table, its conditions, its ordering keys and its non-negative limit and offset. |
| Paging.OrderByReadsBack | src/lib/sqlBuild.ts:112-124 | The ORDER BY clause lists exactly the sort key and the remaining key columns, or the default order, and is empty only without columns. |
| Paging.KeysCoverPrimaryKey | src/lib/sqlBuild.ts:104-124 | Every column marked as primary key is an ordering key, whatever the sort. |
| Paging.OrderKeysMean | src/lib/sqlBuild.ts:104-124 | The ordering keys that the clause prints are those defined from the columns alone: the sort key and then the other key columns, or without a sort the key columns, or all columns if there is no key. |
| Paging.OrderIsDetermined | src/lib/sqlBuild.ts:104-124 | Keys that tell the rows apart leave only one order to produce them in. |
| Paging.PagesFitTogether | src/lib/queries.ts:393-418 | With unique primary keys the pages at offsets 0, n, 2n, ... concatenate to the filtered rows, none repeated or skipped, as many as counted, although every page breaks ties as it likes. |
| Paging.PagesFitExactly | src/lib/queries.ts:393-418 | Pages of every size show every filtered row exactly as often as it is there, whatever order each page query is answered in, if and only if the ordering keys tell the filtered rows apart. |
| Paging.TiesBreakPaging | src/lib/sqlBuild.ts:117-123 | Two different neighbours that tie are enough: with one page answered the other way round the first is shown twice and the second never. |
| Csv.CsvReadsBack | src/lib/sqlBuild.ts:195-205 | Parsing the export by RFC 4180 gives back the header and every cell text exactly unless the rows are one row of one empty cell, which read back as no rows. |
| Csv.CsvReadsBackWithoutEndingBreak | src/lib/sqlBuild.ts:201-205 | A parser that takes an ending line break as no record needs exactly that the last row is not a single empty cell. |
| Json.ValidateJsonLimits | dopedb-protocol/src/frame.rs:160-192 | The explicit stack returns the first error of the recursive preorder walk, object keys checked from the last before any child, and takes at most one value more from the stack than the budget allows. |
| Json.PushedWalk | dopedb-protocol/src/frame.rs:178-188 | Children pushed in reverse are walked in order before the rest of the stack. |
| Json.LimitsMeaning | dopedb-protocol/src/frame.rs:160-215 | A value is accepted exactly when its depth, its number of values and all its strings, keys and collections are within the limits. |
| Json.Utf8LengthCounts | dopedb-protocol/src/frame.rs:205-215 | The length that is compared with 262,144 is the number of bytes of the text in UTF-8. |
| Json.LimitErrors | dopedb-protocol/src/frame.rs:160-215 | A refused value gets an error about a limit, and a reported size exceeds its limit. |
| Json.ChildrenWithin | dopedb-protocol/src/frame.rs:160-192 | Whatever is inside an accepted value is accepted on its own. |
| Frame.BoundedWriter.Write | dopedb-protocol/src/frame.rs:143-153 | A chunk is taken whole, or up to the limit with the overflow flag set. |
| Frame.WriteAll | dopedb-protocol/src/frame.rs:129-158 | Content and overflow depend only on the bytes in total, not on how they are cut into chunks. |
| Frame.PrefixReadsBack | dopedb-protocol/src/frame.rs:41-45 | Length and four-byte prefix determine each other. |
| Frame.PrefixIsBigEndian | dopedb-protocol/src/frame.rs:41-45 | The first byte of the prefix is the most significant. |
| Frame.EncodeFrame | dopedb-protocol/src/frame.rs:59-94 | The encoder with its writer returns the frame, or the first refusal, of the payload in total. |
| Frame.EncodesExactly | dopedb-protocol/src/frame.rs:59-94 | Encoding succeeds exactly for a payload that passes the preflight, is not empty, fits limit and prefix, and whose JSON is within the limits. |
| Frame.FrameReadsBack | dopedb-protocol/src/frame.rs:98-114 | Whatever is encoded decodes at the same limit to the same value, and the prefix is the payload length. |
| Frame.DecodesExactly | dopedb-protocol/src/frame.rs:98-114 | Decoding succeeds exactly for a frame whose prefix counts the rest within the limit and whose JSON is within the limits and well shaped. |
| Frame.DecodeRefusals | dopedb-protocol/src/frame.rs:96-114 | Which error refuses a frame, in order: no prefix, length zero, over the limit, other than the rest, JSON that does not parse, a limit, the shape. |
| Frame.StreamReadsBack | dopedb-protocol/src/frame.rs:96-108 | Frames written one after the other are told apart by their prefixes alone. |
| Responses.ResponseReadsBack | dopedb-protocol/src/response.rs:98-132 | Every envelope a constructor can make reads back, a null result included. |
| Responses.ConstructorsMakeExactly | dopedb-protocol/src/response.rs:25-43 | The well-made envelopes are exactly the results of the two constructors, for a 16-bit version and an error made from its code. |
| Responses.AcceptsExactly | dopedb-protocol/src/response.rs:98-132 | Deserialization accepts exactly known, well-typed fields with a result and no error when ok, and a valid error and no result, not even null, when not; what it accepts carries the stable message of its code. |
| Responses.ErrorReadsBack | dopedb-protocol/src/error.rs:67-81 | A protocol error with the message of its code reads back. |
| Responses.ErrorsExactly | dopedb-protocol/src/error.rs:60-81 | An error is read exactly from an object of a known code, the very message of that code and a flag, with no other field. |
| Responses.PreflightMeans | dopedb-protocol/src/frame.rs:249-258 | The check before serialization passes exactly when the result is within the limits and the message is not too long. |
| Responses.PreflightIsImplied | dopedb-protocol/src/frame.rs:249-258 | The check before serialization refuses nothing that the check of the whole payload accepts. |
| Responses.ResponseCrossesFrame | dopedb-protocol/src/frame.rs:59-114 | An envelope is framed exactly when its text fits and its JSON is within the limits, and its frame decodes to it. |
| Sorting.SortIsCanonical | dopedb-protocol/src/catalog.rs:286-325 | Under a linear order sorting picks one representative for every multiset. |
| Sorting.SortedIsFixed | dopedb-protocol/src/catalog.rs:286-325 | Stable sorting leaves a sorted sequence exactly as it is. |
| Catalog.CatalogContents.Canonicalize | dopedb-protocol/src/catalog.rs:286-325 | Sorting in place, relation by relation and then the four collections, gives the canonical contents. |
| Catalog.LowerHex | dopedb-protocol/src/catalog.rs:276-284 | The loop writes two digits per byte, high half first. |
| CatalogLaws.RefOrder | dopedb-protocol/src/catalog.rs:335-350 | Object references are linearly ordered and tie only when equal. |
| CatalogLaws.ColumnOrder | dopedb-protocol/src/catalog.rs:292-296 | Columns are linearly ordered: a tie on ordinal, name and text means equal columns. |
| CatalogLaws.PayloadIsShape | dopedb-protocol/src/catalog.rs:291-310 | Two relations have the same canonical payload exactly when they agree up to the order of their columns, constraints, indexes and partition children and up to row estimates. |
| CatalogLaws.PayloadIsSchema | dopedb-protocol/src/catalog.rs:244-325 | Two catalogs have the same canonical payload exactly when engine and schema, taken as multisets, are the same. |
| CatalogLaws.FingerprintIsSchema | dopedb-protocol/src/catalog.rs:256-325 | Two fingerprints are equal exactly when engine and schema are the same or the digest collides on the two payloads. |
| CatalogLaws.DigestsAreFingerprints | dopedb-protocol/src/catalog.rs:212-218 | The hexadecimal text of any 32-byte digest is a valid fingerprint. |
| CatalogLaws.HexTellsBytes | dopedb-protocol/src/catalog.rs:276-284 | Different bytes have different hexadecimal texts. |
| CatalogOrder.HexReadsBack | dopedb-protocol/src/catalog.rs:276-284 | Digits 2i and 2i + 1, read as a number in base 16, are byte i. |
| CatalogOrder.CanonicalOrder | dopedb-protocol/src/catalog.rs:286-370 | Canonical contents stand in order: namespaces by name and comment, references by catalog, namespace, name, kind and native id, columns by ordinal and name, constraints by kind and name, indexes by name. |
| CatalogOrder.RefusalsExactly | dopedb-protocol/src/catalog.rs:87-136 | Which error refuses a snapshot: on the wire any schema version but 2, then a blank database name, then a fingerprint that is not 64 small hexadecimal digits, then one that is not the digest. |
| CatalogLaws.CanonicalIsIdempotent | dopedb-protocol/src/catalog.rs:286-325 | Canonical contents are a fixed point, row estimates included. |
| CatalogLaws.CaptureIsSound | dopedb-protocol/src/catalog.rs:65-85 | Capturing succeeds exactly for a database name that is not blank, and its snapshot validates and is canonical. |
| CatalogLaws.NewAcceptsCapturedFingerprint | dopedb-protocol/src/catalog.rs:87-136 | A fingerprint from elsewhere is accepted exactly when it is the one capturing gives. |
| CatalogLaws.WireIsFaithful | dopedb-protocol/src/catalog.rs:393-419 | Every deserialized snapshot validates and is canonical, and a serialized snapshot deserializes to itself. |
| CatalogLaws.PermutedWiresAgree | dopedb-protocol/src/catalog.rs:393-419 | Wire forms that say the same schema in different orders are both refused or both let in with the same schema content. |
| SchemaDiff.AppendNamedObjectDiffs | src/lib/schemaDiff.ts:322-342 | Appends the differences of two keyed maps: added and changed in the order of the first, missing in the order of the second. |
| SchemaDiff.GroupForeignKeysByColumn | src/lib/schemaDiff.ts:390-401 | Groups the shown foreign keys by column in order of first appearance, each group sorted. |
| SchemaDiff.UnmatchedValues | src/lib/schemaDiff.ts:403-411 | What is left of the source is the multiset difference. |
| SchemaDiff.AppendForeignKeyDiffs | src/lib/schemaDiff.ts:344-388 | Appends one change for a column with one key on each side, else the unmatched keys of both sides. |
| SchemaDiff.DiffTable | src/lib/schemaDiff.ts:269-320 | Lists the differences of two tables; the three column lists are the names of the listed column differences, and relationChanged says whether an index or foreign key is listed. |
| SchemaDiff.CompareCatalogs | src/lib/schemaDiff.ts:126-187 | Counters equal the counts of matching listed objects, the table lists and the map hold exactly the tables with differences, total is the number of objects, and display sorting only reorders. |
| SchemaDiffLaws.ListedWhereFound | src/lib/schemaDiff.ts:126-187 | A difference is listed exactly as often as it is found under its own table, part and name. |
| SchemaDiffLaws.SignatureMeaning | src/lib/schemaDiff.ts:457-463 | Signatures are equal exactly when types agree up to case and surrounding blanks and both flags agree. |
| SchemaDiffLaws.TotalIsZeroExactly | src/lib/schemaDiff.ts:126-187 | The total is zero exactly when table keys, kinds, column signatures, index values and per-column multisets of shown foreign keys agree; SchemaNames says what these values tell apart. |
| SchemaNames.NothingListedExactly | src/lib/schemaDiff.ts:126-187 | For names that rendering keeps apart, nothing is listed exactly when every table of either catalog is in both with the same kind, the same columns up to case and surrounding blanks of types, the same indexes and the same foreign keys themselves, each as often. |
| SchemaNames.ForeignKeyMeaning | src/lib/schemaDiff.ts:475-478 | Two foreign keys have the same value exactly when column, referenced schema (empty as none), table and column agree, for a column without the arrow and referenced names without dots. |
| SchemaNames.KeysThemselves | src/lib/schemaDiff.ts:344-401 | The shown keys of every column agree exactly when the foreign keys themselves do, each as often. |
| SchemaNames.DotsAndArrowsClash | src/lib/schemaDiff.ts:475-478 | With a dot in a referenced name, or an arrow in the column, two different foreign keys have the same value. |
| SchemaNames.IndexValueMeaning | src/lib/schemaDiff.ts:471-473 | Two indexes have the same value exactly when uniqueness and column list agree, for column names that are not empty and hold no comma. |
| SchemaNames.CommasClash | src/lib/schemaDiff.ts:471-473 | With a comma in a column name, or an empty name, two different indexes have the same value. |
| SchemaNames.ColumnValueMeaning | src/lib/schemaDiff.ts:465-469 | Two shown columns are the same text exactly when type and flags agree, for types without the middle dot. |
| SchemaNames.TableKeyMeaning | src/lib/tableRef.ts:21-23 | Table keys agree exactly when schema (none as empty) and name agree, for schemas without a dot. |
| SchemaNames.DottedSchemasClash | src/lib/tableRef.ts:21-23 | With a dot in a schema two different tables share a key. |
| SchemaDiffLaws.SwappingFlips | src/lib/schemaDiff.ts:126-187 | Swapping the catalogs swaps added and missing, keeps changed, swaps the shown values, and does nothing else. |
| SchemaDiffLaws.ApplyingGivesKinds | src/lib/schemaDiff.ts:145-178 | Applied to the baseline, the listed objects give the target's tables and kinds. |
| SchemaDiffLaws.ApplyingGivesTarget | src/lib/schemaDiff.ts:269-342 | Applied to a table of both catalogs they give the target's indexes, and its columns up to type case and surrounding blanks. |
| SchemaDiffLaws.ApplyingGivesForeignKeys | src/lib/schemaDiff.ts:344-388 | And the target's foreign keys of every column, each as often. |
| SchemaDiffLaws.AddedTableHidesItsParts | src/lib/schemaDiff.ts:145-178 | The list is the same whatever columns, indexes and foreign keys an added table has. |
| SchemaDiffView.CountsAddUp | src/lib/schemaDiff.ts:206-212 | The added, missing and changed counts of the listed objects add up to the total, and each is the tables and columns counted during comparison, or the changed kinds and columns, plus the listed indexes and foreign keys. |
| SchemaDiffView.OrderSeparates | src/lib/schemaDiff.ts:189-227 | Tables with differences come first and both groups keep their order. |
| SchemaDiffView.ToneMeans | src/lib/schemaDiff.ts:189-204 | A table of both catalogs is mixed exactly when two of its differences have different statuses; otherwise it has the tone of them all, and none without differences. |
| SchemaDiffView.ShownInOrder | src/lib/schemaDiff.ts:174 | For an ordered collation the list is shown by path and then by type. |

## Left out

- Provider calls, token refresh, encryption, HTTP and OIDC: a provider is a set of live roles whose calls succeed, fail or answer 404.
- PostgreSQL beyond shared and exclusive transaction locks, statement snapshots, unique-index conflicts, row locks and skip-locked: hash collisions of lock keys, joins and SQL syntax are not modelled.
- Clock skew between servers; hard deletes and their cascades, except that member rows can be removed; legacy revoked lease rows without a slot.
- Routes that edit members, connections and integrations: one step that changes rows within what the constraints and row locks allow.
- GateTheorems.PendingUntilCleared: removing a member row ends its episode, as the row's columns go with it; the removal route's own order of steps is not modelled.
- Rows locked by other transactions during a sweep's claim: the fairness statements are about sweeps that skip nothing.
- The `isNumericType` expression and `cellToInput`: a column says whether it is numeric, a cell is NULL or text. Limits and offsets are integers below the range where JavaScript prints an exponent; inherited object properties are not modelled.
- BuilderSplitter.PageQueryIsOneStatement: for MySQL each name must be closed on its own, which is exact for a single name over all values; several names that leave quotes open can still pair up by chance. The other builders likewise.
- Reading built queries back stops at the SQL these builders print; it is not a SQL parser.
- JSON printing and parsing, SHA-256, UUID and timestamp text: functions the model is given.
- RequestEnvelope: its preflight enters the frame theorems as an arbitrary check; its fields are not modelled.
- Serializers that fail for a reason other than overflow: the payload types here have none.
- Catalog.CatalogContents.Canonicalize: the standard library's sort is modelled as a stable insertion sort; collections are sequences that are replaced, so aliasing is not modelled.
- Ids and labels of schema differences: display only. Collation is a function the model is given. Map iteration order is kept; comparing texts by code point instead of UTF-16 unit can only reorder equal-multiset groups.
- `buildConnectionSections` and the schema-group helpers around it: grouping of connection profiles for display.
- React screens, i18n, Tauri and CLI wiring, keychain, role ranks, error-code maps, version negotiation and feature flags.
- The desktop operation runtime, safety classifier and broker: only their vocabulary is in the repository's protocol crate.
