# Verified model of the sync engine

vgxness keeps a developer's observations in a local SQLite store and synchronises
several devices through a PostgreSQL server. This project models that protocol in
Dafny and proves what the server history, the device store and the wire contract
between them keep, over every input and over whole runs.

`dafny verify dfyconfig.toml` checks everything.

## How it is laid out

**The server history.** `Tables` holds the rows, `Repository` says what one push
decides and writes (`Push`), and `PushTransaction` carries it out statement by
statement on a class. `Recovery` is the repository's own recovery check together
with what has to be added to make it inductive; `PushInvariant` proves that every
push keeps it, `PushAnswers` says which answer a push gets and what it leaves in terms of
the tables alone, `History` draws the consequences for runs of pushes by any devices,
`References` treats references between observations, and `Examples` and
`Counterexamples` run concrete histories.

**Reading the history.** `Pull` is the paging loop against a specification,
`Readable` says which changes can be served and that they say what was pushed,
`Paging` proves pages exact, `Orphans` what happens when a change cannot be served,
`PageBytes` that pages fit the response. `Protocol` holds the validators of both
sides as loops with their meaning, and `WireContract` proves that what the server
answers passes all of them.

**The device.** `Replica` and `ReplicaStore` apply pulled changes, `LocalRows` and
`PulledChanges` say field by field when and with what effect; `ReplicaMirror`,
`ReplicaRefinement`, `ReplicaProgress` and `ReplicaTopics` relate a replay to the
server's tables. `Inbox` and `InboxRuns` are the cursor, checkpoint and inbox with their
cached fast path, `InboxAnswers` the changes they take, `InboxEvents` every way they
move, and `BootstrapRuns` a device and a growing server together. `Outbox` is the queue
with its leases, coalescing and backfill, `OutboxBackfill` says what a backfill queues
and when it is refused, `OutboxRuns` lets any operations follow each other,
`OutboxEdits` says what becomes of the edits and `OutboxVersions` of the versions;
`OutboxAnswers` says what its operations come down to. `Transition`, `TransitionSafety`,
`TransitionRuns`, `TransitionBlocks`, `TransitionStore` and `TransitionOrder` are the
republishing of a project, `TransitionRecovery` and `TransitionChanges` say exactly when
its operations succeed. `Identity`, `IdentityRuns`, `IdentityAnswers` and
`IdentityStore` translate between local and portable names. `SearchIndex`,
`SearchStore`, `SearchWrites` and `LocalTopics` keep index and rows together.
`DeviceCounterexamples` and `RecoveryExample` run concrete devices.

**At the edge.** `AdmissionLimits` are the request quotas and `JsonDepth` the
nesting scanner.

## What the code does not do

These are results about the code as it stands, each proved with the condition
under which the expected property holds.

- An observation can end up referring to one of another project: incoming
  references are checked for updates only, not for archives and resolutions
  (`References.PushKeepsReferencesExactly`, `Counterexamples.ReferencesCanLeaveHome`).
- A deletion of a record that exists only as a conflict can never be pulled, and
  nobody reads past it (`Orphans.DeletionIsOrphanExactly`, `Orphans.OrphanBlocksForever`).
- A history in which two records share a topic, one of them archived, is accepted
  by the server and refused by every device (`ReplicaTopics.SharedTopicRefused`,
  `Counterexamples.HistoryCanBeUnreplayable`).
- A fully replayed older page leaves the checkpoint behind the cursor, when bootstraps
  of one device overlap; a page of resolutions never does
  (`InboxRuns.CheckpointAgreesExactly`, `InboxEvents.RunAgreesExactly`,
  `InboxRuns.CheckpointCanFallBehind`).
- An edit made without a sync profile on a record that a backfill queued before is in no
  entry: it is lost to the other devices until the next one, also when it goes back to
  content the server once answered (`OutboxEdits.SaveKeepsEditsExactly`,
  `DeviceCounterexamples.AnEditIsLost`, `DeviceCounterexamples.ARepeatedEditIsLost`). The
  second of these runs leases and pulls before any profile exists, which the store's
  methods allow; the application synchronises only with a profile, and none is removed.
- An edit that the server refuses leaves the queue and is not queued again once its
  record has a version or its backfill was refused before (`OutboxEdits.OpKeepsEditsExactly`).
- One refused backfill of a record stands in the way of its whole project's backfill until
  that record is written again (`OutboxBackfill.BackfillRefusedExactly`,
  `OutboxEdits.SpentBlocksForGood`, `DeviceCounterexamples.ARefusedBackfillBlocksOthers`).
- A second tombstone of a record fails as a constraint violation instead of being
  answered (`History.PushFailsExactly`, `Counterexamples.SecondTombstoneIsUnanswered`).
- If the echo of a republished record is applied before its push result is
  recorded, the result is refused from then on and the transition cannot complete
  (`TransitionBlocks.EchoBeforeResultStrands`, `DeviceCounterexamples.EchoCanComeFirst`).
- An observation that refers to one deleted elsewhere keeps its project from being
  republished (`TransitionBlocks.DeletedReferenceBlocks`,
  `DeviceCounterexamples.ReferenceCanOutliveItsTarget`).
- A global pull does not ask whether a project is in transition: a change it takes to a
  snapshotted record breaks the transition, unless the snapshot's content, its queued
  entry and an echoed record's version stay as they are
  (`TransitionBlocks.GlobalChangeKeepsExactly`, `TransitionBlocks.VisitsKeepValidExactly`,
  `DeviceCounterexamples.AGlobalUpdateBreaksTheTransition`).
- Mapping adopts a wire id without asking that it be a canonical UUID; if it is
  not, the row can never be read again (`Identity.AdoptionReadableExactly`,
  `IdentityRuns.RunKeepsNamesExactly`, `DeviceCounterexamples.AdoptedNameCanBeUnreadable`).
- A pulled conflict of an unknown record adopts a name but makes no row, and every
  later change of that record is refused (`IdentityRuns.AdoptionUsableExactly`,
  `IdentityRuns.ConflictAdoptionBlocks`, `DeviceCounterexamples.AConflictCanOutrunItsRecord`).
- `Save` indexes a new observation that is archived from the start; only its caller
  keeps that from happening (`SearchIndex.SaveAgreesExactly`,
  `DeviceCounterexamples.ArchivedSaveIsFound`).

## Model

| member | source | states |
|---|---|---|
| PushTransaction.Database.PushOne | internal/syncpg/repository.go:481-643 | the statements of one push commit exactly the state and answer of the specification, or roll back to the state before; which answer and what state that is, `PushAnswers` says of the tables |
| PushAnswers.TakenExactly | internal/syncpg/repository.go:481-643 | a request is accepted if and only if its base, its surroundings and its topic stand, and filed as a conflict if and only if an observation update finds its row on another version, or an observation create or update its topic held; each at the next sequence |
| PushAnswers.RefusedExactly | internal/syncpg/repository.go:484-602 | the exact condition of every refusal code, on device, tables and mutation; a refusal changes nothing |
| PushAnswers.AcceptedLeaves | internal/syncpg/repository.go:603-643 | an accepted request leaves one sequence, change, mutation and version more, its record row as it says, its tombstone or closed conflicts, and every other row as it was |
| PushAnswers.ConflictLeaves | internal/syncpg/repository.go:707-758 | a conflict leaves the competing content as a version, an open conflict row and the record flagged, or stored archived where there was none, and no other row changed |
| PushAnswers.RollsBackExactly | internal/syncpg/repository.go:603-643 | which standing or competing requests a constraint refuses, on the tables: a spent id, a taken conflict id, a second tombstone |
| PushTransaction.Database.WriteConflict | internal/syncpg/repository.go:707-758 | a competing mutation is recorded with its conflict row and review flag, or nothing is when a constraint refuses it |
| PushTransaction.Database.WriteAccepted | internal/syncpg/repository.go:603-643 | an accepted mutation writes record, version, change, tombstone and closed conflicts together |
| PushTransaction.Database.WriteCanonical | internal/syncpg/repository.go:915-960 | the record row an accepted create, update, archive or resolve leaves |
| PushTransaction.Database.WriteTombstone | internal/syncpg/repository.go:824-831 | the erased row a deletion leaves |
| PushTransaction.Database.LockTopic | internal/syncpg/repository.go:895-913 | whether another active observation holds the topic, whichever row the query meets first |
| PushTransaction.Database.InsertVersion | internal/syncpg/repository.go:707-758 | a version row is added unless the unique key of kind, record, version and mutation id is taken |
| PushInvariant.PushKeepsInvariant | internal/syncpg/verify.go:18-110 | every committed push keeps the whole recovery invariant and only extends the history |
| History.RunKeepsInvariant | internal/syncpg/verify.go:40-105 | every run of issued and revoked devices and pushes keeps the invariant, and each state continues the one before |
| History.ReachableVerifies | internal/syncpg/verify.go:18-110 | the recovery check passes on every database reachable from an empty owner |
| History.ExactlyOnce | internal/syncpg/repository.go:495-546 | a device's mutation id stands behind at most one change, over any interleaving and retries |
| History.ReplayAnswersTheSame | internal/syncpg/repository.go:495-546 | repeating an acknowledged mutation later, from an active device, gives the original sequence and version and changes nothing |
| History.ReusedIdRefused | internal/syncpg/repository.go:495-546 | another mutation under a used id is refused and changes nothing |
| History.StrangerChangesNothing | internal/syncpg/repository.go:481-495 | a device that is unknown or revoked changes nothing |
| History.TombstonedForever | internal/syncpg/repository.go:547-602 | no later push touches a tombstoned observation or its tombstone |
| History.ClosedOnce | internal/syncpg/repository.go:799-811 | a conflict is closed at most once, by a later change that resolves it, and stays as closed |
| History.PushFailsExactly | internal/syncpg/repository.go:603-643 | a push rolls back if and only if its id is spent by another device on the same version, its conflict id is taken, or it is a second tombstone |
| References.PushKeepsReferencesExactly | internal/syncpg/repository.go:850-891 | references stay within their project across a push if and only if it does not move an observation that others refer to without the update check |
| References.RunKeepsReferences | internal/syncpg/repository.go:850-891 | a run without such moves keeps every reference at home |
| Counterexamples.ReferencesCanLeaveHome | internal/syncpg/repository.go:871-883 | a run of five pushes that leaves a reference across projects |
| Counterexamples.HistoryCanBeUnreadable | internal/syncpg/repository.go:423-469 | a run whose fourth change nobody can pull |
| Counterexamples.HistoryCanBeUnreplayable | internal/memory/migrations/003_global_projects.sql:66-68 | a run, readable throughout, that no device can replay |
| Counterexamples.SecondTombstoneIsUnanswered | internal/syncpg/repository.go:824-831 | a run behind which a deletion on the record's own version fails |
| Pull.PullHistory | internal/syncpg/repository.go:264-414 | the loop over rows, budget and limit returns the specified page |
| Readable.ReadableExactly | internal/syncpg/repository.go:423-469 | a change can be served if and only if it is not an orphan deletion, and then says what was pushed |
| Readable.PullMutationGivesRequest | internal/syncpg/repository.go:423-469 | the pull query and decoder give back the pushed request |
| Readable.RowStable | internal/syncpg/repository.go:423-469 | no later push changes what a change is served as |
| Paging.PageIsExact | internal/syncpg/repository.go:264-414 | one page is exactly the next stretch of the log, filtered by project, as far as limit and budget allow, with has_more stating the rest |
| Paging.SessionDelivers | internal/syncpg/repository.go:264-414 | repeated pulls to a watermark deliver the log without gap or repetition and end |
| Paging.SessionContinues | internal/syncpg/repository.go:264-414 | an unfinished session can always continue while its device is active |
| Paging.SelectionIsMembership | internal/syncpg/repository.go:319-335 | the SQL filter of a project pull selects exactly the project's changes |
| PageBytes.ServedChangesFit | internal/syncpg/repository.go:380-409 | no valid change is too large for an empty page |
| PageBytes.PageFitsResponse | internal/syncpg/repository.go:380-413 | every page leaves room for its header and separators within the response limit |
| Orphans.DeletionIsOrphanExactly | internal/syncpg/repository.go:423-436 | a deletion cannot be served exactly when its record was born in a conflict and never accepted before |
| Orphans.GlobalPullRefusedExactly | internal/syncpg/repository.go:343-402 | a global pull is refused exactly when one page would reach the first orphan |
| Orphans.ProjectPullRefused | internal/syncpg/repository.go:300-318 | a project pull over an orphan is always refused |
| Orphans.OrphanBlocksForever | internal/syncpg/repository.go:264-414 | from the change before an orphan every later pull is refused |
| Protocol.ValidatePullPage | internal/syncapi/http.go:396-421 | the loop accepts exactly the pages that answer their request |
| Protocol.CheckPullResponse | internal/syncapi/protocol.go:243-300 | the decoder's structural checks accept exactly the well-formed responses |
| Protocol.PullMatches | internal/syncclient/client.go:480-496 | the client accepts exactly the responses that continue its request |
| Protocol.ValidatePulledPage | internal/memory/sync.go:4149-4170 | the store accepts exactly the consecutive pages of valid changes whose checkpoint matches |
| Protocol.ValidatePushResponse | internal/syncapi/protocol.go:166-204 | a response is accepted exactly when every result answers its item and one sequence stands for one mutation |
| WireContract.ServedPagePasses | internal/syncpg/repository.go:396-413 | every page a pull returns passes the server, decoder, client and store checks; a project page the first three |
| WireContract.PushResponsePasses | internal/syncpg/repository.go:239-249 | the results of any batch, with replays, duplicates and concurrent pushes, pass the client's validator |
| ReplicaStore.Store.ApplyPulledMutation | internal/memory/sync.go:4394-4417 | a pulled change commits exactly the specified tables or leaves them; which and when, `PulledChanges` says of the tables |
| PulledChanges.ChangeAppliesExactly | internal/memory/sync.go:4394-4706 | a device takes a change if and only if versions, project, session, references, topic, times and listed conflicts fit its tables, and then its row says field by field what was pulled, its conflict, tombstone or closed conflicts are on file, and nothing else moved |
| ReplicaStore.Store.ApplyPulledObservation | internal/memory/sync.go:4635-4706 | a pulled snapshot is inserted or replaces its row exactly when its surroundings, identity and version allow |
| ReplicaStore.Store.ApplyPulledConflict | internal/memory/sync.go:4424-4470 | a conflict, if its snapshot is stored in 1 MiB, flags its row for review and is stored once |
| ReplicaStore.Store.ApplyPulledTombstone | internal/memory/sync.go:4472-4514 | a deletion clears topic and references and advances the version, and leaves the other fields |
| ReplicaMirror.DeletionLeaves | internal/memory/sync.go:4472-4514 | behind a deletion the row has no topic and no references, every other field, row and table as before, and one tombstone more |
| ReplicaStore.Store.ApplyPulledResolve | internal/memory/sync.go:4516-4553 | a resolution needs every listed conflict open and closes exactly those |
| ReplicaStore.Store.ValidateReferences | internal/memory/sqlite.go:1176-1198 | references are accepted exactly when distinct, present, in the same project and scope and not deleted |
| ReplicaMirror.ReplayMirrors | internal/memory/sync.go:4394-4706 | a successful replay leaves each record at its last accepted change, with its conflicts and deletions; a deleted row keeps what was last written but for topic and references |
| ReplicaRefinement.ReplicaAgrees | internal/memory/sync.go:4394-4706 | a device that replayed the history agrees with the server's tables field by field in versions, content, tombstones and open conflicts, and its deleted rows hold no topic |
| ReplicaProgress.NextAppliesExactly | internal/memory/sync.go:4394-4706 | a device that mirrors the history takes the next change, unless it is a conflict snapshot over 1 MiB, if and only if its own conditions on times, topic and references allow |
| ReplicaProgress.ReplaySucceedsExactly | internal/memory/sync.go:4394-4706 | a prefix without conflict snapshots over 1 MiB replays if and only if every change was welcome in its turn: versions never stand in the way |
| ReplicaTopics.SharedTopicRefused | internal/memory/sync.go:4635-4706 | a history whose records share a topic is refused by every device |
| ReplicaTopics.OnlyLiveHoldTopics | internal/memory/sync.go:4500-4508 | on a device that mirrors the history content is refused its topic if and only if a row that is not deleted holds it |
| ReplicaTopics.DeletedTopicIsFree | internal/memory/sync.go:4500-4508 | the next creation is taken although any number of deleted records once had its topic |
| LocalTopics.ApplyKeepsTopics | internal/memory/migrations/003_global_projects.sql:66-68 | whatever is applied leaves one row for a topic |
| Inbox.Device.ApplyPulledPage | internal/memory/sync.go:3996-4147 | a page, its inbox rows, cursor and checkpoint commit as specified or not at all, and the cache stays sound |
| InboxAnswers.PageTakenExactly | internal/memory/sync.go:3996-4147 | a page is applied if and only if it answers, starts at the cursor, its checkpoint fits and each change up to where it ends is admissible: known under its hash, or new with no contradicting receipt and no queued work in its way; it leaves the rows of those changes, their inbox rows, cursor and checkpoint |
| InboxAnswers.ChangesTakenExactly | internal/memory/sync.go:4050-4117 | the loop, change by change: what it takes, what it skips as the device's own, and where a page of resolutions ends early |
| InboxAnswers.StartsExactly | internal/memory/sync.go:4312-4392 | a page starts if and only if the inbox is exactly what came before the cursor, and its first change is the next one or known under its hash |
| Inbox.Device.CheckCursor | internal/memory/sync.go:4269-4337 | the check through the cache answers what the full scan answers |
| Inbox.CacheRefinesScan | internal/memory/sync.go:4269-4337 | a cache hit has the scan's position, replay flag and outcome |
| Inbox.StartIsExact | internal/memory/sync.go:4312-4392 | a start that is found means an inbox of exactly 1 to position |
| Inbox.AppliedInboxExact | internal/memory/sync.go:4050-4117 | applying changes keeps the inbox exact up to the new position |
| InboxRuns.ReappliedPageChangesNothing | internal/memory/sync.go:4060-4075 | in every mode, an applied page changes no record, inbox row or cursor when it is applied again |
| InboxRuns.DifferentHistoryRefused | internal/memory/sync.go:4312-4337 | a page with another hash for an applied sequence is refused |
| InboxRuns.CheckpointAgreesExactly | internal/memory/sync.go:4118-4138 | checkpoint and cursor agree after a page if and only if it is a page of resolutions or does not lie behind the cursor |
| InboxRuns.CheckpointCanFallBehind | internal/memory/sync.go:4118-4138 | a fresh device after one page, and the older page that leaves its checkpoint behind |
| InboxRuns.BootstrapRunAdvances | internal/memory/sync.go:2039-2107 | a bootstrap keeps every state valid, moves towards one watermark and cannot run forever |
| InboxRuns.PageKeepsFaithful | internal/memory/sync.go:3996-4147 | in every mode, a device that is the replay of a log prefix stays one across a page, also where the page stops early |
| Inbox.Device.ApplyOwnConflictPage | internal/memory/sync.go:2329-2411 | the device's own conflict, its inbox row, cursor and checkpoint commit as specified or not at all, and the cache stays sound |
| InboxAnswers.OwnConflictLandsExactly | internal/memory/sync.go:2329-2411 | the device's own conflict lands if and only if it is the one change behind the cursor, of the mutation asked for, by a receipt that agrees, and queue, rows and bootstrap fit |
| InboxEvents.RunAgreesExactly | internal/memory/sync.go:3996-4147 | over any interleaving of bootstrap pages, pages before an own conflict, own conflicts and resolutions, inbox, cursor and checkpoint agree in every state if and only if no page that rewrites the checkpoint is applied behind the cursor; history, rows, position and watermark never go back |
| InboxEvents.CallsKeepSound | internal/memory/sync.go:2039-2236 | one call after the other, whatever the remote answers, every state agrees and only moves on, and a complete checkpoint is only left for a later position |
| InboxEvents.DeviceStaysSound | internal/memory/sync.go:2039-2236 | a fresh device is in agreement after any calls |
| InboxEvents.OwnConflictStopsThere | internal/memory/sync.go:2109-2183 | the bootstrap towards an own conflict never goes past it |
| BootstrapRuns.FedAgrees | internal/memory/sync.go:2039-2107 | whatever rounds a fresh device took with a growing server, when its bootstrap is complete it is the replay of, and agrees with, the tables of one of them |
| BootstrapRuns.BootstrapCompletesExactly | internal/memory/sync.go:2039-2107 | a connected device that keeps asking completes if and only if the history of its first round replays, and then agrees with the tables of that round however the server went on |
| Outbox.Outbox.Save | internal/memory/sync.go:3443-3495 | a local write commits row and queued snapshot together, or neither; without a sync profile the row commits alone |
| OutboxAnswers.SaveLeaves | internal/memory/sync.go:3481-3495 | a queued write adds one entry, the snapshot of what was written, as a creation, update or archive on the row's version |
| Outbox.Outbox.InsertSyncOutbox | internal/memory/sync.go:3395-3438 | a completed mutation is never queued again and one id stands for one payload |
| Outbox.Outbox.DueEntries | internal/memory/sync.go:2782-2812 | the due query returns claimable entries in order: all of them, or as many first ones as the limit allows |
| Outbox.Outbox.ReadyEntries | internal/memory/sync.go:2869-2914 | which due creations may go out, none when one never can |
| Outbox.Outbox.ClaimDue | internal/memory/sync.go:2747-2867 | a round leases of the due entries exactly those whose references are all in their project and on the server, passes over those that wait for a queued one, and is refused if and only if one refers to what is missing, foreign, or neither on the server nor queued |
| Outbox.ReadyExactly | internal/memory/sync.go:2869-2914 | an entry goes out, waits or refuses the round exactly by where each of its references is: project, version and queued creation |
| OutboxAnswers.LeasedExactly | internal/memory/sync.go:2782-2914 | an entry is leased if and only if it is due, free, leading and on its record's version, fewer than the limit of older ones are, and whatever it refers to is on the server |
| OutboxAnswers.DueExactly | internal/memory/sync.go:2782-2812 | the due query answers with the oldest entries that may go, as many as were asked for |
| Outbox.Outbox.RenewClaim | internal/memory/sync.go:2917-2966 | only the holder of an unexpired lease extends it, and only forward |
| Outbox.Outbox.MarkRetry | internal/memory/sync.go:2979-3036 | only the holder puts an entry back, and gives up the lease with it |
| Outbox.Outbox.ApplyPushResult | internal/memory/sync.go:3050-3125 | a result is recorded if and only if it is final and well formed, presented under a live claim, fits the record's version and names a new sequence; repeated if and only if the receipt says the same; retried if and only if retryable under a live claim; all else changes nothing |
| OutboxAnswers.TakenExactly | internal/memory/sync.go:3225-3289 | a final result of a queued mutation fits if and only if it is a refusal, the next version of the record, or a conflict where the record is or can go, and no receipt has its sequence |
| OutboxAnswers.RecordedLeaves | internal/memory/sync.go:3214-3368 | a recorded result leaves its receipt, the record's version, no entry or claim of its own, and behind an acceptance the record's newest edit on that version; other records' entries stay |
| OutboxAnswers.PostponedLeaves | internal/memory/sync.go:2979-3036 | a retry moves its own entry's time, count and code and ends its lease, and nothing else |
| Outbox.Outbox.RebasePendingConflict | internal/memory/sync.go:2413-2451 | behind an own conflict or a resolution a record's queued work becomes its newest edit on the new version, unless somebody is at work on it |
| OutboxAnswers.RebaseLeaves | internal/memory/sync.go:2413-2477 | behind a landed conflict the record's newest edit is queued on the version, as an update or archive, other entries stay and claims go with their entries |
| Outbox.Outbox.BackfillObservations | internal/memory/sync.go:168-265 | a backfill commits exactly the specified queue, or leaves it |
| Outbox.EnqueueKeepsValid | internal/memory/sync.go:3443-3495 | a queued write keeps the queue in order, its entries valid and on versions their records had, and claims on leading entries only |
| Outbox.CompletionKeepsValid | internal/memory/sync.go:3334-3368 | an acceptance, a conflict or a refusal keeps them too |
| Outbox.OneFollower | internal/memory/sync.go:2453-2477 | an accepted result leaves at most one entry of its record: the newest, moved onto the accepted version |
| Outbox.OnePendingLeft | internal/memory/sync.go:2453-2477 | so does a landed conflict or resolution |
| Outbox.LaterNeverClaimed | internal/memory/sync.go:3334-3342 | behind the leading entry of a record nothing is claimed, so a completion is never refused for it |
| Outbox.CompletionIsFinal | internal/memory/sync.go:3279-3289 | a completion ends the claim and writes the only receipt its mutation will have |
| Outbox.StaleForever | internal/memory/sync.go:3214-3223 | a token once replaced or gone never comes into force again, over any number of claimers |
| OutboxRuns.RunIsFenced | internal/memory/sync.go:2747-3125 | any run of operations by any workers is a run of leases in which tokens only give way to new ones, and every receipt stays with its mutation out of the queue |
| OutboxRuns.RunNeverGoesBack | internal/memory/sync.go:3214-3223 | over any run a token once replaced or gone is never in force again, and a completed mutation keeps its receipt and is never queued again |
| OutboxRuns.DeviceNeverGoesBack | internal/memory/sync.go:3214-3223 | so from any point of a run that began with the empty outbox |
| OutboxEdits.SaveKeepsEditsExactly | internal/memory/sync.go:3450-3455 | across a write every record's last edit stays queued last, answered last, or open to a backfill that will queue it, if and only if a sync profile exists or the write is harmless: it changes nothing queued, or with nothing queued repeats the answer that is still current, or the record has no version and an unspent derived id |
| OutboxEdits.CompletionKeepsEditsExactly | internal/memory/sync.go:3334-3368 | a completion keeps every last edit safe if and only if it is not a refusal of a record's last queued edit that nothing will queue again: the answer it gives is about exactly that edit |
| OutboxEdits.RebaseKeepsEdits | internal/memory/sync.go:2413-2477 | landing a conflict or a resolution keeps the newest edit |
| OutboxEdits.OpKeepsEditsExactly | internal/memory/sync.go:3050-3125 | writes, backfills, leases, renewals, retries, results, landed conflicts and pulls keep queue and edits, exactly unless the operation is a losing write or a losing refusal |
| OutboxEdits.RunKeepsEditsExactly | internal/memory/sync.go:3443-3495 | over any run of them every edit is safe at every moment if and only if none of the operations loses one |
| OutboxEdits.ConfiguredDeviceLosesNothing | internal/memory/sync.go:3443-3495 | a device with a profile from the start, of which the server refuses nothing, loses no edit in any run |
| OutboxBackfill.BackfillPicksAll | internal/memory/sync.go:1339-1394 | a backfill that ran to its end has every unsynchronised record queued, its oldest creation showing the row |
| OutboxBackfill.BackfillRefusedExactly | internal/memory/sync.go:1339-1394 | a backfill is refused if and only if a blocked record comes before its limit: one whose derived id is spent or content cannot be sent, or whose queued creation was attempted, or is out of date and was ever leased |
| OutboxEdits.OpenIsNotBlocked | internal/memory/sync.go:1339-1394 | a record open to a backfill never blocks one |
| OutboxEdits.OpenEditsAreQueued | internal/memory/sync.go:1339-1394 | a backfill of records none of which is blocked, with room for all, queues every unsynchronised one with its present content |
| OutboxEdits.SpentBlocksForGood | internal/memory/sync.go:3400-3407 | once a record's backfill was refused by the server, every backfill that reaches it is refused over any run that does not write the record |
| DeviceCounterexamples.ARefusedBackfillBlocksOthers | internal/memory/sync.go:3400-3407 | a run after which a record nobody refused can never be backfilled |
| DeviceCounterexamples.ARepeatedEditIsLost | internal/memory/sync.go:3450-3455 | a run that loses an edit although the server once answered the same content |
| OutboxVersions.OpKeepsVersionsExactly | internal/memory/sync.go:3225-3268 | every operation keeps a record's queued work on the record's version, so claimable in its turn, exactly unless it records a conflict that moves the version in front of it; landing the conflict brings it back |
| OutboxVersions.RunKeepsVersionsExactly | internal/memory/sync.go:3225-3268 | over any run a record's queued work is on its version at every moment if and only if no recorded conflict overtakes it |
| OutboxVersions.DeviceKeepsVersionsExactly | internal/memory/sync.go:3225-3268 | so from the empty outbox |
| DeviceCounterexamples.AnEditIsLost | internal/memory/sync.go:3450-3455 | a run of the code that loses an edit for good |
| TransitionOrder.OrderObservations | internal/memory/sync.go:671-715 | ordering succeeds if and only if ids are sound and references present and acyclic, with the least topological order |
| TransitionOrder.GreedyIsLeast | internal/memory/sync.go:671-715 | taking the least ready item gives the lexicographically least order |
| TransitionOrder.OrderableExactly | internal/memory/sync.go:671-715 | a well-formed snapshot has an order if and only if its references have no cycle |
| TransitionStore.ProjectStore.CurrentSnapshots | internal/memory/sync.go:614-669 | the project, its sessions and its ordered observations are listed, or nothing when they cannot be ordered |
| TransitionStore.ProjectStore.PrepareTransition | internal/memory/sync.go:360-502 | without pending repairs or snapshots over 1 MiB, a transition is prepared exactly as specified, or nothing changes; when, `TransitionRecovery.PreparesExactly` says |
| TransitionStore.ProjectStore.FinalizeTransition | internal/memory/sync.go:805-980 | a finalization publishes, recovers and completes exactly as specified, or nothing changes; when, `TransitionRecovery.FinalizesExactly` says |
| TransitionStore.ProjectStore.RecoverRejected | internal/memory/sync.go:982-1095 | the loop over the missing observations queues again what the specification does, or is refused with it; which and when, `TransitionRecovery.RecoversExactly` says of receipts and records |
| TransitionRecovery.RecoversExactly | internal/memory/sync.go:982-1095 | recovery succeeds if and only if nothing is missing, or each unseen, unqueued observation without an accepted creation has one creation receipt, the refusal of its snapshot for a prerequisite, is on version 0, and has its session on the server and its references there or on the way; exactly those are queued again, as snapshotted |
| TransitionRecovery.FinalizesExactly | internal/memory/sync.go:805-980 | at the watermark a finalization succeeds if and only if the remote has the project and the rest can be sent, or, once published, what is missing can be recovered |
| TransitionRecovery.PublishesExactly | internal/memory/sync.go:882-956 | the first round succeeds if and only if the project was echoed, its records can be listed and the unseen ones sent |
| TransitionRecovery.PreparesExactly | internal/memory/sync.go:360-502 | a transition is prepared if and only if the project is bound, nothing of it is leased or in transition, its records can be listed and, for a confirmed reseed, sent |
| TransitionRecovery.PrepareLeaves | internal/memory/sync.go:426-494 | a prepared project has each of its records snapshotted as it is and unseen, no receipt, cursor or inbox row of its own, for a reseed its rows on version 0, and nothing of any other project touched |
| RecoveryExample.ARefusalIsTriedAgain | internal/memory/sync.go:982-1095 | a rejoin from its preparation to the finalization that queues a refused observation again |
| TransitionStore.ProjectStore.ApplyPulledPage | internal/memory/sync.go:3551-3614 | a project page commits rows, echoes, inbox and cursor as specified, or nothing |
| TransitionChanges.ProjectPageExactly | internal/memory/sync.go:3551-3614 | a project page is applied if and only if it is valid, continues the pull, the project is there and each change in its turn is known under its hash or taken; it leaves the last of those states and its cursor |
| TransitionStore.ProjectStore.HandleTransition | internal/memory/sync.go:3656-3709 | a change to a snapshotted record is its echo, or diverges |
| TransitionChanges.MappedExactly | internal/memory/sync.go:3580-3709 | a project change beyond the cursor is taken if and only if its sequence is new and it is the echo of its snapshotted record, or an ordinary change that no receipt contradicts and that fits; it leaves its echo or content and its inbox row |
| TransitionStore.ProjectStore.ValidatePage | internal/memory/sync.go:3777-3798 | exactly the ascending pages of the project's valid changes that end at their cursor are accepted |
| TransitionStore.ProjectStore.ApplyPushResult | internal/memory/sync.go:3225-3268 | a result is recorded exactly when it fits the record's version and the named incarnation |
| TransitionChanges.ResultExactly | internal/memory/sync.go:3050-3268 | a result is recorded if and only if it is of the entry, final, new, of the named incarnation, and fits the record's version |
| TransitionChanges.ResultLeaves | internal/memory/sync.go:3050-3268 | it leaves its receipt, takes out its entry and moves the record to its version, and nothing else |
| TransitionStore.ProjectStore.CommitLocalWork | internal/memory/sync.go:3443-3449 | local work commits only while no transition is in progress |
| Transition.SnapshotsCover | internal/memory/sync.go:614-669 | the snapshot holds every record of the project once and nothing else |
| TransitionSafety.ReseedQueuesEverything | internal/memory/sync.go:470-494 | a reseed queues every record once, in snapshot order, on version 0 |
| TransitionSafety.RejoinPublishesExactly | internal/memory/sync.go:882-956 | a rejoin queues a record if and only if the remote did not have it |
| TransitionSafety.ApplyTouchesItself | internal/memory/sync.go:4394-4417 | a pulled change reaches no record but its own |
| TransitionSafety.FinalizeKeepsValid | internal/memory/sync.go:805-980 | a finalization keeps snapshots intact, echoes on version 1 and only snapshots queued |
| TransitionSafety.PageKeepsValid | internal/memory/sync.go:3551-3614 | a project page keeps them too |
| TransitionRuns.RunKeepsValid | internal/memory/sync.go:360-502 | every state of every run of project-scoped operations is valid: contents as snapshotted, seen records on version 1, completed ones all seen |
| TransitionRuns.RunIsOnward | internal/memory/sync.go:432-438 | generations never go back, and within one the status only advances and echoes only accumulate |
| TransitionRuns.PrepareIsLater | internal/memory/sync.go:405-438 | a prepare begins a strictly later generation and never interrupts one |
| TransitionRuns.StaleForever | internal/memory/sync.go:3616-3654 | an operation that names an older generation changes nothing, ever |
| TransitionRuns.FrozenInProgress | internal/memory/sync.go:3443-3449 | while a generation is in progress no project-scoped operation changes the content of a snapshotted record |
| TransitionRuns.CompletionMeansEchoed | internal/memory/sync.go:962-980 | only a finalization completes, with an empty queue and every record echoed as it is |
| TransitionRuns.CompletesExactly | internal/memory/sync.go:957-980 | at the watermark a publishing transition completes if and only if nothing is queued and all is seen |
| TransitionBlocks.SnapshotsExactly | internal/memory/sync.go:614-669 | a project can be snapshotted if and only if it exists and its live observations refer only to each other, without a cycle |
| TransitionBlocks.SnapshotsInOrder | internal/memory/sync.go:614-669 | every observation comes behind the ones it names |
| TransitionBlocks.PulledIsSnapshotted | internal/memory/sync.go:614-669 | what was pulled is snapshotted as it came, but for the order of references and the review of what is archived |
| TransitionBlocks.DeletedReferenceBlocks | internal/memory/sync.go:671-691 | a reference to a deleted observation keeps a transition from starting and from publishing |
| DeviceCounterexamples.ReferenceCanOutliveItsTarget | internal/memory/sync.go:671-691 | four pulled changes behind which a project cannot be prepared |
| TransitionBlocks.NeverFoundChanged | internal/memory/sync.go:915-948 | in every valid state, so in every run without a noticed global change, the check that an unseen record has changed cannot fail |
| TransitionBlocks.GlobalChangeKeepsExactly | internal/memory/sync.go:4050-4107 | a globally pulled change leaves a transition in progress valid if and only if its record is outside the snapshot, or it is a conflict on a row already under review or archived, or an accepted change of a record not echoed yet that repeats its content |
| TransitionBlocks.GlobalFollowsInbox | internal/memory/sync.go:4077-4117 | a global change is held back, skipped or taken exactly as the global inbox's loop does it, by its receipt and the work queued on its record |
| TransitionBlocks.VisitsKeepValidExactly | internal/memory/sync.go:4077-4117 | over any run of a project's operations with such global changes in between, the transition holds in every state if and only if none that is taken alters what the snapshot shows, takes an echoed record off its version or rebases a snapshotted entry |
| DeviceCounterexamples.AGlobalUpdateBreaksTheTransition | internal/memory/sync.go:4077-4117 | a reseed, its recorded result, its echo and a globally pulled update that is taken and breaks it |
| TransitionBlocks.AcceptedIsRecordedExactly | internal/memory/sync.go:3225-3268 | a fitting acceptance is recorded if and only if the record is still on version 0 |
| TransitionBlocks.EchoStrandsExactly | internal/memory/sync.go:3656-3709 | within a generation an echoed record waits for a result it can no longer take exactly when it was queued at its echo, and otherwise is never queued again |
| TransitionBlocks.EchoBeforeResultStrands | internal/memory/sync.go:3225-3268 | an echo applied before the result strands its entry: the transition never completes |
| DeviceCounterexamples.EchoCanComeFirst | internal/memory/sync.go:3656-3709 | a reseed and the page that strands it |
| TransitionBlocks.ReappliedPageChangesNothing | internal/memory/sync.go:3551-3614 | a project page applied a second time changes nothing |
| IdentityStore.IdentityTables.EnsureIdentity | internal/memory/sync.go:1824-1858 | a local record has or gets one readable portable id, or nothing is written |
| IdentityStore.IdentityTables.AdoptIdentity | internal/memory/sync.go:3875-3897 | a known wire id maps to its record and an unknown one is adopted once |
| IdentityAnswers.AdoptExactly | internal/memory/sync.go:3851-3897 | a wire id gets a local one if and only if the project has its record or neither the id nor the name made of it is in use; at most that row is new |
| IdentityStore.IdentityTables.TranslateMutation | internal/memory/sync.go:1725-1790 | a mutation goes out under portable names, or no name is kept |
| IdentityAnswers.SentExactly | internal/memory/sync.go:1725-1858 | a mutation is sent if and only if it and what it names are the project's and have a name or can get the derived one; only they are named |
| IdentityStore.IdentityTables.MapChange | internal/memory/sync.go:3847-3957 | a change comes in under local names, or nothing is adopted |
| IdentityAnswers.ReadExactly | internal/memory/sync.go:3847-3957 | a change is read if and only if its record is the project's or can be adopted, and its session and references go by names of the project |
| Identity.TranslateCorresponds | internal/memory/sync.go:1725-1790 | translation keeps names a bijection and its result names the same records |
| Identity.MapCorresponds | internal/memory/sync.go:3847-3957 | mapping keeps names a bijection and its result names the same records |
| Identity.EchoMapsBack | internal/memory/sync.go:3847-3957 | a translated mutation maps back to itself on any later table |
| Identity.ReceivedIsSentBack | internal/memory/sync.go:1725-1790 | a mapped change translates back to its wire form on any later table |
| Identity.DeletionMapsBackExactly | internal/memory/sync.go:3934-3936 | a deletion maps back to itself exactly when it named the project |
| Identity.AdoptionReadableExactly | internal/memory/sync.go:1860-1877 | an adopted name can be read if and only if the wire id is a canonical UUID |
| Identity.UnreadableNameBlocks | internal/memory/sync.go:3851-3874 | an unreadable name refuses every later change of its record |
| IdentityRuns.RunKeepsNamesExactly | internal/memory/sync.go:3875-3897 | over any run of sent and received changes names only come in, and stay a readable bijection if and only if no id out of the store's form was adopted |
| IdentityRuns.DeviceKeepsNamesExactly | internal/memory/sync.go:3875-3897 | so from a device without names |
| IdentityRuns.AdoptionUsableExactly | internal/memory/sync.go:3851-3897 | the name a valid change adopts maps afterwards if and only if the change was not a conflict |
| DeviceCounterexamples.AConflictCanOutrunItsRecord | internal/memory/sync.go:3851-3897 | a valid conflict of an unknown record is applied, and the update of that record is refused |
| IdentityRuns.ConflictAdoptionBlocks | internal/memory/sync.go:3851-3897 | the conflict of an unknown record gives it a name without a row, and no later change of it is mapped |
| DeviceCounterexamples.AdoptedNameCanBeUnreadable | internal/memory/sync.go:3875-3897 | a valid session under a UUID in capitals, adopted and never mapped again |
| Identity.MappedIsAboutRecord | internal/memory/sync.go:3847-3957 | a mapped change is about the record it names |
| SearchStore.IndexedStore.SaveObservation | internal/memory/sqlite.go:913-959 | a save inserts, updates the holder of its topic or refuses, rows and index together; when and what, `SearchWrites` says of the rows |
| SearchStore.IndexedStore.UpdateTx | internal/memory/sqlite.go:984-1025 | an update rewrites row, references and index row together, within its lifecycle and identity; when and what, `SearchWrites` says of the rows |
| SearchWrites.SaveWrites | internal/memory/sqlite.go:913-959 | a save succeeds exactly when the row in its topic may be overwritten, or with none there a row may be added; the written row has every given field, the present time, its old creation time and version or now and 0, the index row shows its text, and no other row changed |
| SearchWrites.UpdateWrites | internal/memory/sqlite.go:960-1025 | so an update by id |
| SearchWrites.ContentWrites | internal/memory/provider_session.go:301-349 | a content update succeeds exactly on a live row of the project last written at the expected time that is no summary; it leaves the content, a later time, the index row if there was one, and the rest as it was |
| SearchWrites.ForgetWrites | internal/memory/forget.go:13-56 | forgetting succeeds exactly on a row of project and scope that is not deleted; it is archived and in no index row, and the rest is as it was |
| SearchWrites.SummaryWrites | internal/memory/provider_session.go:237-261 | a summary is added exactly under a free id and topic, as a project-scoped observation of the session provider, with its index row |
| SearchStore.IndexedStore.ReplaceContent | internal/memory/provider_session.go:301-349 | new content is written and indexed if nothing else wrote the row |
| SearchStore.IndexedStore.ForgetObservation | internal/memory/forget.go:13-56 | forgetting archives the row and empties its index rows |
| SearchStore.IndexedStore.WriteSummary | internal/memory/provider_session.go:237-261 | a completed session inserts and indexes one summary |
| SearchStore.IndexedStore.ApplyPulled | internal/memory/sync.go:4394-4706 | a pulled change writes rows and index as specified, or nothing |
| SearchIndex.SaveAgreesExactly | internal/memory/sqlite.go:1199-1208 | a save keeps the index right if and only if it does not insert an archived observation |
| SearchIndex.PullAgrees | internal/memory/sync.go:4635-4706 | every pulled change keeps the index right |
| SearchIndex.IndexAlwaysAgrees | internal/memory/sqlite.go:984-1025 | after any writes and pulls each live observation has exactly one index row, with its present text, and nothing else has any |
| SearchIndex.FindsExactlyTheLive | internal/memory/sqlite.go:1030-1089 | a search reaches an observation exactly by its present text and exactly while it is live |
| SearchIndex.ForgettingLasts | internal/memory/forget.go:10-56 | what is forgotten is found by no search after any local writes that save nothing as archived |
| DeviceCounterexamples.ArchivedSaveIsFound | internal/memory/sqlite.go:1199-1208 | an observation saved as archived, and found |
| AdmissionLimits.AuthenticationLimits.AllowGlobal | internal/syncapi/http.go:592-604 | any interval of one window admits at most twice the quota while clock readings reach the lock in order, three times while they come up to a window late, and so on |
| AdmissionLimits.AuthenticationLimits.AllowDevice | internal/syncapi/http.go:608-627 | a device is admitted exactly within its own quota, and the table stays within its limit |
| AdmissionLimits.AuthenticationLimits.EvictDevice | internal/syncapi/http.go:629-638 | exactly one device leaves the table, the least recently seen one while none has run out |
| JsonDepth.Measure | internal/syncapi/protocol.go:455-481 | on any printed JSON value the scanner's depth is the value's nesting depth |
| JsonDepth.ScanValue | internal/syncapi/protocol.go:455-481 | scanning a value raises the depth to its nesting and comes out as it went in, whatever its strings hold |

## Left out

- Outbox.Outbox.Save: models snapshots of observations; the project and session identities that go ahead of them, tombstones, transitions, unresolved conflicts and repairs enter as the `eligible` condition of the due query or not at all.
- Outbox.Outbox.BackfillObservations: the project and session creations that come first enter as the number they take of the limit.
- Outbox.Outbox.RebasePendingConflict: the rows a conflict or a resolution writes are those of the replica; the outbox keeps a record's version and the last content written locally.
- ReplicaStore.Store.ApplyPulledConflict: a conflict snapshot that is stored in more than 1 MiB is refused by the code; sizes of stored payloads are not modelled.
- PulledChanges.ChangeAppliesExactly: does not model that refusal.
- ReplicaProgress.NextAppliesExactly: does not model that refusal.
- ReplicaProgress.ReplaySucceedsExactly: does not model that refusal.
- TransitionStore.ProjectStore.PrepareTransition: a pending repair and a snapshot over 1 MiB also refuse a transition; neither is modelled.
- TransitionRecovery.PreparesExactly: does not model those two refusals either.
- TransitionRuns.RunKeepsValid: a global pulled page, which the code does not check against transitions, is not an event of these runs; TransitionBlocks.VisitsKeepValidExactly has it.
- TransitionRuns.FrozenInProgress: holds in the same runs.
- TransitionBlocks.VisitsKeepValidExactly: a page may be refused for other reasons too, as for its cursor or, when it carries a checkpoint, for any pending work; the theorem covers every change that is taken.
- AdmissionLimits.AuthenticationLimits.EvictDevice: once a window has run out, which entry leaves depends on the order of Go's map iteration; that exactly one leaves is all that is claimed.
- TransitionStore.ProjectStore.ApplyPulledMutation: a project pull onto local work queued after a transition has completed only sees the rows; rebasing that work is not modelled.
- TransitionStore.ProjectStore.CommitLocalWork: outside a transition local work may leave any rows, queue and receipts, which covers what it really does.
- Digests are taken as the values they were taken of, so SHA-256 is collision-free here; the derivation of portable ids is a parameter and collisions of it are covered.
- Encoded sizes enter as a function of a change, at most six bytes for each UTF-8 byte; the 1 MiB limit on a stored payload is not modelled.
- Strings are sequences of Unicode scalar values; kinds and lifecycles outside the vocabulary cannot be written down.
- Random ids and the clock are parameters: tokens and mutation ids are fresh, and time does not go back where a contract says so.
- Row ids of versions are consecutive; gaps of a database sequence do not show. Overflow of the sequence counter is not modelled.
- The order in which SQLite returns ids and references is a parameter that lists each once.
- A device's own receipts, pending work and the outcome of rebasing enter the global inbox as parameters; the client's review flag is not compared with the server's.
- container/heap is taken by its contract, as removing the least element of a set.
- Durable backup intents, project repairs and the binding of a portable project enter a transition as conditions or not at all.
- Stored column types and applied-at times; times other than that of a deletion are not truncated to microseconds.
- SQL text, schema checks, migrations and driver errors; each transaction is one step that commits or changes nothing.
- HTTP, TLS, credentials, the admin server, command line, MCP server, user interface, legacy import and the foreground loop.
- The lifecycle and leases of provider sessions beyond the summary they write; it would add a smaller machine of the same kind as the leases of the outbox.
