# Verified protocols of the chat system

A Dafny model of the stateful protocols behind the chat system, and proofs of
what they promise over every input and every run. `dafny verify dfyconfig.toml`
checks all of it.

- **Calls** (`CallSessions`, `CallOutcomes`, `CallManager`): user actions change
  the active call at once, while presence joins and leaves run later on one
  serialised queue and interleave with new actions at every await. The server never
  keeps presence nobody owns, and a late leave never deletes a newer join; a start
  that meets no failure ends connected, a hang-up ends the call, a retry heals.
- **Stored objects** (`Text`, `ReferenceKeys`, `Attachments`, `Fence`,
  `StorageState`, `StorageTables`, `StorageCalls`, `StorageEffects`, `StorageRuns`):
  a derived table of references must agree with the rows that list objects,
  collection may only tombstone what nothing references, and fences decide when the
  table may be trusted again; and each call goes through exactly when it should.
- **Archive** (`ArchiveRows`, `ArchiveReplication`, `ArchiveRuns`,
  `ArchiveWorker`, `ArchiveRebuild`, `ArchiveRoundTrip`, `ArchiveFence`): row
  callbacks in any order become a queue of writes, a consumer retries them into a
  second database, and a rebuild inverts the mapping. The fence keeps archived rows
  from being deleted between a wipe and the rebuild after its restore.
- **Uploads** (`UploadState`, `UploadRuns`, `Upload`): a bounded pool of parts
  with retries and an early failure, accounting for every byte.
- **Ids, history, lists, notifications** (`IdAllocation`, `Paging`,
  `DirectThreads`, `MessageMerge`, `ServerRail`, `RailEffects`, `RailStore`,
  `Notifications`).

Each protocol is a state machine over values, whose invariants and whole-run
theorems are lemmas; where the program updates state in place, a class beside it
has the program's own loops and assignments, and every method is proved to take
the step of that machine. Remote calls, the network, the clock and the choices
of the event loop are arbitrary.

Properties that hold only under a condition are stated with that condition, both
ways:

- A rebuild of the reference table drops avatar and icon keys that hold two dots,
  which the profile and icon updates accept. `RebuildIsExactIff` says when that
  matters, `RebuildCanLoseAnAvatar` gives such a key for every account. Over whole
  runs, with such keys or without, the index lacks exactly the columns a rebuild
  skipped and nobody has set since (`TrustedIndexIsExactIff`, `LostWasSkipped`), and
  only those can be collected while in use (`ClaimsAreSafeIff`), which three calls of
  an administrator bring about (`AvatarInUseCanBeCollected`).
- The archive holds six columns of an account. A lockout and a token floor come
  back as their defaults (`RoundTripIsIdentityIff`), although the rebuild's
  comment calls itself byte-for-byte.
- A reconcile refused for an empty snapshot is not retried while deleting stays
  allowed (`RefusedReconcileIsNotRetried`). The comment beside the guard says
  that an empty module has an empty archive. `StaleRowsStay` says what stays
  otherwise, and `RefusedEdgeIsExactIff` when nothing does. It fails when the last
  rows were deleted while the worker was away (`RefusalCanKeepStaleRows`).
- A reseed or a restore can hand out an id again when a larger id was used and
  deleted before the counter existed (`ReuseIsImpossibleIff`, `ReseedCanReuse`).
- Paging compares times strictly, and the web client's cursor keeps milliseconds. A
  caller gets the whole history exactly when none of its requests stops between two
  rows that tie at its precision (`PagesMeetIff`); for all page sizes that means no
  tie at all (`PagingIsCompleteIff`), for the web client's pages of 100 no tie where
  a page starts (`LoadToShortPage`). A tie where the window starts always loses a row
  (`MillisecondsLoseRows`). That the client's time type cuts microseconds off is an
  assumption about its library.
- Group ids are drawn from the clock in milliseconds
  (`ReusedGroupIdBreaksPartition`).
- A direct message is removed once both sides have deleted it (`DeleteDirectMeans`).
  The two sides are two flags, so one sent to oneself never is (`NoteToSelfStays`).

## Model

| member | source | states |
|---|---|---|
| `CallSessions.StepKeepsInv` | src/lib/livekit.ts:690-918 | one step of any kind (user action, work item, remote effect, answer) keeps the ownership invariant |
| `CallSessions.PresenceIsOwned` | src/lib/livekit.ts:742-918 | in every state of every run, each target the server holds presence for belongs to an attempt that claimed it (or whose join answer is under way) and that is active, held by a work item, or pending |
| `CallSessions.ActiveCallIsPresent` | src/lib/livekit.ts:797-918 | no interleaving of late leaves removes the presence of a claimed active call; the one exception, named exactly, is the call's own failed start releasing itself |
| `CallSessions.QuietMeansExact` | src/lib/livekit.ts:690-694 | once the queue is empty the server's presence is the active call's target plus what pending leaves left, and exactly the active target when none is pending |
| `CallSessions.TurnsAdvance` | src/lib/livekit.ts:690-694 | every turn of the work queue lowers a measure, so the queue drains whatever the remote calls answer |
| `CallSessions.ReleaseKeepsInv` | src/lib/livekit.ts:797-823 | a release keeps ownership: an older attempt hands its target to a newer claimed call instead of leaving |
| `CallOutcomes.EndCallMeans` | src/lib/livekit.ts:874-884 | a hang-up of the active call, with its target and, if one is named, its room, leaves no active call and queues the release of that attempt; any other hang-up changes nothing |
| `CallOutcomes.StartCallMeans` | src/lib/livekit.ts:832-852 | a start while connected to the target changes nothing; any other makes a new active attempt, queues its start and queues the release of the old call |
| `CallOutcomes.StartOutcome` | src/lib/livekit.ts:852-943 | in every run in which the user does not change the call in between, once the work is done a start has ended with a room, a claim and presence on the server if its URL, join and connection came through, and with no active call otherwise |
| `CallOutcomes.CancelledGivesUp` | src/lib/livekit.ts:700-705 | a start whose call was ended or replaced gives up at the next answer it gets, whatever the answer |
| `CallOutcomes.HangUpEnds` | src/lib/livekit.ts:874-884 | in every run, after a hang-up there is no active call until the next start, and once the work is done and no leave is pending the server has the user present nowhere |
| `CallOutcomes.RetryHeals` | src/lib/livekit.ts:824-830 | in every run, if no leave fails from a retry on, then once the work is done no leave is pending and presence is exactly the active call |
| `CallOutcomes.PendingIsElsewhere` | src/lib/livekit.ts:906-911 | in every run, once the work is done a leave is pending only for another target than that of the active call |
| `CallManager.CallManager.StartCall` | src/lib/livekit.ts:832-872 | takes the start step: a connected call to the same target is returned as it is, otherwise the new attempt is active and its start queued |
| `CallManager.CallManager.EndCall` | src/lib/livekit.ts:874-883 | a stale target or room changes nothing; otherwise no call is active and the release of the old attempt is queued |
| `CallManager.CallManager.RetryCallCleanup` | src/lib/livekit.ts:825-830 | queues a retry of every pending leave |
| `CallManager.CallManager.ReleasePresence` | src/lib/livekit.ts:797-823 | takes the release step of the state machine, up to its await |
| `CallManager.CallManager.ClearPendingLeaves` | src/lib/livekit.ts:904-911 | the loop over obsolete pending leaves of the same target, stopping at the first that has to be awaited |
| `CallManager.CallManager.RunNext` | src/lib/livekit.ts:852-871 | starts the next work item of the serialised queue |
| `CallManager.CallManager.Settle` | src/lib/livekit.ts:690-694 | with no further user action the queue empties, for every outcome of every remote call, and presence is then exact |
| `ReferenceKeys.OwnerKeyIsInjective` | server/src/storage_refs.rs:35-49 | the owner key of a row names the row, whatever characters a user name contains |
| `ReferenceKeys.ReferenceKeyIsInjective` | server/src/storage_refs.rs:35-49 | the primary key owner:storage key decodes uniquely for all four owner forms and any storage key |
| `ReferenceKeys.KeyHasOneScope` | server/src/storage_refs.rs:470-517 | no storage key fits two of the five scopes; a legacy scope names only its uploader |
| `StorageState.AttachmentStaysInScope` | server/src/storage_refs.rs:65-82 | a key two messages may both attach has one uploader, is nobody's avatar or icon, and, unless it is a legacy key, belongs to one channel or to threads with one partner |
| `StorageState.FitsEverywhereIff` | server/src/storage_refs.rs:65-82 | an attached key fits every channel and thread of its uploader if and only if it is a legacy key |
| `ReferenceKeys.AdmittedKeyIsUpload` | server/src/storage_refs.rs:470-517 | every key some scope admits starts with uploads/ |
| `ReferenceKeys.AdmittedIffMinted` | core-api/src/CoreApi/Services/StorageKey.cs:75-99 | the grammar of each scope admits exactly the keys the upload service builds for it, with any file name that is one path segment; for a legacy key any folder of a four-digit year and two segments |
| `StorageEffects.FitsIffMadeFor` | server/src/storage_refs.rs:62-82 | a message may carry a key exactly when it was built for its sender and its channel or thread, or is a legacy key of its sender |
| `Attachments.Keys` | server/src/storage_refs.rs:429-459 | an accepted content lists at most twenty keys, each once, all uploads |
| `Text.RFind` | server/src/storage_refs.rs:430 | finds the last occurrence, and nothing exactly when there is none |
| `Text.SplitIff` | server/src/storage_refs.rs:470-472 | a path splits into exactly the slash-free pieces it joins |
| `Text.DecimalMeans` | server/src/storage_refs.rs:474-482 | a number is written in base ten, most significant digit first, without leading zeros |
| `Attachments.TrimMeans` | server/src/storage_refs.rs:449 | trimming takes white space off both ends and all of it |
| `Attachments.CarriedKeysAreListedIff` | server/src/storage_refs.rs:429-459 | metadata behind the last opening marker is accepted if and only if it decodes to version 1 with at most twenty keys that are uploads once trimmed; then exactly the trimmed keys are listed, in the order of their first occurrences |
| `Attachments.UnmarkedKeys` | server/src/storage_refs.rs:430-435 | a content without an opening marker lists nothing; one that does not end with the closing marker is refused |
| `Attachments.ClosedMarkerCarries` | server/src/storage_refs.rs:430-436 | every content with an opening marker that ends with the closing one carries some metadata |
| `Attachments.AppendedIsCarried` | src/features/chat/attachmentPayload.ts:95-96 | whatever the text, metadata without a bracket that is appended to it between the markers is the metadata that is read |
| `Attachments.AttachmentKeys` | server/src/storage_refs.rs:429-459 | the keys of a content, trimmed and each once in order of first occurrence, or the error the decoder, the version, the count or a foreign key causes |
| `Attachments.MarkersDoNotOverlap` | server/src/storage_refs.rs:429-436 | the last prefix marker never overlaps the closing marker, so slicing between them cannot fail |
| `Fence.FencesAreToldApart` | server/src/storage_refs.rs:118-144 | without 64-bit overflow the init fence reads as the instant of init for exactly 500 years, and a restore fence never reads as one |
| `StorageTables.StorageModule.SyncMessageReferences` | server/src/storage_refs.rs:51-86 | replaces the rows of one owner by the keys of the content, or refuses and changes nothing; no insert hits an existing primary key |
| `StorageTables.StorageModule.SyncAvatarReference` | server/src/storage_refs.rs:173-192 | the same for the avatar of a user name |
| `StorageTables.StorageModule.SyncIconReference` | server/src/storage_refs.rs:194-212 | the same for a space icon |
| `StorageTables.StorageModule.RestoreMessageReferences` | server/src/storage_refs.rs:93-96 | a restored row never fails: unreadable metadata counts as empty and claimed keys are dropped |
| `StorageTables.StorageModule.RestoreSingleReference` | server/src/storage_refs.rs:98-108 | the same for avatar and icon columns, which also drop keys holding two dots |
| `StorageTables.StorageModule.RemoveReferences` | server/src/storage_refs.rs:214-227 | removes exactly the rows of one owner |
| `StorageTables.StorageModule.ReplaceReferences` | server/src/storage_refs.rs:418-427 | the new rows of one owner are exactly the given keys; each insert finds its primary key free |
| `StorageTables.StorageModule.SetRestoreFence` | server/src/storage_refs.rs:146-171 | sets the fence and withdraws trust in the index |
| `StorageTables.StorageModule.RebuildStorageReferences` | server/src/storage_refs.rs:235-297 | refuses behind a fence and then changes nothing; otherwise the loops over the four tables rebuild the index from any earlier one |
| `StorageTables.StorageModule.ReleaseStorageInitFence` | server/src/storage_refs.rs:307-326 | lifts only the init fence, and refuses when older objects exist |
| `StorageTables.StorageModule.ClaimUnreferencedStorage` | server/src/storage_refs.rs:331-403 | the claim loop over the submitted keys, duplicates and repeated claims included; every refusal changes nothing |
| `StorageTables.StorageModule.HasReference` | server/src/storage_refs.rs:374-380 | finds a reference exactly when some row holds the key |
| `StorageRuns.CallKeepsInv` | server/src/storage_refs.rs:51-427 | every accepted reducer call, whatever keys it carries, keeps: an index marked ready holds exactly the unclaimed keys of live rows, less the columns the last rebuild skipped and nobody has set since; claims never meet references |
| `StorageEffects.RebuildGoesThroughIff` | server/src/storage_refs.rs:235-255 | a rebuild goes through exactly for an administrator when the index is trusted already, there is no fence, or a restore fence is at least ten minutes back |
| `StorageEffects.ReleaseLiftsInitFence` | server/src/storage_refs.rs:307-326 | a release lifts the fence of a fresh database, after which a rebuild goes through at once, unless an object is older than the database |
| `StorageEffects.RestoreFencesTenMinutes` | server/src/storage_refs.rs:118-120 | after a restore an administrator can rebuild from ten minutes on and not before |
| `StorageEffects.ClaimGoesThroughIff` | server/src/storage_refs.rs:331-365 | a claim goes through exactly for an administrator, on a trusted index, under 32 hex digits and for at most 500 keys |
| `StorageEffects.SyncGoesThroughIff` | server/src/storage_refs.rs:51-86 | references are replaced exactly when the metadata is sound and every key is unclaimed and made for the sender and the channel or thread |
| `StorageEffects.SendMeans` | server/src/reducers/messages.rs:12-40 | a send goes through exactly when its content may be carried; its row then lists exactly the keys of the content and no other row changes what it lists |
| `StorageEffects.EditMeans` | server/src/reducers/messages.rs:43-82 | an edit is for the sender of a message that is not deleted, and replaces what its row lists |
| `StorageEffects.DeleteMeans` | server/src/reducers/messages.rs:85-111 | a deleted message keeps its row without text and lists nothing |
| `StorageEffects.DeleteChannelMeans` | server/src/reducers/channels.rs:98-110 | deleting a channel removes exactly its messages and what they list |
| `StorageEffects.SendDirectMeans` | server/src/reducers/direct_messages.rs:13-53 | the same for a direct message |
| `StorageEffects.EditDirectMeans` | server/src/reducers/direct_messages.rs:56-110 | the same for the edit of a direct message |
| `StorageEffects.DeleteDirectMeans` | server/src/reducers/direct_messages.rs:112-137 | a direct message keeps its files for the other side; the second of the two deletions removes the row and its references |
| `StorageEffects.NoteToSelfStays` | server/src/reducers/direct_messages.rs:121-134 | no deletion ever removes a direct message sent to oneself |
| `StorageEffects.ProfileMeans` | server/src/storage_refs.rs:173-192 | a changed avatar goes through exactly if it is empty or an unclaimed key made as an avatar of this user, and is then what the account lists |
| `StorageEffects.IconMeans` | server/src/storage_refs.rs:194-212 | the same for the icon of a space |
| `StorageEffects.DeleteServerMeans` | server/src/reducers/servers.rs:320-388 | deleting a space removes its row and the reference of its icon |
| `StorageEffects.RegisterMeans` | server/src/reducers/users.rs:12-75 | a registration takes a free, valid name for a new account, which is an administrator exactly if a grant is parked for it |
| `StorageEffects.RestoredRowIsReferenced` | server/src/storage_refs.rs:93-108 | a restored row is referenced by exactly its readable, unclaimed keys |
| `StorageEffects.RestoredMessagesMean` | server/src/reducers/archive.rs:88-106 | a batch puts each row, the last one of an id winning, and touches no other |
| `StorageEffects.RestoredDirectMessagesMean` | server/src/reducers/archive.rs:109-130 | the same for direct messages |
| `StorageEffects.RestoredServersMean` | server/src/reducers/archive.rs:214-232 | the same for spaces |
| `StorageEffects.RestoredUsersMean` | server/src/reducers/archive.rs:193-211 | the same for a batch of accounts that goes through |
| `StorageEffects.DistinctUsersAreRestored` | server/src/reducers/archive.rs:193-211 | a batch of accounts with distinct, free names goes through |
| `StorageRuns.TrustedIndexIsExactIff` | server/src/storage_refs.rs:236-297 | in every run a ready index lacks exactly the lost columns, so it equals the pairs of live row and listed unclaimed key if and only if no lost column lists an unclaimed key; ready or not, no claimed key is referenced |
| `StorageRuns.LostWasSkipped` | server/src/storage_refs.rs:98-108 | in every run a column counts as lost only since an accepted rebuild that found two dots in its key |
| `StorageRuns.RebuildIsExactIff` | server/src/storage_refs.rs:98-108 | a rebuild from any table makes the index exact if and only if no referable avatar or icon key holds two dots |
| `StorageRuns.RebuildCanLoseAnAvatar` | server/src/storage_refs.rs:173-192 | for every account name there is an avatar key that the profile update accepts and the next rebuild drops |
| `StorageRuns.SkippedKeyIsCollected` | server/src/storage_refs.rs:371-400 | straight after a rebuild a submitted key is claimed exactly when no row lists it in a form the rebuild reads |
| `StorageRuns.ClaimsAreSafeIff` | server/src/storage_refs.rs:371-416 | over whole runs a key is newly claimed exactly when an accepted claim submits it and every live row that lists it is a lost column; never a key a rebuild would read; no step takes a claim back |
| `StorageRuns.AvatarInUseCanBeCollected` | server/src/storage_refs.rs:371-403 | a run of three accepted calls, from any start without a fence, that claims an avatar key while the row lists it |
| `StorageRuns.ClaimsAreForever` | server/src/storage_refs.rs:405-416 | over whole runs a claim is never removed |
| `StorageRuns.RestoreIsRemembered` | server/src/storage_refs.rs:118-120 | over whole runs an accepted restore batch is never forgotten: the last restore known is at least as late |
| `StorageRuns.ClaimFollowsQuiet` | server/src/storage_refs.rs:240-253 | in every run with a non-decreasing clock no restore batch lies in the ten minutes before a claim that goes through |
| `StorageRuns.InitFenceHolds` | server/src/storage_refs.rs:131-144 | for 500 years after init no rebuild succeeds until a restore or a release went through |
| `StorageRuns.ReleaseKeepsRestoreFence` | server/src/storage_refs.rs:314-319 | a release after a restore leaves everything as it is |
| `StorageRuns.CleanupViewIsExact` | server/src/views.rs:547-586 | right after a claim with a new batch id the view shows, all under that batch id, the sentinel and one row for each submitted key that is unreferenced, with the time it was first claimed, and no other |
| `StorageRuns.ViewShowsNoReference` | server/src/views.rs:547-586 | in every run the view never shows a referenced key |
| `ArchiveRows.DecodeInvertsEncode` | archive-worker/Rebuild.cs:97-227 | for every row of all fourteen tables the reverse column map gives back every archived column |
| `ArchiveRows.RoundTripIsIdentityIff` | archive-worker/Replication.cs:65-70 | a row survives unchanged exactly when it is no user carrying a lockout or a token floor |
| `ArchiveRows.KeyOfIsInjective` | archive-worker/ArchiveDatabase.cs:184-197 | within a table the text of a primary key names the key, negative casts of large ids included |
| `ArchiveReplication.RetryRefinesOneRun` | archive-worker/ArchiveDatabase.cs:122-166 | a write stopped anywhere, a reconcile between two deletes included, and run again ends where one full run does |
| `ArchiveReplication.ReconcileAllMeans` | archive-worker/Replication.cs:212-263 | the guard refuses exactly without permission or on an empty snapshot, otherwise all fourteen tables are reconciled against their live keys |
| `ArchiveReplication.DeliveryCovers` | archive-worker/Replication.cs:268-292 | for every order of a transaction's callbacks the enqueued writes leave each live row archived with its live columns |
| `ArchiveReplication.DeliveryIsExactIff` | archive-worker/Replication.cs:268-292 | without a rising edge the archive is exact after a transaction if and only if every archived row was live before it or after it |
| `ArchiveReplication.ReconcilesOnRisingEdge` | archive-worker/ReplicationWorker.cs:133-145 | reconcile requests come from the rising edge of a transaction and from nothing else |
| `ArchiveReplication.ReconcileIsExact` | archive-worker/Replication.cs:249-262 | a reconcile of all tables, anywhere among the writes of a snapshot, ends in exactly the live table |
| `ArchiveRuns.ArchiveCoversLive` | archive-worker/Replication.cs:268-292 | at every moment of every run, reconnects with old writes in the queue included, draining the queue gives each live row its live columns |
| `ArchiveRuns.ArchiveIsExact` | archive-worker/ReplicationWorker.cs:133-161 | from a rising edge over a snapshot that is not empty, while deleting stays allowed, the drained archive is exactly the live table |
| `ArchiveRuns.FirstConnectionConverges` | archive-worker/ReplicationWorker.cs:133-161 | whatever the archive holds, a first connection to a module with any table of at least one row, with deleting allowed, has a run that ends with exactly that table |
| `ArchiveRuns.StampedCountsAreTrue` | archive-worker/ArchiveDatabase.cs:149-161 | the row counts a rising edge stamps, the subscription's own included, are the true sizes of the archive tables |
| `ArchiveRuns.DeletionIsGated` | archive-worker/Replication.cs:274-291 | without permission only upserts are enqueued, from an empty snapshot no reconcile, and never a delete of a live key |
| `ArchiveRuns.RefusedReconcileIsNotRetried` | archive-worker/ReplicationWorker.cs:133-145 | after a reconcile refused for an empty snapshot none is enqueued until deleting has been forbidden once |
| `ArchiveRuns.RefusedEdgeIsExactIff` | archive-worker/Replication.cs:247-255 | at every moment after a refused reconcile, by the subscription or by a delivery, while deleting stays allowed, the drained archive is exact if and only if each place it held at the refusal was live then or has been taken since |
| `ArchiveRuns.StaleRowsStay` | archive-worker/Replication.cs:247-255 | from a refused reconcile on, while deleting stays allowed, the drained archive holds the live places and exactly those it held at the refusal that no row has taken since |
| `ArchiveRuns.RefusalCanKeepStaleRows` | archive-worker/ReplicationWorker.cs:133-153 | a run in which the subscription finds an empty module and whatever the archive held stays |
| `ArchiveRuns.ConsumerKeepsDrained` | archive-worker/ArchiveDatabase.cs:74-104 | failed tries and finished writes of the consumer never change what the queue will make of the archive |
| `ArchiveFence.UntrustedUntilRebuild` | server/src/views.rs:512-524 | in every run, from the start or an accepted restore until an accepted rebuild, the status view forbids deleting |
| `ArchiveFence.RemovalFollowsRebuild` | server/src/views.rs:512-524 | for every run of module and worker, with a view that may be late, whatever is enqueued that removes archived rows follows an accepted rebuild no restore has followed, ten minutes after every earlier restore and, for 500 years, after a restore or a release |
| `ArchiveFence.RebuildAllowsDeletes` | server/src/storage_refs.rs:288-296 | an accepted rebuild makes the status the worker sees allow deletes again |
| `ArchiveFence.ArchiveSurvivesRestore` | server/src/views.rs:508-524 | no archived row is removed while the worker sees a module between its wiped start, or a restore, and the next rebuild, across failed writes and restarts |
| `ArchiveWorker.ArchiveDatabase.Enqueue` | archive-worker/ArchiveDatabase.cs:107-114 | appends one write to the queue |
| `ArchiveWorker.ArchiveDatabase.ReadKeys` | archive-worker/ArchiveDatabase.cs:126-138 | the dictionary of archived keys by their text loses no key of the table |
| `ArchiveWorker.ArchiveDatabase.RunReconcile` | archive-worker/ArchiveDatabase.cs:140-161 | deletes exactly the archived rows that are not live, then stamps; an outage stops it between any two statements |
| `ArchiveWorker.ArchiveDatabase.TryRun` | archive-worker/ArchiveDatabase.cs:82-87 | one try of one write, which may fail before or after it took effect |
| `ArchiveWorker.ArchiveDatabase.RunNext` | archive-worker/ArchiveDatabase.cs:76-103 | retries one write, with its growing delay, until it is through exactly as if it had run once |
| `ArchiveWorker.ArchiveDatabase.RunConsumer` | archive-worker/ArchiveDatabase.cs:74-104 | the drained archive is what one run of every queued write in order makes of it, for every pattern of failures |
| `ArchiveWorker.Replication.OnDelete` | archive-worker/Replication.cs:274-291 | scans the cache and enqueues a delete exactly when deleting is allowed and no live row has the key |
| `ArchiveWorker.Replication.Build` | archive-worker/Replication.cs:299-306 | the snapshot is exactly the set of live keys of the table |
| `ArchiveWorker.Replication.ReconcileEverything` | archive-worker/Replication.cs:212-263 | builds all requests before it enqueues any, behind the two guards |
| `ArchiveWorker.Replication.ReconcileWhenReady` | archive-worker/ReplicationWorker.cs:137-143 | reconciles on a rising edge only and remembers whether deleting is allowed |
| `ArchiveWorker.Replication.OnApplied` | archive-worker/ReplicationWorker.cs:148-153 | the applied subscription counts as a status change |
| `ArchiveWorker.Replication.OnTransaction` | archive-worker/Replication.cs:268-292 | runs the callbacks of a transaction, in any order, against the cache after it |
| `ArchiveRebuild.BatchesConcatenate` | archive-worker/Rebuild.cs:219-227 | the batches are as few as possible, at most 500 rows each, and concatenate to the list |
| `ArchiveRebuild.ConfirmedRestore.Complete` | archive-worker/ConfirmedRestore.cs:10-19 | the first outcome of the pending batch is kept, any other is dropped |
| `ArchiveRebuild.ConfirmedRestore.Execute` | archive-worker/ConfirmedRestore.cs:21-48 | what the wait saw last decides the answer: it returns normally if and only if that was the commit of the batch, and otherwise with the refusal, the passed deadline or the cancellation; none leaves a batch pending |
| `ArchiveRebuild.ConfirmedRestore.SubmitAll` | archive-worker/Rebuild.cs:219-227 | returns normally if and only if no batch was refused, timed out or was cancelled, and then every batch committed once and in order; on an error a prefix of the batches did. A call is only ever sent with none in flight |
| `ArchiveRebuild.ReadTable` | archive-worker/Rebuild.cs:88-227 | reads every archived row of a table once, in any order, or raises on a column that does not decode |
| `ArchiveRebuild.Run` | archive-worker/Rebuild.cs:26-84 | stops before the first batch if and only if a column does not decode; otherwise returns normally if and only if no batch was refused, timed out or was cancelled, and then the module committed exactly the decoded rows of all fourteen tables, each once |
| `ArchiveRoundTrip.RoundTrip` | archive-worker/Rebuild.cs:26-84 | replicate, drain, wipe, rebuild: after any run of the worker the rebuilt module holds exactly the archived columns of every live row |
| `ArchiveRoundTrip.RebuildExact` | archive-worker/Rebuild.cs:26-84 | from an exact archive the rebuild never meets a bad column; it returns normally if and only if no batch was refused, timed out or was cancelled, and then the module is rebuilt |
| `ArchiveRoundTrip.RebuildIsIdentityIff` | archive-worker/Replication.cs:65-70 | the rebuilt rows are the live rows themselves exactly when no account carries a lockout or a token floor |
| `UploadState.PartsPartitionFile` | src/lib/uploads.ts:194-196 | every byte of the file lies in exactly one part |
| `UploadState.StepKeepsInv` | src/lib/uploads.ts:194-236 | every launch, progress report, finished try, failed try and settling keeps parts disjoint and bytes counted |
| `UploadState.EventDoesWork` | src/lib/uploads.ts:194-236 | every event but a progress report lowers the work left |
| `UploadState.FailureClosesPool` | src/lib/uploads.ts:216-221 | right after a failed try no further part is launched |
| `UploadState.ReportedChanges` | src/lib/uploads.ts:186-218 | progress shows the loaded bytes capped at the part, a finished part counts in full and never lowers the report, a failed try takes its bytes back |
| `UploadRuns.RunIsBounded` | src/lib/uploads.ts:180-236 | at all times finished bytes plus bytes under way fit the file, at most four parts are in the pool, and no part is tried four times |
| `UploadRuns.UploadIsComplete` | src/lib/uploads.ts:170-236 | a run that ends without a failure uploaded every byte once, in a part complete at the start or put through exactly once, and counted all of it |
| `UploadRuns.RunIsShort` | src/lib/uploads.ts:225-236 | no run has more than five steps a part, whatever fails |
| `UploadRuns.NeverStuck` | src/lib/uploads.ts:225-236 | a run that has not ended can go on |
| `UploadRuns.FirstFailureIsFinal` | src/lib/uploads.ts:195-230 | the first failure is kept, and from then on no try is started |
| `UploadRuns.FailureIsEarned` | src/lib/uploads.ts:198-222 | in every run a failure is the error of a part whose third try failed, or the report that storage is full |
| `UploadRuns.WidthFollowsSpeed` | src/lib/uploads.ts:209-218 | as long as no try fails the pool gets one part wider for every fast part, up to four, and one narrower for every slow one, down to one; it starts with one and a failed try narrows it to one |
| `UploadRuns.PartsStartInOrder` | src/lib/uploads.ts:180-184 | parts are started once each in ascending order |
| `Upload.CheckParameters` | src/lib/uploads.ts:162-166 | accepts exactly positive sizes whose part count is the rounded-up quotient |
| `Upload.CountCompleted` | src/lib/uploads.ts:170-175 | adds up the parts the server has, or refuses a number that is no part |
| `Upload.MultipartUpload.Report` | src/lib/uploads.ts:186-190 | the reported bytes never exceed the file |
| `Upload.MultipartUpload.OnPut` | src/lib/uploads.ts:208-214 | counts a finished part and adapts the width of the pool |
| `Upload.MultipartUpload.OnFailedTry` | src/lib/uploads.ts:198-222 | narrows the pool to one and retries, unless storage is full, it was the last try, or another part gave up |
| `Upload.MultipartUpload.Run` | src/lib/uploads.ts:225-236 | the pool loop terminates; it returns normally exactly without a failure, and then every part is complete once and all bytes are counted; it fails only when storage is full or a part had its three tries |
| `Upload.UploadMultipart` | src/lib/uploads.ts:156-237 | the whole call, with its two refusals |
| `IdAllocation.IssuedIdsIncrease` | server/src/helpers.rs:262-281 | over every interleaving of inserts, deletes, restores and reseeds, issued ids strictly increase and are free |
| `IdAllocation.StepMeans` | server/src/helpers.rs:262-311 | an insert adds the first free id from the counter on; a restore or reseed leaves the counter above every id restored or present |
| `IdAllocation.ReuseIsImpossibleIff` | server/src/helpers.rs:262-281 | once a counter exists no insert can ever get an id used before it, in the run or earlier, if and only if every id ever used lies below the counter |
| `IdAllocation.FirstCounterIsSafeIff` | server/src/helpers.rs:283-311 | a restore or reseed that creates the counter is safe exactly when no larger id was used and deleted before |
| `IdAllocation.ReseedCanReuse` | server/src/reducers/archive.rs:257-284 | a concrete table whose reseed hands a deleted id out again |
| `IdAllocation.RaiseIsMax` | server/src/helpers.rs:291-311 | raising is a maximum: never lower, above every id, and no higher than one of them asks for |
| `IdAllocation.RaiseOrderIsImmaterial` | server/src/helpers.rs:283-290 | restores replayed in any order and number end at the same counter |
| `IdAllocation.IdCounters.AllocId` | server/src/helpers.rs:262-281 | the first free id from the counter on; the occupied ids ahead bound the loop; wraps at the 64-bit limit |
| `IdAllocation.IdCounters.RaiseCounter` | server/src/helpers.rs:291-311 | raises one counter, never lowers it, ignores zero, touches no other table |
| `IdAllocation.IdCounters.RestoreRows` | server/src/reducers/archive.rs:140-156 | restores rows under their ids and raises the counter by their maximum |
| `IdAllocation.IdCounters.Reseed` | server/src/reducers/archive.rs:257-284 | raises the counter by the largest row of the table |
| `Paging.OlderOfSorted` | server/src/procedures.rs:98-103 | filtering before sorting, as the procedure does, is cutting the sorted history |
| `Paging.PageIsStretch` | server/src/procedures.rs:98-103 | a page is the stretch of the sorted history that ends where the cursor cuts |
| `Paging.ShortPageIsLast` | src/lib/spacetimedb/history.ts:46-53 | a page shorter than asked for leaves nothing older behind |
| `Paging.PageAdjoinsIff` | server/src/procedures.rs:98-103 | a page closes up with what is held if and only if the row below it is older than the cursor |
| `Paging.PagingIsCompleteIff` | server/src/procedures.rs:98-103 | with any page sizes, paging from the newest 200 to the end gives exactly the sorted history if and only if no two neighbours below the window tie at the client's precision |
| `Paging.PagesMeetIff` | server/src/procedures.rs:98-103 | for any one list of page sizes, the pages make up exactly the sorted history if and only if they reach its start and no request stops between two rows that tie at the caller's precision |
| `Paging.TiedStopLosesRow` | server/src/procedures.rs:98-103 | the first stop inside a tie loses the row below it for good, whatever is asked for afterwards |
| `Paging.LoadToShortPage` | src/lib/spacetimedb/history.ts:36-60 | the client's own paging, 100 rows until a short page, terminates, and ends with the sorted history if and only if no such page starts inside a tie |
| `Paging.DistinctTimesSuffice` | server/src/procedures.rs:98-103 | distinct times are enough for a caller that keeps microseconds |
| `Paging.MillisecondsLoseRows` | src/lib/spacetimedb/history.ts:25-27 | they are not enough for the web client: when the window starts between two rows of one millisecond, the older one is in no page, whatever sizes are asked for |
| `Paging.TakeNewest` | server/src/views.rs:40-44 | the newest 200 rows, oldest first |
| `Paging.TakeOlder` | server/src/procedures.rs:98-103 | the newest rows older than the cursor, oldest first |
| `Paging.LoadPage` | src/lib/spacetimedb/history.ts:36-60 | one request keeps the held rows sorted and without repeats, and an empty page means the end |
| `Paging.LoadHistory` | src/lib/spacetimedb/history.ts:36-60 | asking until a page is empty terminates, never shows a row twice, and with separated times ends with the sorted history |
| `DirectThreads.ThreadsAgree` | server/src/procedures.rs:164-185 | for every partner, the caller included, the view and the procedure select the same rows in the same order |
| `DirectThreads.ThreadIsExact` | server/src/procedures.rs:164-185 | a thread holds each message between the two once, notes to self included, and no other |
| `DirectThreads.GroupByPartner` | server/src/views.rs:318-333 | one pass over both lookups fills the bucket of every partner with its deduplicated thread |
| `DirectThreads.MyDirectMessages` | server/src/views.rs:312-339 | the view shows the newest rows of every thread and of no other partner |
| `DirectThreads.LoadOlderDirectMessages` | server/src/procedures.rs:152-187 | a page is cut from the very thread the view shows |
| `MessageMerge.MergeMeans` | src/stores/messagesStore.ts:21-27 | a merge shows each id once, the live copy of every live id, the older rows that are not live, oldest first |
| `MessageMerge.FetchedRowsStay` | src/stores/messagesStore.ts:54-74 | whatever syncs, pages and new messages follow, no row of a fetched page is lost |
| `MessageMerge.SyncShowsWindowAndPages` | src/stores/messagesStore.ts:54-62 | after a window sync the list is sorted, has each id once, shows the live copy of window rows and the fetched rows besides |
| `MessageMerge.SlidesOutIff` | src/stores/messagesStore.ts:54-62 | a shown row survives a sync exactly when the window or a fetched page has its id |
| `MessageMerge.AppendMeans` | src/stores/messagesStore.ts:75-98 | a new message goes to the end, one with a shown id takes that place, nothing else changes |
| `MessageMerge.AppendedIsShown` | src/stores/messagesStore.ts:54-98 | an appended message stays shown, through any pages and other messages, until a newer copy or the next window sync |
| `MessageMerge.LastPageDecides` | src/stores/messagesStore.ts:63-74 | whether more history exists is what the page last fetched said |
| `MessageMerge.MergeHistory` | src/stores/messagesStore.ts:21-27 | the two loops into the insertion-ordered map, then the stable sort |
| `MessageMerge.MessagesStore.SetChannelMessages` | src/stores/messagesStore.ts:54-62 | replaces the live window of one channel and no other |
| `MessageMerge.MessagesStore.PrependOlderMessages` | src/stores/messagesStore.ts:63-74 | merges a page into the older rows and these into what is shown |
| `MessageMerge.MessagesStore.AppendMessage` | src/stores/messagesStore.ts:75-98 | replaces a message in place or appends it |
| `ServerRail.SyncShowsExactly` | src/stores/serverRailStore.ts:36-80 | a sync keeps the partition and makes the rail show exactly the given servers |
| `ServerRail.SyncKeepsOrder` | src/stores/serverRailStore.ts:62-77 | a sync leaves the items it keeps in the order they had |
| `ServerRail.CreateGroupKeepsPartitionIff` | src/stores/serverRailStore.ts:84-97 | with a new group id, grouping two servers keeps the partition exactly when they differ and neither is in a group |
| `ServerRail.ReusedGroupIdBreaksPartition` | src/stores/serverRailStore.ts:26-28 | a group id taken from the clock twice in one millisecond always breaks the partition |
| `ServerRail.CreateGroupConserves` | src/stores/serverRailStore.ts:84-97 | grouping two top-level servers conserves the ids |
| `ServerRail.AddToGroupKeepsPartitionIff` | src/stores/serverRailStore.ts:99-107 | adding to a group keeps the partition exactly when it changes nothing or the server is in no group |
| `ServerRail.AddToGroupConserves` | src/stores/serverRailStore.ts:99-107 | adding a top-level server conserves the ids |
| `ServerRail.RemoveFromGroupConserves` | src/stores/serverRailStore.ts:109-127 | leaving a group, dissolved or not, always keeps the partition and conserves the ids |
| `ServerRail.CosmeticsConserve` | src/stores/serverRailStore.ts:129-141 | collapsing and renaming keep the partition and the ids |
| `RailEffects.RemoveFromGroupMeans` | src/stores/serverRailStore.ts:109-127 | the server becomes top-level and leaves its group: right behind the group when two members remain, otherwise behind the remaining member in the place of the group, which is gone |
| `RailEffects.RemoveFromGroupIgnores` | src/stores/serverRailStore.ts:109-112 | a server the group does not have changes nothing; one it has is found |
| `RailEffects.CreateGroupMeans` | src/stores/serverRailStore.ts:84-97 | the group stands in the place of the target, with the target and then the source as members, not collapsed |
| `RailEffects.CreateGroupInFront` | src/stores/serverRailStore.ts:93-96 | when the target is not on the top level the group stands in front |
| `RailEffects.AddToGroupMeans` | src/stores/serverRailStore.ts:99-107 | the server leaves the top level and becomes the last member |
| `RailEffects.CosmeticsMean` | src/stores/serverRailStore.ts:129-141 | collapsing flips one flag, renaming sets one title |
| `RailEffects.SyncKeepsGroup` | src/stores/serverRailStore.ts:53-76 | a group keeps its listed members, title and state if two or more are left; otherwise it is dissolved and a member left stands on the top level |
| `RailEffects.SyncAppendsNew` | src/stores/serverRailStore.ts:48-79 | servers not shown before go to the end in the order of the list; a list that names what is shown changes nothing |
| `RailStore.ServerRailStore.SyncServers` | src/stores/serverRailStore.ts:36-80 | the loops over order and record take the sync step |
| `RailStore.ServerRailStore.CreateGroup` | src/stores/serverRailStore.ts:84-97 | takes the grouping step, splicing the group into the target's place or to the front |
| `RailStore.ServerRailStore.AddToGroup` | src/stores/serverRailStore.ts:99-107 | takes the adding step |
| `RailStore.ServerRailStore.RemoveFromGroup` | src/stores/serverRailStore.ts:109-127 | takes the leaving step and keeps the partition |
| `Notifications.SevenSpanTheWindow` | src/lib/notifications.ts:193-198 | any seven notifications let through span more than ten seconds |
| `Notifications.SameKeyIsSpaced` | src/lib/notifications.ts:200-212 | two let through with the same key are at least two seconds apart |
| `Notifications.ShownIff` | src/lib/notifications.ts:193-212 | a call is shown if and only if it is not muted, no call with its key passed less than two seconds before, and the sixth last one shown lies more than ten seconds back |
| `Notifications.Notifier.ShouldRateLimit` | src/lib/notifications.ts:193-198 | the shifted list is exactly the times of the last ten seconds |
| `Notifications.Notifier.SeenRecently` | src/lib/notifications.ts:200-212 | remembers a key that passes and prunes exactly the keys older than four windows |
| `Notifications.Notifier.Notify` | src/lib/notifications.ts:332-343 | the pruned map and the shifted list decide every call as the whole unpruned history does |
| `Notifications.QuietHoursAreCircular` | src/lib/notifications.ts:179-191 | the two branches are membership in one stretch of the clock face modulo a day |

## Left out

- Base64 and JSON decoding of attachment metadata: the decoder is an arbitrary partial function from text to a version and a list of keys.
- Reducer checks that only refuse more calls (permissions, membership, lengths, rate limits): the runs quantify over every choice of accepted calls. Reducer bodies are modelled only as far as they touch listed objects.
- Storage: a restored account row may carry any name. With a colon in it two references could share a primary key; the insert then aborts the call, and an aborted call is one the runs do not contain.
- Identity merging (`rekey_identities`), which can delete a placeholder account without touching its avatar rows, is no step of the storage model.
- Clock values beyond about the year 290000: the fence arithmetic is proved free of overflow below that, and its behaviour beyond it is not modelled.
- Calls: sign-out, page reload and socket loss. One epoch and one connection are modelled, so the comparisons of epoch and identity always succeed; a reload would add presence rows of a dead connection.
- Calls: room connection, microphone and token steps are one step that succeeds, fails or is cancelled. Remote calls are applied or fail without effect.
- Archive: registration of the worker's identity, waiting for the schema, token handling and SQL. A statement is one atomic step on maps, and time stamps of reconciles are not recorded.
- Archive: an identity is the hexadecimal text the archive stores, taken to be a bijection. Enum columns are read by name; the numeric spellings the library's parser would also take are not.
- ArchiveRebuild.ConfirmedRestore.Execute: the one-minute deadline is an arbitrary number of polls, and cancellation is noticed before a poll, not during the pause after it.
- Uniqueness constraints besides primary keys (user names, pinned messages) during a rebuild.
- Uploads: sessions, part addresses, abort calls and real time. Whether a part was fast is arbitrary, and progress reports come in any number and order.
- Upload.CheckParameters: sizes are natural numbers; a missing size reads as zero.
- IdAllocation.IssuedIdsIncrease: below the 64-bit limit. `AllocId` itself models the wrap-around of the release build.
- Paging: the history does not change between two requests. The stable sort of the standard library is a function.
- Messages: the client compares times as text; ISO texts of one length order as their times do.
- MessageMerge: contiguity of the shown list. Rows that slide out of the window before any page holds them disappear, as `SlidesOutIff` says.
- Rail: `setOrderAndGroups`, which stores whatever the drag handler passes.
- Notifications: what mutes a call (preferences, toggles, focus) is one input, as is the parsing of quiet hours; showing the notification may fail afterwards and still counts.
- The direct-message store, the other views, role checks, and all rendering, media and shell code: one branch each, or the same merge again.
