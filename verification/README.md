# Idiolect learning pipeline: a verified model

Idiolect captures dictation on a phone or a desktop, stores every take with its audio as a learning, ships the phone's
learnings to a personal PC, and trains adapters there. This project models that pipeline and proves what it keeps.

**The store** (`Tables`, `StoreInvariant`, `StoreLaws`, `Stories`, `RecurringKeys`, `Deletion`, `MetadataStore`). The
metadata database is one value of type `Db`; every write transaction is a function from a database to a new one or an
error, and the class `MetadataStore` runs the same transactions statement by statement, proved equal to those functions.
A run is any sequence of commands. In every run the tables are a projection of the event log, every foreign key
resolves, replayed commands change nothing, every row says what the commands said, and the keys the store makes up for
itself never collide with one another.

**Audio and the storage cap** (`AudioStore`, `Eviction`, `StorageCap`). Object keys, the write-once file store, and the
oldest-first eviction loop with its saturating 64-bit total.

**Sync** (`Hosts`, `Ingest`, `IngestLaws`, `IngestRuns`, `SyncClient`, `SyncProtocol`, `SyncRound`, `Journey`). The PC's
batch ingest, the phone's export and confirmation, and both under a network that loses, repeats and reorders and a disk
that may fail between commit and digest, with a PC that dictates, prunes and forgets by itself: no recording is lost on
the way, and what the PC trains on is what the phone's commands said.

**The phone's take machine** (`StreamingTake`, `Ffi`, `FfiLaws`, `Typing`, `Screen`, `EphemeralTakes`, `LastCommit`).
Snippets fold into a preview and a recording; the class `Inner` drives the store from keyboard events, sync
confirmations and restarts. What is typed, composed on the screen and reported is proved over its runs.

**The adapter registry** (`Adapters`, `AdapterStack`). Timestamps and derivation records, proved to be an undo stack.

**Algorithms** (`Vad`, `Containers`, `Calendar`, `DeviceTokens`, `StderrTail`, `Notification`). Speech segmentation, the
two byte containers, the calendar conversion with the token map, and the bounded error tail with the notification made
of it.

What comes from outside is a parameter: the clock (`now`, a number of milliseconds), random session ids, the content
digest and the token hash (functions; where a property needs it, without collisions), speech labels, decode results,
encoded packets, and how the disk takes a write. A recording may land whole, be refused, or stop part of the way and
leave a partial file; the token file is written or not. Deleting a file always works. Which characters beyond ASCII are
letters or digits is a constant without a given value, so what is proved holds for every answer.

## What the proofs found

Some promises of the code hold only under a condition, and some of its comments say more than it does. Each is a lemma.

- `RecurringKeys.RecurringEventsCollideIff`: a settings change, a history prune or a history delete is refused for its
  key exactly when a commit or cancel in the log carries that very key; `RecurringKeys.ReservedKeyBlocksTheStore` is
  such a run. The comment that event rows are never deleted is wrong (a privacy delete deletes them), yet the sequence
  stays sound because that delete always appends an event.
- `StoreLaws.PayloadTellsApartIff`: the ledger compares printed payloads, so two different preedits can count as one; an
  edit is safe exactly when the arrow printed between its texts is the only one.
- `StoreLaws.PreeditFailures`: a preedit is refused by the unique index when a correction has taken its index, which
  every correction does to the coming preedit (`StoreLaws.CorrectionTakesIndex`; from the empty store,
  `StoreLaws.PreeditRefused`).
- `Deletion.PrivacyDeleteClearsLogIff`: a privacy delete clears the log of the user's session events exactly when every
  session the log knows is still stored. Retention removes session rows and keeps the log, so the transcripts of expired
  sessions outlive every later privacy delete: `Deletion.RetentionOutlivesDelete`, and from the empty store in four
  commands `Deletion.TranscriptOutlivesDelete`.
- `Eviction.CapBoundsCapturedIff`: one call of the storage cap leaves the captured recordings under it exactly when the
  user's data was never deleted or they fitted before; `Eviction.CapOutgrown` dictates past any cap in three commands.
- `Eviction.EvictsLeastPrefixIff`: the cap evicts the least prefix exactly while the sizes add up within 64 bits.
  `Eviction.SurvivorsKeepAudioIff`: what stays captured keeps its recording exactly when no two candidates share one,
  which two commits of one session do.
- `IngestRuns.PrunedReplayIsAcceptedInVain`: after retention on the PC, a batch delivered again is accepted whole and
  ends without a single training candidate. `IngestRuns.InterruptedReplayIsAcceptedInVain`: after a disk failure between
  commit and digest at any learning of a batch, the redelivered batch is accepted whole, but that learning's recording
  lands under a second session that is left open.
- `Adapters.PromoteThenRollback`, `AdapterStack.RepromotionBreaksTheStack`: rollback undoes a promotion exactly when the
  replaced adapter is not blocked and has the newest first promotion.
- `EphemeralTakes.EphemeralTakeDisarmsIff`: ending a transcription-only take disarms field corrections, except that
  cancelling it leaves the take before it armed.
- `StreamingTake.AnnouncedOnceIff`: a decode failure is announced once per change of code, so once per code exactly when
  no code returns after another. `StreamingTake.RecordingIsWholeIff`: a take's recording is whole exactly when no
  snippet with audio in it failed to decode, although a comment says the audio is always kept.
- `Screen.StopClearsScreenIff`: a one-shot take that fails to stop leaves its preview composed in the field, although
  the core has forgotten it, exactly when there was a preview.
- `Notification.NotificationBody`: the hint at the end of a failure notification is not escaped, so the body is harmless
  markup exactly when the hint given to the reporter is; with a log file, exactly when its path is
  (`Notification.LogPathDecides`).
- `DeviceTokens.FailedWriteIsLostIff`: an operation on the tokens whose write fails is undone by the next restart, which
  shows exactly when it would have changed something; `DeviceTokens.FailedRevocationsComeBack`: revoked tokens verify
  again.

## Model

| member | source | states |
|---|---|---|
| StoreInvariant.CommandKeeps | crates/idiolect-adapter-sqlite/src/repository.rs:2092-2443 | every command on a valid database fails or leaves one in which tables and log agree and all links resolve |
| StoreInvariant.EveryReachableStateIsValid | crates/idiolect-adapter-sqlite/src/repository.rs:2092-2560 | the same for every sequence of commands from an empty database |
| StoreLaws.ReplayIsOrderFree | crates/idiolect-adapter-sqlite/src/repository.rs:2370-2443 | replaying a session's events gives committed if any commit, else cancelled if any cancel, else created |
| StoreLaws.ProjectionMatchesLog | crates/idiolect-adapter-sqlite/src/repository.rs:2203-2443 | in every reachable state a session's state is read off its events, its candidates are as many as its commits, its `preedit_update` rows as many as its preedit events, and it has at most one committed and one cancelled history row |
| StoreInvariant.CommitCandidates | crates/idiolect-adapter-sqlite/src/repository.rs:2300-2353 | a commit keeps a session's candidates equal to its commit events, one for one and in order |
| StoreInvariant.EditsGrow | crates/idiolect-adapter-sqlite/src/repository.rs:2203-2268 | a preedit keeps `preedit_update` rows equal to preedit events |
| StoreLaws.ReplayedCommandChangesNothing | crates/idiolect-adapter-sqlite/src/repository.rs:1955-1977 | repeating a successful commit, cancel or preedit at any later time, also after retention, succeeds and changes nothing; the same key with another kind or payload is a conflict |
| StoreLaws.LedgerDecides | crates/idiolect-adapter-sqlite/src/repository.rs:1932-1977 | a command whose key is logged is decided by the logged kind and payload alone |
| StoreLaws.PayloadTellsApartIff | crates/idiolect-adapter-sqlite/src/repository.rs:2211-2222 | an edit is told apart from every other edit of its index if and only if the only arrow in its printed form is the printed one |
| StoreLaws.DifferentEditsOnePayload | crates/idiolect-adapter-sqlite/src/repository.rs:2211-2222 | two different preedits of one index can have one payload, and then the second is silently dropped |
| StoreLaws.CommitFailures | crates/idiolect-adapter-sqlite/src/repository.rs:2270-2365 | a commit fails exactly for an unknown session, a missing transcript or a key conflict, never for the candidate key index |
| StoreLaws.PreeditFailures | crates/idiolect-adapter-sqlite/src/repository.rs:2231-2268 | a fresh preedit of a known session fails exactly when a correction has taken its index |
| StoreLaws.CorrectionTakesIndex | crates/idiolect-adapter-sqlite/src/repository.rs:1035-1104 | any correction takes the session's next index, and the preedit of that index is then refused |
| StoreLaws.PreeditRefused | crates/idiolect-adapter-sqlite/src/repository.rs:2231-2268 | the same from the empty store, in two commands |
| StoreLaws.DeletedSessionsStayDeleted | crates/idiolect-adapter-sqlite/src/repository.rs:1568-1651 | after a privacy delete no replayed command brings a deleted session back or changes anything |
| StoreLaws.DeletedUserShipsNothing | crates/idiolect-adapter-sqlite/src/repository.rs:1274-1319 | after a privacy delete that user's outbox and manifest feed are empty in every later state |
| StoreLaws.LeftForGood | crates/idiolect-adapter-sqlite/src/repository.rs:1264-1269 | a candidate that left the outbox never returns to it, and its id is never reused |
| RecurringKeys.RecurringEventsCollideIff | crates/idiolect-adapter-sqlite/src/repository.rs:2475-2549 | in every run the event sequence exceeds every earlier id, also after privacy deletes, and a prune, history-delete or settings event is refused for its key if and only if a commit or cancel in the log carries it |
| RecurringKeys.DeletionKeyTakenIff | crates/idiolect-adapter-sqlite/src/repository.rs:1637-1648 | in every run the key of the coming privacy deletion is taken if and only if a caller used it for a session the deletion leaves alone |
| RecurringKeys.PlainKeysNeverCollide | crates/idiolect-adapter-sqlite/src/repository.rs:1983-1989 | a run whose commits and cancels avoid the reserved prefixes never has one of these keys taken |
| RecurringKeys.DeletionKeysApart | crates/idiolect-adapter-sqlite/src/repository.rs:1637-1648 | privacy-deletion keys of two users or two deletions never agree |
| RecurringKeys.ReservedKeyBlocksTheStore | crates/idiolect-adapter-sqlite/src/repository.rs:2529-2549 | a commit under a reserved key makes the coming settings change fail |
| Deletion.PruneIsExact | crates/idiolect-adapter-sqlite/src/repository.rs:772-847 | retention removes all rows of the expired sessions, keeps the event log as it was with their transcripts in it, touches nothing else, and leaves all links whole |
| Deletion.PrivacyDeleteIsExact | crates/idiolect-adapter-sqlite/src/repository.rs:1568-1651 | a privacy delete on any linked database leaves no row of that user and no event of the sessions still stored for that user; everybody else's sessions, utterances, manifests and items and every other event stay, and all links are whole |
| Deletion.PrivacyDeleteRefusal | crates/idiolect-adapter-sqlite/src/repository.rs:1568-1651 | on any linked database it is refused exactly when another user's manifest holds one of that user's candidates, or its key is on an event it does not delete |
| Deletion.ReachableDeleteRefusal | crates/idiolect-adapter-sqlite/src/repository.rs:1568-1651 | in every run such a key was a caller's, on a commit or cancel of a session that is not deleted |
| Deletion.PrivacyDeleteClearsLogIff | crates/idiolect-adapter-sqlite/src/repository.rs:1604-1611 | in every run a privacy delete leaves no session event in the log if and only if every session with an event is still stored |
| Deletion.RetentionOutlivesDelete | crates/idiolect-adapter-sqlite/src/repository.rs:772-847 | after retention the events of the expired sessions stay in the log through any later commands, privacy deletes included |
| Deletion.TranscriptOutlivesDelete | crates/idiolect-adapter-sqlite/src/repository.rs:1604-1611 | from the empty store: create, commit, retention, privacy delete leave both transcripts in the log |
| StoreInvariant.OrderKept | crates/idiolect-adapter-sqlite/src/repository.rs:1604-1611 | deleting session events keeps ids increasing and keys unique |
| StoreInvariant.ReplayKept | crates/idiolect-adapter-sqlite/src/repository.rs:1604-1611 | deleting some sessions' events changes no other session's reading |
| Stories.SessionsTellTheRun | crates/idiolect-adapter-sqlite/src/repository.rs:2092-2443 | in every run a session's transcript, creation, commit and cancel times, committed text and preedit are those its commands gave it, read off the commands alone |
| Stories.CandidatesTellTheRun | crates/idiolect-adapter-sqlite/src/repository.rs:2300-2353 | in every run a candidate is the one its commit made, numbered by the commits that took effect: text heard, text accepted, whether edited, key and status are those the commits, corrections, retranscriptions, rejections, confirmations and evictions say |
| Stories.RecordingsTellTheRun | crates/idiolect-adapter-sqlite/src/repository.rs:1326-1357 | in every run a recording says the text it was made with or last retranscribed to, and the digest last stamped on it |
| Stories.HistoryTellsTheRun | crates/idiolect-adapter-sqlite/src/repository.rs:2270-2443 | in every run a history entry is the one its first commit or its cancellation made, numbered in order, with the text of the last correction if it is a committed one |
| Stories.DeletedEntryStaysDeleted | crates/idiolect-adapter-sqlite/src/repository.rs:2497-2518 | a deleted history entry stays deleted under any later commands, and its number is never given out again |
| Stories.CorrectionIsFiled | crates/idiolect-adapter-sqlite/src/repository.rs:1035-1104 | a correction files exactly one row, from the committed to the corrected text, numbered above every edit of its session |
| Stories.SettingsReadBack | crates/idiolect-adapter-sqlite/src/repository.rs:2520-2549 | in every run a setting reads back as it was last written, or as the store starts |
| Stories.EveryUtteranceHasItsAudioRow | crates/idiolect-adapter-sqlite/src/repository.rs:2092-2201 | in every run utterances and audio rows belong together one for one |
| Stories.ItemsTellTheRun | crates/idiolect-adapter-sqlite/src/repository.rs:730-770 | in every run a manifest item is the one its command listed, numbered in order |
| Stories.EveryEventIsACommand | crates/idiolect-adapter-sqlite/src/repository.rs:1991-2020 | in every run every event of the log was written by one of the commands, and its kind, subject and payload say what that command did |
| MetadataStore.MetadataStore.CreateSession | crates/idiolect-adapter-sqlite/src/repository.rs:2092-2201 | creates utterance, audio row, session and event, or rolls back |
| MetadataStore.MetadataStore.RecordPreeditChange | crates/idiolect-adapter-sqlite/src/repository.rs:2203-2268 | logs and records a preedit once |
| MetadataStore.MetadataStore.CommitSession | crates/idiolect-adapter-sqlite/src/repository.rs:2270-2368 | commits once per key: event, session, utterance text, candidate and, the first time, history |
| MetadataStore.MetadataStore.CancelSession | crates/idiolect-adapter-sqlite/src/repository.rs:2370-2443 | cancels once per key, never a committed session, with history from the created state only |
| MetadataStore.MetadataStore.AmendCorrection | crates/idiolect-adapter-sqlite/src/repository.rs:1035-1104 | rewrites session, candidates and committed history and records the edit under a new index |
| MetadataStore.MetadataStore.SetAudioDigest | crates/idiolect-adapter-sqlite/src/repository.rs:1484-1497 | stamps one utterance |
| MetadataStore.MetadataStore.DeleteUserData | crates/idiolect-adapter-sqlite/src/repository.rs:1568-1651 | the deletes in the source's order, all or nothing |
| MetadataStore.MetadataStore.PruneTrainingData | crates/idiolect-adapter-sqlite/src/repository.rs:772-847 | a session goes exactly when more than the given days of 86,400,000 milliseconds have passed since it was committed, else cancelled, else created, with all its rows and its recording; the loop drops those and no other; zero days disables it |
| MetadataStore.MetadataStore.PruneHistoryOlderThan | crates/idiolect-adapter-sqlite/src/repository.rs:2475-2495 | a history row goes exactly when more than the given days have passed since it was written; logs it if any went |
| MetadataStore.MetadataStore.MarkSyncedAndDropAudio | crates/idiolect-adapter-sqlite/src/repository.rs:1391-1427 | that candidate becomes synced and no other row or column changes; then that one recording goes; an unknown candidate changes nothing |
| MetadataStore.MetadataStore.SizePending | crates/idiolect-adapter-sqlite/src/repository.rs:1450-1459 | sizes every recording and totals them without wrapping |
| MetadataStore.MetadataStore.EvictOldest | crates/idiolect-adapter-sqlite/src/repository.rs:1461-1476 | stops at the least count that fits, having flipped and deleted just those |
| MetadataStore.MetadataStore.EvictCapturedAudioOverCap | crates/idiolect-adapter-sqlite/src/repository.rs:1442-1477 | flips and deletes exactly the counted oldest recordings |
| MetadataStore.DropNext | crates/idiolect-adapter-sqlite/src/repository.rs:812-845 | deleting sessions one by one deletes them all |
| Eviction.EvictsLeastPrefixIff | crates/idiolect-adapter-sqlite/src/repository.rs:1450-1476 | under every cap the loop takes the least oldest-first prefix, if and only if the sizes do not pass 64 bits |
| Eviction.CapBoundsCapturedIff | crates/idiolect-adapter-sqlite/src/repository.rs:1442-1477 | after one call the captured recordings, shared ones included, fit the cap if and only if the user was never deleted or they fitted before |
| Eviction.EvictionLaws | crates/idiolect-adapter-sqlite/src/repository.rs:1429-1477 | of the outbox it sizes, also where candidates share a recording, one call leaves what fits the cap, by the sizes taken one fewer evicted would not, and a second call evicts nothing |
| Eviction.FlipIsExact | crates/idiolect-adapter-sqlite/src/repository.rs:1466-1470 | exactly the evicted candidates become `evicted`, and no other row or column changes |
| Eviction.SurvivorsKeepAudioIff | crates/idiolect-adapter-sqlite/src/repository.rs:1461-1476 | under every cap every remaining candidate keeps its recording if and only if no two in the outbox share one |
| Eviction.DistinctAudioIff | crates/idiolect-adapter-sqlite/src/repository.rs:2080-2086 | captured rows name distinct recordings if and only if no two are commits of one session |
| Eviction.TwoCommitsShareARecording | crates/idiolect-adapter-sqlite/src/repository.rs:2300-2353 | committing any session under two new keys makes two captured candidates share a recording |
| Eviction.OutboxSays | crates/idiolect-adapter-sqlite/src/repository.rs:1283-1316 | every outbox entry carries the text heard (the recording's, else the candidate's), the corrected text, the source and the recording of its row, each in its place; the entries are exactly the user's captured candidates, or none after a privacy delete |
| Eviction.OutboxOrder | crates/idiolect-adapter-sqlite/src/repository.rs:1298-1299 | the outbox is in candidate order |
| Eviction.OutboxListsAll | crates/idiolect-adapter-sqlite/src/repository.rs:1283-1316 | no captured row of that user is missing |
| Eviction.ReachableOutboxIsAddressable | crates/idiolect-adapter-sqlite/src/repository.rs:2084-2086 | in every reachable state the key a recording is sized under is the key it is deleted under |
| Eviction.CapStopsAfterPrivacyDelete | crates/idiolect-adapter-sqlite/src/repository.rs:1442-1450 | after a privacy delete the cap evicts nothing in any later state |
| Eviction.CapLetsItGrow | crates/idiolect-adapter-sqlite/src/repository.rs:1277-1281 | after a privacy delete any new dictation larger than the cap stays captured beyond it |
| Eviction.CapOutgrown | crates/idiolect-adapter-sqlite/src/repository.rs:1277-1281 | the same from the empty store, in three commands |
| StorageCap.OneCandidateEach | crates/idiolect-ffi/src/lib.rs:896-903 | keyed by its session, a take is committed once, so a recording has one candidate |
| StorageCap.RecordingsAreDistinct | crates/idiolect-ffi/src/lib.rs:896-913 | in every state the keyboard can reach, no two captured candidates share a recording |
| StorageCap.PersistedTakeEndsUnderCap | crates/idiolect-ffi/src/lib.rs:904-913 | in every reachable state, over restarts and syncs, a persisted take that returns Ok leaves captured audio under the cap last set, as long as the sizes add up within 64 bits |
| StorageCap.CapInForce | crates/idiolect-ffi/src/lib.rs:412-416 | in every run the cap in force is the one last set since the core was opened, or 1,073,741,824 bytes |
| AudioStore.Split | crates/idiolect-adapter-sqlite/src/audio_store.rs:148-154 | the one list of parts without a slash that joins back to the text |
| AudioStore.PrintedKeysAreAccepted | crates/idiolect-adapter-sqlite/src/audio_store.rs:104-160 | every key printed for valid identifiers passes key validation |
| AudioStore.KeysAreInjective | crates/idiolect-adapter-sqlite/src/audio_store.rs:120-126 | a key names one user and one utterance |
| AudioStore.ParentIsRefused | crates/idiolect-adapter-sqlite/src/audio_store.rs:139-160 | no accepted key leads out of the audio directory: a parent step is refused at the front, in the middle and at the end |
| AudioStore.StoredPathIsSourceKey | crates/idiolect-adapter-sqlite/src/repository.rs:2080-2086 | the path column of a new utterance is its source key, spelled out |
| AudioStore.FileAudioStore.WriteSourceAudio | crates/idiolect-adapter-sqlite/src/audio_store.rs:490-507 | writes once, never over an existing file; a refused write leaves nothing and one that stops leaves a partial file |
| AudioStore.FileAudioStore.ReadSourcePayloadByKey | crates/idiolect-adapter-sqlite/src/audio_store.rs:321-327 | reads exactly the stored bytes, or fails on a bad key or a missing file |
| AudioStore.FileAudioStore.SourceAudioSizeByKey | crates/idiolect-adapter-sqlite/src/audio_store.rs:333-345 | a missing recording has size zero |
| AudioStore.FileAudioStore.DeleteSourceAudioFor | crates/idiolect-adapter-sqlite/src/audio_store.rs:180-188 | deletes that recording only; deleting again changes nothing |
| Ingest.MissingDigests | crates/idiolect-sync/src/dto.rs:59-68 | lists exactly the digests without audio |
| Ingest.Ingest | crates/idiolect-sync-server/src/lib.rs:93-142 | refuses an incomplete batch up front, else reports and stores what the loop does |
| Ingest.IngestLearnings | crates/idiolect-sync-server/src/lib.rs:103-141 | the loop, stopping at the first failure |
| Ingest.StoringAdds | crates/idiolect-sync-server/src/lib.rs:109-138 | one learning adds one utterance and one file and touches no other, with its digest only if all of it succeeded |
| IngestLaws.IngestReport | crates/idiolect-sync-server/src/lib.rs:53-60 | a completed ingest stores every digest and accepts exactly the first occurrence of each new one |
| IngestLaws.ReportIsPartition | crates/idiolect-sync-server/src/lib.rs:53-60 | accepted and already-had split the batch, and nothing is accepted twice |
| IngestLaws.IngestIsExactlyOnce | crates/idiolect-sync-server/src/lib.rs:5-8 | ingesting a completed batch again, under any batch id, accepts nothing and changes nothing |
| IngestLaws.DigestsStayUnique | crates/idiolect-adapter-sqlite/src/repository.rs:1510-1524 | no ingest, completed or not, puts one digest on two utterances |
| IngestLaws.CandidatesGrowByAcceptedIff | crates/idiolect-sync-server/src/lib.rs:119-123 | one candidate row per digest new to the store, if and only if none was committed under this batch id before |
| IngestLaws.LedgerStaysBacked | crates/idiolect-sync-server/src/lib.rs:119-138 | completed ingests keep every spent key backed by a stored digest |
| IngestLaws.BackedLedgerMakesCandidates | crates/idiolect-sync-server/src/lib.rs:83-142 | with a backed ledger every digest new to the store becomes one candidate row |
| IngestRuns.IngestSucceeds | crates/idiolect-sync-server/src/lib.rs:93-142 | on a valid store with a backed ledger, a complete batch under distinct unused session ids always completes, and each new digest becomes one candidate |
| IngestLaws.FreshLearningIsStored | crates/idiolect-sync-server/src/lib.rs:83-138 | a new learning becomes a committed session heard as raw, with its correction, one captured candidate from raw to corrected, and its audio under its digest |
| IngestLaws.FreshDictationIsKept | crates/idiolectd/src/run_loop.rs:1340-1366 | a dictation on the PC under an unused id is kept as an open session saying what was heard, with its recording under its digest |
| SyncRound.BatchIsLearnt | crates/idiolect-sync-server/src/lib.rs:93-142 | after a whole batch, every learning that is the first of a new digest is a committed session under its own id with one captured candidate from the text heard to the text corrected, and its recording |
| IngestRuns.PrunedReplayIsAcceptedInVain | crates/idiolect-sync-server/src/lib.rs:103-140 | any batch ingested, pruned by retention and ingested again completes twice, accepts every digest twice, and ends with no candidate at all |
| IngestRuns.InterruptedReplayIsAcceptedInVain | crates/idiolect-sync-server/src/lib.rs:119-138 | a batch interrupted by the disk between commit and digest of any one learning is accepted whole when it comes again: one candidate for each newly accepted digest but that one, whose recording lands under a second session left open |
| IngestRuns.SpentLearningIsVain | crates/idiolect-sync-server/src/lib.rs:109-138 | a learning whose key is spent on the same commit is stored without a candidate |
| SyncClient.BuildBatch | crates/idiolect-sync-client/src/lib.rs:43-70 | the outbox in order, every entry saying what its row says, with the recording of each digest, or an error exactly when a recording cannot be read |
| SyncClient.AttachedIsComplete | crates/idiolect-sync-client/src/lib.rs:52-60 | every learning's audio is attached, and only recordings of its learnings |
| SyncClient.ConfirmShipped | crates/idiolect-sync-client/src/lib.rs:76-85 | returns well exactly when every listed candidate can be confirmed; then each is synced, its recording gone, and nothing else changed; else the same for those before the first that cannot |
| SyncClient.ConfirmSays | crates/idiolect-sync-client/src/lib.rs:76-85 | the loop's state after any number of learnings, stated without the loop |
| SyncProtocol.NoRecordingIsLost | crates/idiolect-sync-client/src/lib.rs:72-85 | in every run with lost, repeated and reordered messages, a captured candidate has its exact recording on the phone, and a synced one has it on the PC under its digest unless retention or a privacy delete on the PC took that digest away |
| SyncProtocol.EveryRunIsSafe | crates/idiolect-sync-server/src/ingest_server.rs:16-20 | the protocol invariant behind it: acknowledged digests are stored or were taken away by the PC itself, and stored digests are those of their files |
| SyncProtocol.NothingGone | crates/idiolectd/src/run_loop.rs:278-286 | without retention and privacy deletes on the PC no digest is ever taken away |
| SyncProtocol.PruningStaysBacked | crates/idiolect-adapter-sqlite/src/repository.rs:772-847 | retention on the PC drops a row together with its recording and no other row's |
| SyncProtocol.DictationExtends | crates/idiolectd/src/run_loop.rs:1340-1366 | a dictation on the PC adds a row and its recording and leaves all others, whatever the disk does |
| SyncProtocol.DeliverIsSafe | crates/idiolect-sync-server/src/lib.rs:93-142 | delivering any exported batch, any number of times, keeps the invariant |
| SyncProtocol.ConfirmIsSafe | crates/idiolect-ffi/src/lib.rs:665-690 | confirming an acknowledged batch keeps the invariant even when candidates changed or went since |
| SyncRound.ConfirmSyncsIff | crates/idiolect-ffi/src/lib.rs:665-690 | in every run, confirming an acknowledged batch leaves all its candidates synced if and only if the phone still has them all; then nothing else in the store changes |
| SyncRound.ExportWorks | crates/idiolect-sync-client/src/lib.rs:43-70 | in no run can an export fail: every captured candidate still has its recording |
| SyncRound.GoodRoundSyncsAll | crates/idiolect-sync-client/src/lib.rs:72-85 | after any run, export, a delivery under fresh ids on a working disk, and confirmation leave every waiting candidate synced and the outbox empty |
| SyncRound.PcTrainsOnThePhonesRun | crates/idiolect-sync-server/src/lib.rs:93-142 | end to end: whatever commands the phone ran, the PC trains each new learning from the text they say was heard to the text they say it was corrected to |
| Journey.CorrectedTakeArrives | crates/idiolect-sync-client/src/lib.rs:43-85 | a run from two empty devices: a take heard as any x, corrected to any y, exported, delivered and confirmed is trained on from x to y with its very recording, and is synced on the phone, its recording reclaimed |
| StreamingTake.IsNoiseTranscript | crates/idiolect-application/src/use_cases/streaming.rs:28-40 | noise means every word character lies inside brackets, whichever characters beyond ASCII are word characters |
| StreamingTake.NoiseStandsInBrackets | crates/idiolect-application/src/use_cases/streaming.rs:28-40 | noise means that before every letter or digit, since some point, more round or square brackets were opened than closed |
| StreamingTake.TrimCuts | crates/idiolect-application/src/use_cases/streaming.rs:48-51 | trimming cuts white space off both ends and nothing else |
| StreamingTake.PreviewIsSpaced | crates/idiolect-application/src/use_cases/streaming.rs:271-300 | over any take the preview is the trimmed text of each decode that heard words, one space between each two, and the correction window holds the last |
| StreamingTake.TakeEndsIn | crates/idiolect-application/src/use_cases/streaming.rs:319-345 | over any take the outcome is the whole decode's words if it heard any, else the spaced preview, with the take's recording; silent exactly when nothing was recorded or neither heard words |
| StreamingTake.FoldAppends | crates/idiolect-application/src/use_cases/streaming.rs:271-300 | folding appends exactly the announced chunk, and the audio exactly when decoding worked |
| StreamingTake.RecordingIsWholeIff | crates/idiolect-application/src/use_cases/streaming.rs:271-300 | over any take the recording is all that was said, in order, if and only if no snippet with audio failed to decode; else it is shorter |
| StreamingTake.PreviewNeverLost | crates/idiolect-application/src/use_cases/streaming.rs:62-72 | a take with a preview ends in speech: the whole decode's words if it heard any, else the preview itself |
| StreamingTake.AnnouncedIsCollapsed | crates/idiolect-application/src/use_cases/streaming.rs:271-300 | over any take the announced codes are the failing codes with consecutive repeats collapsed |
| StreamingTake.AnnouncedOnceIff | crates/idiolect-application/src/use_cases/streaming.rs:345-354 | no code is announced twice in a take if and only if no failing code returns after a different one |
| StreamingTake.AlternatingFailuresRepeat | crates/idiolect-application/src/use_cases/streaming.rs:345-354 | two failing codes taking turns are announced every time |
| Ffi.Inner.FinalizeOutcome | crates/idiolect-ffi/src/lib.rs:848-914 | what each kind of take stores, types and remembers; `Typing.TypedIsCommitted` says what that means over runs |
| Ffi.Inner.FoldSnippet | crates/idiolect-ffi/src/lib.rs:181-213 | the first chunk shows the preedit, later ones replace it with the whole text |
| Ffi.Inner.PushPcmFrame | crates/idiolect-ffi/src/lib.rs:729-769 | folds the completed snippets in order, committing each phrase in continuous mode |
| Ffi.Inner.StopRecording | crates/idiolect-ffi/src/lib.rs:809-843 | flushes, finalizes and returns to idle whatever happened |
| Ffi.Inner.ToggleRecording | crates/idiolect-ffi/src/lib.rs:466-476 | starts a one-shot take or stops the live one |
| Ffi.Inner.ToggleEphemeralRecording | crates/idiolect-ffi/src/lib.rs:484-494 | starts a transcription-only take or stops the live one |
| Ffi.Inner.StartContinuousRecording | crates/idiolect-ffi/src/lib.rs:500-509 | starts a continuous take unless one is live |
| Ffi.Inner.CancelRecording | crates/idiolect-ffi/src/lib.rs:531-548 | drops the live take and stores nothing |
| Ffi.Inner.ReportFieldCorrection | crates/idiolect-ffi/src/lib.rs:560-574 | a changed text reaches every stored copy of the last commit and the cache follows; it fails exactly when that session is gone |
| Ffi.Inner.EditHistory | crates/idiolect-ffi/src/lib.rs:578-598 | a changed text reaches every stored copy of the entry's session, and the cache follows if it is the last commit; it fails exactly when the entry is unknown |
| Ffi.Inner.ConfirmSynced | crates/idiolect-ffi/src/lib.rs:665-690 | returns well exactly when the phone still has every listed candidate; then each is synced and no other row has changed |
| Ffi.Inner.Reopen | crates/idiolect-ffi/src/lib.rs:348-406 | a new core over existing stores keeps them and forgets everything else |
| FfiLaws.EveryRunHasShape | crates/idiolect-ffi/src/lib.rs:718-843 | always: recording iff a take exists, never both modes, idle is clean, status pushes alternate and the last one is the state |
| Typing.TypedIsCommitted | crates/idiolect-application/src/use_cases/dictation.rs:66-83 | over any run without a restart, from any reachable state, the texts typed into the field are those of the phrases that ended well, in order; without transcription-only takes they are exactly the texts committed to the store |
| Typing.ActSpeaks | crates/idiolect-ffi/src/lib.rs:848-914 | each action types exactly the phrases it finishes: a persisted take its committed text, an ephemeral one its final text, a continuous frame each phrase, everything else nothing |
| Typing.GoodTakeIsTyped | crates/idiolect-ffi/src/lib.rs:848-914 | stopping a take that heard speech, under an unused id on a working disk, returns well: its text is typed and stored |
| Screen.ScreenMirrorsTake | crates/idiolect-ffi/src/lib.rs:181-213 | over any run the text composed on the screen is the preview of the live take, and as long as nothing failed there is no other |
| Screen.StopClearsScreenIff | crates/idiolect-ffi/src/lib.rs:809-843 | stopping a one-shot take clears its preview from the screen if and only if it returns well or there was none |
| Screen.EveryFailureIsShown | crates/idiolect-ffi/src/lib.rs:208-213 | over any run the user is told of exactly the failed decodes that do not repeat the last failure of their take, in order |
| EphemeralTakes.EphemeralTakeLeavesNoTrace | crates/idiolect-ffi/src/lib.rs:478-494 | non-interference: an ephemeral take, with any corrections, history edits, syncs and cap changes during it and however it ends, leaves both stores as those actions alone would |
| EphemeralTakes.EphemeralTakeDisarmsIff | crates/idiolect-ffi/src/lib.rs:848-857 | after it a field correction changes nothing if and only if it was not cancelled or nothing had been committed before |
| EphemeralTakes.CorrectionsStayDisarmed | crates/idiolect-ffi/src/lib.rs:848-857 | after one that was not cancelled, through any later actions, a field correction changes nothing until another session is committed, and never touches a session stored by then |
| LastCommit.LastCommitAgrees | crates/idiolect-ffi/src/lib.rs:550-598 | in every reachable state, over restarts and syncs, the cached last commit is committed and agrees with all four stored copies of its text |
| LastCommit.CaptureSays | crates/idiolect-ffi/src/lib.rs:880-904 | a completed capture leaves all four copies saying its text |
| Adapters.Newest | crates/idiolect-adapter-sqlite/src/repository.rs:1852-1853 | the first row by promotion time, then id, both descending |
| Adapters.EveryRunHasOneActive | crates/idiolect-adapter-sqlite/src/repository.rs:544-630 | every user has at most one active adapter in every run |
| Adapters.RollbackSpendsOne | crates/idiolect-adapter-sqlite/src/repository.rs:606-630 | a rollback activates the newest eligible adapter and uses up exactly one |
| Adapters.ConsecutiveRollbacks | crates/idiolect-adapter-sqlite/src/repository.rs:606-630 | n rollbacks in a row succeed exactly when n adapters are eligible |
| Adapters.NeverReactivated | crates/idiolect-adapter-sqlite/src/repository.rs:1834-1865 | a rejected or rolled-back adapter is never reactivated by rollback |
| Adapters.PromoteThenRollback | crates/idiolect-adapter-sqlite/src/repository.rs:544-630 | rollback undoes a promotion if and only if the replaced adapter is not blocked and newest among the eligible |
| Adapters.AdapterRegistry.RegisterAdapterCandidate | crates/idiolect-adapter-sqlite/src/repository.rs:509-542 | adds an inactive row unless the id is taken |
| Adapters.AdapterRegistry.PromoteAdapter | crates/idiolect-adapter-sqlite/src/repository.rs:544-578 | activates one, keeps its first promotion time, records what it replaced |
| Adapters.AdapterRegistry.RejectAdapter | crates/idiolect-adapter-sqlite/src/repository.rs:580-604 | deactivates and blocks one |
| Adapters.AdapterRegistry.RollbackAdapter | crates/idiolect-adapter-sqlite/src/repository.rs:606-630 | swaps the active adapter for the previous one and blocks it |
| Adapters.RegistrationAdds | crates/idiolect-adapter-sqlite/src/repository.rs:509-542 | a new adapter is inactive and never promoted; an id is refused exactly when anyone has it |
| Adapters.PromotionRecords | crates/idiolect-adapter-sqlite/src/repository.rs:544-578 | a promotion leaves that adapter alone active, dated by its first promotion, and records the one it replaced, if there was another |
| Adapters.RejectionRecords | crates/idiolect-adapter-sqlite/src/repository.rs:580-604 | a rejection deactivates that one and records its reason |
| Adapters.RollbackRecords | crates/idiolect-adapter-sqlite/src/repository.rs:606-630 | a rollback goes through exactly when one is active and one may be reactivated; it moves the active flag, touches nothing else and records both |
| AdapterStack.RegistryIsAStack | crates/idiolect-adapter-sqlite/src/repository.rs:544-630 | with each adapter successfully promoted at most once at increasing times, promote pushes, rollback pops, reject takes out, over every interleaving |
| AdapterStack.RepromotionBreaksTheStack | crates/idiolect-adapter-sqlite/src/repository.rs:556-561 | from the empty registry, promoting an adapter again breaks it |
| Vad.GroupSpeech | crates/idiolect-adapter-vad/src/lib.rs:135-157 | finds the maximal speech runs |
| Vad.MergeShortGaps | crates/idiolect-adapter-vad/src/lib.rs:166-181 | merges neighbours over short gaps |
| Vad.MergeIsIdempotent | crates/idiolect-adapter-vad/src/lib.rs:166-181 | merging merged ranges changes nothing |
| Vad.SegmentationIsUnique | crates/idiolect-adapter-vad/src/lib.rs:135-181 | only one list of ranges starts and ends on speech, covers it, has no long silence inside and long gaps between |
| Vad.Segment | crates/idiolect-adapter-vad/src/lib.rs:135-204 | the result is that list, and sample k of slice i is the audio's sample at 480 times the range's begin plus k, with 30 ms a frame |
| Vad.SpeechIsHeardOnce | crates/idiolect-adapter-vad/src/lib.rs:186-204 | every sample of a speech frame is heard in exactly one slice, at its own place |
| Containers.ParsePayload | crates/idiolect-adapter-opus/src/lib.rs:187-222 | the cursor parser accepts exactly what the framing defines |
| Containers.ParsePrint | crates/idiolect-adapter-opus/src/lib.rs:85-222 | parsing a printed payload returns it, and every extension is rejected |
| Containers.PrintParse | crates/idiolect-adapter-opus/src/lib.rs:187-222 | printing an accepted payload returns the same bytes |
| Containers.TruncationIsRejected | crates/idiolect-adapter-opus/src/lib.rs:187-239 | every proper prefix of an accepted payload is rejected |
| Containers.OpusLayout | crates/idiolect-adapter-opus/src/lib.rs:95-104 | magic, duration, sample count and packet count lie in this order, least byte first |
| Containers.FramedLayout | crates/idiolect-adapter-opus/src/lib.rs:125-128 | every packet follows its length, least byte first |
| Containers.FramingIsLossless | crates/idiolect-adapter-opus/src/lib.rs:85-171 | under a codec that gives frames back, decoding an encoding gives back every sample |
| Containers.Encode | crates/idiolect-adapter-opus/src/lib.rs:85-137 | the framing of one packet for every 320 samples |
| Containers.Decode | crates/idiolect-adapter-opus/src/lib.rs:139-171 | succeeds exactly when the payload parses and its packets give enough samples, cut to the count |
| Containers.DecodeKeepsCount | crates/idiolect-adapter-opus/src/lib.rs:85-171 | decoding an encoding returns its sample count and duration |
| Containers.EncodeFixture | crates/idiolect-adapter-fixture-codec/src/lib.rs:37-59 | the framing of the fixture codec |
| Containers.FixtureLayout | crates/idiolect-adapter-fixture-codec/src/lib.rs:37-59 | magic, rate, channels, duration, count and samples lie in this order, least byte first |
| Containers.DecodeFixture | crates/idiolect-adapter-fixture-codec/src/lib.rs:61-110 | accepts exactly the prints, and returns what was printed |
| Containers.FixturesPrefixFree | crates/idiolect-adapter-fixture-codec/src/lib.rs:37-110 | no payload is a prefix of another, and equal payloads are equal recordings |
| Calendar.DaysToYmd | crates/idiolect-sync-server/src/device_tokens.rs:198-224 | the loops end with the valid date that has this day number |
| Calendar.LeapYearsCounted | crates/idiolect-sync-server/src/device_tokens.rs:194-196 | days before a year by the Gregorian rule in closed form |
| Calendar.MonthsCounted | crates/idiolect-sync-server/src/device_tokens.rs:206-224 | days before a month in closed form |
| Calendar.DayNumbersOrderDates | crates/idiolect-sync-server/src/device_tokens.rs:198-224 | day numbers order and identify dates |
| Calendar.FieldsRecombine | crates/idiolect-sync-server/src/device_tokens.rs:179-192 | the printed fields recombine to the seconds |
| Calendar.StampReadsBack | crates/idiolect-sync-server/src/device_tokens.rs:179-192 | through year 9999 a stamp reads back as the date and time of its clock reading, in the format of RFC 3339 |
| Calendar.StampsSortByTime | crates/idiolect-sync-server/src/device_tokens.rs:179-192 | through year 9999 stamps sort as strings exactly in time order |
| DeviceTokens.VerifyReadsHistory | crates/idiolect-sync-server/src/device_tokens.rs:112-138 | a token verifies as a device exactly when its last bind was to it and the device was neither bound nor revoked since |
| DeviceTokens.IdentityOfLastBind | crates/idiolect-sync-server/src/device_tokens.rs:112-138 | the identity is the one of that bind |
| DeviceTokens.EveryDeviceHasOneToken | crates/idiolect-sync-server/src/device_tokens.rs:108-133 | at most one token a device, after any history |
| DeviceTokens.ReopenIsIdentity | crates/idiolect-sync-server/src/device_tokens.rs:63-84 | records written in any order read back to the same map |
| DeviceTokens.EveryRunIsAReplay | crates/idiolect-sync-server/src/device_tokens.rs:63-171 | over every run with failing writes and restarts, memory and file are the replays of the operations that count for each |
| DeviceTokens.EveryRunVerifies | crates/idiolect-sync-server/src/device_tokens.rs:112-138 | in every such run a token verifies, now and after a restart, exactly when the operations that count gave it and did not take it back |
| DeviceTokens.FailedWriteIsLostIff | crates/idiolect-sync-server/src/device_tokens.rs:112-132 | an operation whose write fails is lost by a restart; the map read back is the history's if and only if the operation would have changed nothing |
| DeviceTokens.FailedRevocationsComeBack | crates/idiolect-sync-server/src/device_tokens.rs:128-132 | however many revocations fail to be written, a restart brings every revoked token back |
| DeviceTokens.DeviceTokenStore.Open | crates/idiolect-sync-server/src/device_tokens.rs:63-84 | loads the records, or nothing without a file |
| DeviceTokens.DeviceTokenStore.Persist | crates/idiolect-sync-server/src/device_tokens.rs:148-171 | writes every binding, or keeps the old file |
| DeviceTokens.DeviceTokenStore.BindToken | crates/idiolect-sync-server/src/device_tokens.rs:112-124 | replaces the device's token and persists it |
| DeviceTokens.DeviceTokenStore.RevokeDevice | crates/idiolect-sync-server/src/device_tokens.rs:128-132 | drops the device's token and persists it |
| StderrTail.Drain | crates/idiolect-process/src/lib.rs:379-405 | however the stream is cut or interrupted, exactly its last 16384 bytes are kept, and the flag tells whether there were more |
| StderrTail.KeptIsTail | crates/idiolect-process/src/lib.rs:386-405 | after every read the loop holds the tail of all that was written so far, and the flag is set exactly past the bound |
| StderrTail.TailGrows | crates/idiolect-process/src/lib.rs:394-399 | keeping the tail step by step is keeping the tail of everything |
| Notification.LastWordsSurvive | crates/idiolect-process/src/lib.rs:339-349 | the last 600 characters a helper wrote are what its notification message ends with, whatever came before, followed by the note that there was more exactly if there was |
| StderrTail.ShownIsText | crates/idiolect-process/src/lib.rs:355-366 | what markup shows of an escaped text is the text |
| StderrTail.EscapedIsHarmless | crates/idiolect-process/src/lib.rs:355-366 | no bracket is left and every ampersand starts a complete entity, at most five characters each |
| Notification.SingleLineIsClean | crates/idiolect-process/src/lib.rs:314-337 | making one line keeps the words, leaves nothing that steers a terminal, and is idempotent |
| Notification.Body | crates/idiolect-process/src/lib.rs:227-243 | the body is the escaped message and the unescaped hint |
| Notification.NotificationBody | crates/idiolect-process/src/lib.rs:227-243 | markup shows exactly the message and the hint; the body is harmless if and only if the hint the reporter was given is; only headline and hint are unbounded |
| Notification.MessageHasTwoLines | crates/idiolect-process/src/lib.rs:227-243 | the message splits at its one line break into the headline and the helper's last words |
| Notification.BelowIsBounded | crates/idiolect-process/src/lib.rs:228-237 | however much the helper printed, its share of the body is at most 3021 characters |
| Notification.FilledIsHarmlessIff | crates/idiolect-process/src/lib.rs:238-243 | filling in the reference neither makes a hint harmful nor mends one |
| Notification.FilledAtMark | crates/idiolect-process/src/lib.rs:242 | the reference takes the place of each mark and of nothing else |
| Notification.GrepFindsTheReference | crates/idiolect-process/src/lib.rs:183-188 | with a log file the user is told to search that file for the reference printed |
| Notification.ReferencesApart | crates/idiolect-process/src/lib.rs:223 | references of two failures differ |
| Notification.LogPathDecides | crates/idiolect-process/src/lib.rs:183-188 | with a log file the body is harmless if and only if the file's path is |

## Left out

- SQLite itself, migrations, WAL and busy handling: a transaction applies fully or not at all.
- The quotes the JSON printer puts around a session id inside row keys; rows are keyed by the bare id.
- JSON bodies of log events, trust scores, codec columns, capture quality and timestamps that nothing reads.
- History encryption and digest computation: text is stored as given, a digest is the value of a function.
- The quantities are unbounded except the 64-bit total of the cap and the 32- and 16-bit fields of the containers.
- `training_runs`, `correction_memory`, tombstones, dashboard queries and the test-only methods, except
  `insert_manifest_item_for_test`: it is the source's only writer of manifest items, so `StoreInvariant.DoManifestItem`
  models it, and the failing case of `Deletion.PrivacyDeleteRefusal` needs such rows.
- Adapter metrics, the registry snapshot with its creation order, and the deleted-sample marking.
- AdapterStack.RegistryIsAStack: assumes each adapter is successfully promoted at most once, at strictly increasing times; off that, `Adapters.PromoteThenRollback` gives the exact condition.
- SyncProtocol.NoRecordingIsLost: the phone runs no privacy delete, which its interface does not offer; a privacy delete on
  the PC leaves the recordings' files on its disk, but no row names them any more; the digest has no collisions.
- IngestLaws.BackedLedgerMakesCandidates: for completed ingests; a failure between commit and digest leaves the ledger unbacked,
  and `IngestRuns.InterruptedReplayIsAcceptedInVain` says what follows.
- Typing.TypedIsCommitted: speaks of runs up to the next restart, where the record of what was typed starts over.
- SyncRound.GoodRoundSyncsAll: assumes that no ingest on the PC stopped between commit and digest; `SyncRound.ConfirmSyncsIff` needs
  no such thing.
- Eviction.EvictionLaws: speaks of the outbox, which reads empty after a privacy delete; `Eviction.CapBoundsCapturedIff` speaks of all captured rows.
- IngestLaws.CandidatesGrowByAcceptedIff: assumes the ingest completed; when one learning fails, the earlier ones stay stored and the report is an error.
- The sync container's own framing (magic, JSON, digest and blob chunks) and the HTTP routers.
- Symbolic links, directories and other file-system states of the audio store, and the decoded cache.
- The segmenter and voice detector: a frame's completed snippets and a batch's speech labels are inputs.
- The speech model, the Opus codec and the translators: decode results and packets are inputs.
- Unicode: a character is one Dafny character, and undecodable bytes in error output are not replaced.
- The silence auto-stop clock, in-place tail merging, and reinserting history text: single-branch facts.
- The failure reporter's journal, suppression and log files.
- The random token mint and the file paths of the token store.
- Ffi.Inner: a poisoned lock, which can leave recording set without a take, is not reachable here.
