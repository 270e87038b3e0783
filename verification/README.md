# Crash-safe file protocols, proved

This project models the parts of the repository that must stay right when a process dies, a write is torn, several
processes compete, or a stream arrives in arbitrary pieces, and proves what they promise over whole runs. A name space is
a map from paths to file objects. Where a protocol can be interrupted, its methods take a flag (`mayDie` or `chaos`) under
which the process may be killed between any two steps, and a write may leave any byte prefix behind.

| files | what they model |
|---|---|
| `LineLog.dfy` | newline-terminated record logs as raw bytes: splitting, torn tails, reading back |
| `JavaScript.dfy` | the largest safe integer and the white space of JavaScript |
| `DateNames.dfy`, `Migration.dfy` | planning and validating the date-only migration |
| `JournaledRename.dfy` | apply, rollback and recovery of journaled renames |
| `SourceDelete.dfy` | exact source deletion and its reconciliation, and the client's checks of both |
| `JobStateMachine.dfy`, `JobHistory.dfy`, `LateRecords.dfy`, `JobHistoryStore.dfy` | the durable job history |
| `HistoryLock.dfy` | the history lock between competing processes |
| `Ordering.dfy`, `AuditSampler.dfy`, `CohortIndex.dfy` | the bounded sampler and the external cohort index |
| `WorkPool.dfy` | the weighted work pool, as interleaved steps between awaits |
| `CancelledTerminal.dfy` | evidence of a cancelled job |
| `Framing.dfy`, `StrictJson.dfy` | line framing on both sides of the helper's pipe, and the strict JSON scanner |
| `HeifBoxes.dfy`, `HeifItems.dfy`, `HeifDigest.dfy`, `HeifMoved.dfy` | boxes, item structures and digest input of HEIF files |

Objects whose methods update fields are classes (`Disk`, `Volume`, `Machine`, `Store`, `Reader`, `Client`, `Scanner`,
`Adapter`); their methods are proved against functions of the old state, and the lemmas are about those functions. The two
concurrent protocols, `HistoryLock` and `WorkPool`, are step functions executed under every schedule.

## What the code does not promise

Where the code falls short of a natural claim, the exact condition is proved.

- Recovery of a migration raises exactly when the start record never became durable; the tree is then untouched, but
  neither `apply` nor `recover` can use that ledger again (`Disk.Recover`, `Disk.Apply`).
- A deletion whose receipt was torn by a crash is never resolved by reconciliation, which reports an ambiguity and keeps
  the file in quarantine. It is the only reachable state of that kind (`Volume.ResolvableUnlessTorn`); `Volume.TornDeletion`
  is a run that reaches it.
- The client refuses an error of the helper exactly when the error has details and answers a deletion, or has details labelled
  `created`, which the helper attaches after it has just created the receipt (`ErrorAccepted`, `Volume.Delete`,
  `Volume.Reconcile`). A deletion error has details only when the file has already been moved.
- A deletion error that says nothing was applied leaves quarantine and receipt as they were, except when the file could not be hashed
  after it was moved (`Volume.Delete`); `Volume.UnreadableDeletion` is such a run.
- When the last ownership check of an append fails with an error of `lstat` itself, the record is in the file but not in
  memory, and the store is not poisoned. Records are lost exactly when a later request of the same process appends one that the
  file's own replay rejects (`Service`, `NextAfterThrow`): one for a job that memory misses a record of, unless it is an event that
  the job's machine takes after all its events in the file (`RejectedAfter`). A retry of the same append always does it (`RetryAfterThrowCorrupts`).
- A poisoned store refuses creations and events, but it may be initialized again if it was poisoned while opening. That appends to
  the file exactly when a job was interrupted, and leaves the store open and poisoned (`ReopenPoisoned`).
- The store cannot be opened exactly when the history is corrupt, or a job was interrupted and the clock fails or the job has
  used up the sequence numbers (`Store.Initialize`, `Restart`).
- A skipped preview row may have a target, so an audit may plan an operation for it. A cancelled terminal can then never
  be accepted; it can exactly when only executable rows are planned (`AcceptedExactly`; `SkippedRowPlanned` is such evidence).
- The digest of a HEIF file does not show where the top-level boxes end and those of the meta box begin. Equal digest inputs mean
  equal protected boxes and image items exactly when as many protected boxes are outside the meta box
  (`StreamDeterminesPicture`). Moving boxes across that border always gives another accepted file with the same input
  (`MovedBoxesDoNotShow`; `EqualDigestInputs` is a pair of files).

## Assumptions

- Record formats are abstract codecs. The job history's is assumed to read back what it wrote, on one line, with no proper
  part of a record being a record; the migration ledger's needs only the first two. Job ids are UUIDs, and the failure of
  a job can be written with any safe sequence number and any time of the years 1 to 9999.
- File identities are fresh and liveness tests correct in the lock protocol, and no process dies while its own file is at
  the reclaimer's name.
- Reading the metadata of an open file succeeds. In file names a digit is an ASCII digit, although `\d` in the program's patterns
  stands for any decimal digit of Unicode.
- Other programs create files at the source name of a deletion only when it is vacant, and do not touch quarantine or
  receipt. Nothing else changes the migration's tree during a run.
- Record ids of audit rows are distinct (the index numbers its rows), and cohort keys are 64 characters long (SHA-256 in
  hexadecimal). String comparison is by code unit; on these keys it agrees with the locale's.

## Model

| member | source | states |
|---|---|---|
| Migration.ChooseTarget | scripts/migrate_date_only_output.py:145-153 | the counter loop ends, because only finitely many names are taken, and picks the first candidate that neither the tree nor an earlier row uses |
| Migration.CandidatesFill | scripts/migrate_date_only_output.py:146-152 | if the first n candidates are all taken then at least n names are taken |
| DateNames.CandidatesDistinct | scripts/migrate_date_only_output.py:145-152 | different counters propose different names |
| DateNames.CandidateAccepted | scripts/migrate_date_only_output.py:145-175 | every proposed name is one that validation accepts |
| Migration.Plan | scripts/migrate_date_only_output.py:122-162 | plans exactly when sources are distinct and every decision meets the demands, in the order of the source paths; the plan passes full validation on the tree it was made from |
| Migration.PlanIgnoresOrder | scripts/migrate_date_only_output.py:122-162 | the manifest is a function of which decisions there are, in whatever order they are listed |
| Migration.SortBySource | scripts/migrate_date_only_output.py:129 | the decisions in ascending order of their source paths |
| Migration.PlannedIsValid | scripts/migrate_date_only_output.py:122-197 | a plan's targets are distinct, unoccupied and disjoint from all sources, so validation accepts it |
| Migration.ValidateStructure | scripts/migrate_date_only_output.py:165-184 | accepts exactly well-formed rows with distinct sources, distinct targets, and no name that is both |
| Migration.ValidateManifest | scripts/migrate_date_only_output.py:187-197 | accepts exactly when moreover each row's file is at the one name it should have and the other is vacant |
| LineLog.TornPrefix | scripts/migrate_date_only_output.py:227-243 | every byte prefix of a log is some whole records and a proper part of the next line |
| LineLog.ReadBack | src/main/services/JobHistoryStore.ts:1858-1880 | a log of valid records splits and decodes to exactly those records |
| JournaledRename.CollectStates | scripts/migrate_date_only_output.py:309-313 | accepts exactly ledgers of in-range marks after the start, and collects each row's last status |
| JournaledRename.Disk.Append | scripts/migrate_date_only_output.py:227-230 | adds the record; when killed, the readable ledger is the old one or the old one and the record |
| JournaledRename.Disk.ReadLedger | scripts/migrate_date_only_output.py:233-243 | cuts a torn last line off without changing what the ledger says |
| JournaledRename.Disk.RenameNoReplace | scripts/migrate_date_only_output.py:200-224 | either nothing happens or exactly one file is renamed to a vacant name; it raises exactly when a check on the files found fails |
| JournaledRename.MarkKeeps | scripts/migrate_date_only_output.py:276-290 | recording a row's next status keeps ledger and tree in agreement when the row's file is where the record says |
| JournaledRename.RenameKeeps | scripts/migrate_date_only_output.py:276-290 | renaming a row's file under a durable intent keeps ledger and tree in agreement |
| JournaledRename.Disk.MoveRow | scripts/migrate_date_only_output.py:276-290 | one row forward: no step loses the file or touches another name, and the row ends recorded as moved |
| JournaledRename.Disk.MoveRowBack | scripts/migrate_date_only_output.py:276-290 | one row backward, with the same guarantees |
| JournaledRename.Disk.ResumeForward | scripts/migrate_date_only_output.py:347-364 | one row of a forward recovery: on a consistent run it never raises and ends recorded as moved |
| JournaledRename.Disk.ResumeBackward | scripts/migrate_date_only_output.py:326-346 | one row of a backward recovery: on a consistent run it never raises and ends rolled back |
| JournaledRename.KeptStep | scripts/migrate_date_only_output.py:257-290 | one more row keeps every file at one of its row's two names and every other name unchanged |
| JournaledRename.Disk.Recover | scripts/migrate_date_only_output.py:303-364 | after crashes anywhere, an uninterrupted recovery applies every row, or returns every row once a rollback is recorded; it raises exactly when no start record is durable; whatever it finds it loses nothing, and finishing always means that every row's recorded file is where it reports |
| JournaledRename.Disk.Apply | scripts/migrate_date_only_output.py:257-295 | raises exactly when validation fails, the rename is unavailable or a ledger exists, and then changes nothing; otherwise every interruption leaves a recoverable run |
| JournaledRename.Disk.Rollback | scripts/migrate_date_only_output.py:257-300 | returns every row of a complete apply; refused on any other consistent run, which it then leaves as it is; finishing always means that every row's recorded file is back |
| JournaledRename.LedgerProves | scripts/migrate_date_only_output.py:265-272 | rollback's test of the ledger passes exactly when every row is recorded as moved: one moved event per index |
| JournaledRename.ReturnedIsHome | scripts/migrate_date_only_output.py:257-300 | rollback is the inverse of apply: every name maps to the object it mapped to before, and to nothing else |
| JournaledRename.AnyRollbackIsBegun | scripts/migrate_date_only_output.py:268-272 | a rollback record anywhere in the ledger means some row's last record is of a rollback |
| JournaledRename.Disk.Session | scripts/migrate_date_only_output.py:257-370 | any commands from a validated tree without a ledger on, each killed anywhere, then one recovery: it raises and the tree is untouched if no start record became durable; otherwise all rows are applied, or all are home if a rollback was recorded, and a rollback is recorded only if one was asked for |
| SourceDelete.Volume.Delete | native/fs-helper/src/unix_backend.rs:322-449 | in every outcome the target is not lost and no receipt is overwritten; success means deleted with an exact receipt and a reply the client accepts; undisturbed, the reply is determined by what was found, errors included; the client refuses exactly the errors with details, which come only after the file was moved; an error that claims nothing was applied is true unless the moved file could not be hashed |
| SourceDelete.Volume.DeleteEntry | native/fs-helper/src/unix_backend.rs:366-449 | deletes a quarantined file only after verifying it and under a receipt it created itself |
| SourceDelete.Volume.UnreadableDeletion | native/fs-helper/src/unix_backend.rs:377 | a run that ends in an error claiming nothing was applied, with the file in quarantine |
| SourceDelete.Volume.EnterQuarantine | native/fs-helper/src/unix_backend.rs:345-365 | the target ends in a private quarantine, or stays at its name with at most an empty directory left over |
| SourceDelete.Volume.CreateReceipt | native/fs-helper/src/unix_backend.rs:957-971 | the receipt is created exclusively; a failure leaves none, or a prefix of the marker |
| SourceDelete.Volume.Finish | native/fs-helper/src/unix_backend.rs:393-449 | unlinks only under an exact receipt; success leaves no quarantine and two more directory syncs |
| SourceDelete.Volume.Reconcile | native/fs-helper/src/unix_backend.rs:451-742 | succeeds undisturbed exactly when the table has an answer, reports that answer (or the error the table names), counts its directory syncs truly, passes the client's check, and never writes the source name; the client refuses exactly the errors with details labelled created |
| SourceDelete.Volume.Decide | native/fs-helper/src/unix_backend.rs:470-742 | from the three observations: the table's answer carried out, or an ambiguity with nothing changed when undisturbed |
| SourceDelete.Volume.ReconcileEmpty | native/fs-helper/src/unix_backend.rs:485-629 | without an entry: removes only an empty quarantine, and only when the table allows it |
| SourceDelete.Volume.ReconcileEntry | native/fs-helper/src/unix_backend.rs:630-742 | with the target in quarantine: writes a receipt only when the source has moved on, and unlinks only under an exact one |
| SourceDelete.VerdictAccepted | src/main/native/NativeFilesystemHelperClient.ts:2364-2436 | every report of the table passes the client's validator |
| SourceDelete.AcceptedIsProducible | src/main/native/NativeFilesystemHelperClient.ts:2364-2436 | the client accepts exactly the results the table can produce |
| SourceDelete.ErrorAccepted | src/main/native/NativeFilesystemHelperClient.ts:2217-2312 | of the errors the helper can answer with, the client accepts exactly those without details, and those of a reconciliation that had not just created the receipt |
| SourceDelete.Volume.ResolvableUnlessTorn | native/fs-helper/src/unix_backend.rs:451-742 | every reachable state has an answer except a quarantined target with a partly written receipt |
| SourceDelete.Volume.TornDeletion | native/fs-helper/src/unix_backend.rs:957-971 | a run that is killed while it writes the receipt leaves that state, whatever part was written |
| SourceDelete.Volume.ReconcileTwice | native/fs-helper/src/unix_backend.rs:451-742 | a second undisturbed reconciliation changes nothing and agrees with the first |
| SourceDelete.Volume.SettledOutlook | native/fs-helper/src/unix_backend.rs:451-742 | reconciling a settled volume again gives the same outcome |
| SourceDelete.Volume.Session | native/fs-helper/src/windows_backend.rs:301-712 | any deletions and reconciliations, each killed anywhere amid other programs: the target is never lost, then reconciliation settles unless a receipt was torn, and a second one agrees |
| JobStateMachine.Machine.Evaluate | src/main/core/JobStateMachine.ts:147-198 | the reducer decides as the transition table says, and changes nothing when it rejects or only asks |
| JobStateMachine.SequencesIncrease | src/main/core/JobStateMachine.ts:147-198 | accepted sequence numbers increase strictly |
| JobStateMachine.TerminalIsLast | src/main/core/JobStateMachine.ts:106-198 | a run has at most one terminal event, its last, and is finished exactly when it has one |
| JobStateMachine.FewStatusChanges | src/main/core/JobStateMachine.ts:55-104 | no run has more than six status changes |
| JobHistory.SeedIsRun | src/main/services/JobHistoryStore.ts:926-949 | seeding a created job never fails |
| JobHistory.ReplayedJobsOk | src/main/services/JobHistoryStore.ts:1900-1935 | whatever history loads, each job's machine is the seeded replay of its events |
| JobHistory.LoadedJobsWellRun | src/main/services/JobHistoryStore.ts:1900-1935 | every loaded job has increasing sequences, at most one terminal event, the last, and at most six status changes |
| JobHistory.EveryPrefixLoads | src/main/services/JobHistoryStore.ts:1858-1890 | every byte prefix of every log loads as its longest complete record prefix, plus the last record when only its newline is missing, and is repaired to exactly that log |
| JobHistory.LoadTorn | src/main/services/JobHistoryStore.ts:1858-1890 | a file cut at any byte of its last append loads as the old records, or those and the new one |
| JobHistory.LoadRepaired | src/main/services/JobHistoryStore.ts:1858-1890 | reloading a repaired file gives the same records and repairs nothing |
| JobHistory.RecoveryComposes | src/main/services/JobHistoryStore.ts:1950-1985 | recoveries that were cut short compose: still one failed event per interrupted job |
| JobHistory.RecoveredOnce | src/main/services/JobHistoryStore.ts:1950-1985 | after recovery no job is active, and recovering again adds nothing |
| JobHistoryStore.Store.ReconcileAmbiguousAppend | src/main/services/JobHistoryStore.ts:1738-1761 | completes a partial append or leaves a prefix of the line; never touches what was there before |
| JobHistoryStore.Store.AppendRecord | src/main/services/JobHistoryStore.ts:1716-1736 | in every outcome the file is the old file and a prefix of one line; the whole line when it counts as stored |
| JobHistoryStore.Store.Persist | src/main/services/JobHistoryStore.ts:1016-1083 | memory changes only after the record is stored; otherwise the file still loads as the old records, or those and the new one |
| JobHistoryStore.Store.CreateJob | src/main/services/JobHistoryStore.ts:1016-1045 | accepted undisturbed exactly for a valid creation with a new id on a writable store; a poisoned store appends nothing |
| JobHistoryStore.Store.AppendEvent | src/main/services/JobHistoryStore.ts:1047-1083 | accepted undisturbed exactly for an event the job's machine accepts or its last event again, which adds no record; a poisoned store appends nothing |
| JobHistoryStore.Store.StoredLoads | src/main/services/JobHistoryStore.ts:1716-1761 | the file of a store that is not lagging loads as its memory, or, when poisoned, as its memory and perhaps one more record |
| JobHistoryStore.Store.LoadHistory | src/main/services/JobHistoryStore.ts:1858-1890 | fails undisturbed exactly on a corrupt file; what the file loads as never changes, even when the repair is cut short |
| JobHistoryStore.Store.RecoverInterruptedJobs | src/main/services/JobHistoryStore.ts:1950-1985 | however it ends, the file loads as the jobs before with some interrupted ones failed once; undisturbed it succeeds exactly when each has a sequence number left and the clock works; it appends nothing when none was interrupted |
| JobHistoryStore.Store.Initialize | src/main/services/JobHistoryStore.ts:994-1122 | success leaves no active job; failure leaves a loadable file loadable, with nothing lost; it works alike on a poisoned store, which it leaves poisoned |
| JobHistoryStore.ReopenPoisoned | src/main/services/JobHistoryStore.ts:994-1122 | initializing a poisoned store again appends exactly when a job was interrupted; afterwards every creation and event is refused |
| JobHistoryStore.Restart | src/main/services/JobHistoryStore.ts:994-1122 | any number of openings cut short, of the same store object or in new processes, then an undisturbed one: every interrupted job has failed exactly once, and another opening adds nothing |
| JobHistoryStore.Service | src/main/services/JobHistoryStore.ts:994-1083 | over any openings and requests with any disturbance, no stored and no acknowledged record is lost or reordered, exactly unless some request appends a record that the file's own replay rejects; only a request for the same job as one that threw late in the same process can |
| JobHistory.AppendLoads | src/main/services/JobHistoryStore.ts:1716-1761 | however an append ends, the file loads as before, or as before and the record once its text arrived, and does not load exactly when its replay rejects the record |
| JobHistoryStore.NextAfterThrow | src/main/services/JobHistoryStore.ts:1716-1736 | after a late throw, the next record leaves a file that loads exactly when it applies after the record that memory misses |
| LateRecords.MergedAhead | src/main/services/JobHistoryStore.ts:1716-1736 | when the file holds the records in memory merged with missing ones, memory and file agree on every job without a missing record |
| LateRecords.RejectedAfter | src/main/services/JobHistoryStore.ts:1900-1935 | after any number of late throws, a record that memory accepts is rejected by the file exactly when it is for a job with a missing record and is a creation, or an event that the job's machine does not take after its events in the file |
| JobHistoryStore.RetryAfterThrowCorrupts | src/main/services/JobHistoryStore.ts:1716-1736 | after such a throw, appending the record again leaves a file that does not load |
| JobHistoryStore.RepeatedRecordRejected | src/main/services/JobHistoryStore.ts:1900-1935 | no history holds the same record twice in a row |
| HistoryLock.AtMostOneHolder | src/main/services/JobHistoryStore.ts:1201-1542 | in every state any actors in any processes can reach, at most one holds the history lock, and its file is at the lock's name |
| HistoryLock.ActKeepsOthers | src/main/services/JobHistoryStore.ts:1260-1373 | no file-system call of one actor disturbs the files or observations another relies on |
| HistoryLock.ObservedKeeps | src/main/services/JobHistoryStore.ts:1434-1497 | only a dead owner's file at the lock's name is ever found fit for eviction |
| HistoryLock.NextKeeps | src/main/services/JobHistoryStore.ts:1201-1542 | every step and every death keeps the protocol's invariant |
| HistoryLock.AbandonedLockIsTaken | src/main/services/JobHistoryStore.ts:1201-1330 | whenever the reclaimer is free and the lock free or its owner dead, a store that runs alone gets the lock |
| Ordering.BestDrops | src/main/services/AuditSampler.ts:57-59 | push, sort and pop keeps exactly the best of the stream |
| AuditSampler.KeepBestCohorts | src/main/services/AuditSampler.ts:77-84 | the evicting cohort map always equals the targetSize best of the per-cohort minima so far, although evicted cohorts are forgotten |
| AuditSampler.KeepBest | src/main/services/AuditSampler.ts:65-69 | the stratum map holds the best row of every stratum so far |
| AuditSampler.Sample | src/main/services/AuditSampler.ts:38-99 | the result is a function of the set of rows, whatever their order: refused exactly when the strata outnumber the places, and otherwise min(targetSize, n) rows |
| AuditSampler.SelectionShape | src/main/services/AuditSampler.ts:87-98 | the sample has exactly min(targetSize, n) rows, contains the best row of every mandatory stratum, and every cohort's best row when these fit |
| CohortIndex.AggregateBucket | src/main/services/EvidenceNormalizationAuditRepository.ts:1158-1207 | terminates for every size threshold, and its result is the group-by index of the bucket |
| CohortIndex.AggregateAll | src/main/services/EvidenceNormalizationAuditRepository.ts:1197-1203 | the indexes of the child buckets, in the order of their names, are the index of all their rows |
| CohortIndex.Spread | src/main/services/EvidenceNormalizationAuditRepository.ts:1182-1196 | each child file holds exactly the rows with its prefix, in order |
| CohortIndex.BuildCohortIndex | src/main/services/EvidenceNormalizationAuditRepository.ts:1115-1156 | one item per cohort key, in ascending order, with count and counts per disposition over all rows |
| CohortIndex.IndexUnique | src/main/services/EvidenceNormalizationAuditRepository.ts:1115-1207 | there is exactly one such index, so neither threshold nor arrival in buckets shows |
| CohortIndex.CountsAddUp | src/main/services/EvidenceNormalizationAuditRepository.ts:1163-1180 | the counts add up to the number of rows |
| WorkPool.WeightNeverExceeds | src/main/services/AdaptiveWorkPool.ts:125-166 | in every interleaving the active weight is the sum of the running weights and never exceeds the maximum |
| WorkPool.ParkedIsWoken | src/main/services/AdaptiveWorkPool.ts:135-165 | a parked worker does not fit, is among the waiters, and some running task will wake it |
| WorkPool.NeverBlocked | src/main/services/AdaptiveWorkPool.ts:229-270 | while a worker is not done, some worker that is not done can take a step |
| WorkPool.EveryRunEnds | src/main/services/AdaptiveWorkPool.ts:229-270 | no schedule moves workers more often than a bound in the numbers of values and workers |
| WorkPool.FinishedRun | src/main/services/AdaptiveWorkPool.ts:229-279 | a run without error or abort calls each task exactly once, with result i from value i; every finished run leaves no weight taken |
| CancelledTerminal.ValidatePreview | src/main/services/CoordinatorEvidenceAdapter.ts:720-900 | accepts exactly well-formed rows whose counts and bytes the summary conserves |
| CancelledTerminal.ValidateAudit | src/main/services/CoordinatorEvidenceAdapter.ts:404-551 | accepts exactly decisions for all rows with a target, in order, and numbered operations for distinct decided rows, as many as executable rows |
| CancelledTerminal.CheckBinding | src/main/services/CoordinatorEvidenceAdapter.ts:1312-1390 | accepts exactly payloads whose every outcome is what row, operation and ledger allow |
| CancelledTerminal.Adapter.RecordPreview | src/main/services/CoordinatorEvidenceAdapter.ts:1426-1528 | admits a preview exactly when it and its audit are valid and the job is new |
| CancelledTerminal.Adapter.RecordLedgerEntry | src/main/services/CoordinatorEvidenceAdapter.ts:1530-1583 | admits exactly the first fitting entry of each planned operation, and none after a terminal |
| CancelledTerminal.Adapter.RecordTerminal | src/main/services/CoordinatorEvidenceAdapter.ts:1597-1617 | admits exactly an accepted terminal, and later only the same one |
| CancelledTerminal.TerminalIsDetermined | src/main/services/CoordinatorEvidenceAdapter.ts:1312-1390 | two accepted terminals agree on every outcome, failure and statistic except reason and duration |
| CancelledTerminal.AcceptedExactly | src/main/services/CoordinatorEvidenceAdapter.ts:1246-1390 | a terminal can be accepted exactly when only executable rows are planned, and is then the payload computed from preview, plan and ledger |
| CancelledTerminal.SkippedRowPlanned | src/main/services/CoordinatorEvidenceAdapter.ts:404-551 | evidence the adapter admits, with a plan for a skipped row, for which no terminal is ever accepted |
| CancelledTerminal.TerminalConserves | src/main/services/CoordinatorEvidenceAdapter.ts:1058-1089 | an accepted terminal accounts for every file and byte of the preview's summary |
| Framing.Reader.ReadFrame | native/fs-helper/src/main.rs:59-90 | reads exactly the first line of what remains, however it is chunked; oversize exactly when line and newline exceed the limit, one CR removed, an unterminated rest dropped |
| Framing.Reader.ReadAll | native/fs-helper/src/main.rs:19-50 | the frames are those of splitting the whole stream on LF |
| Framing.SentArrives | native/fs-helper/src/main.rs:59-90 | lines within the limit that do not end in CR arrive as they were sent |
| Framing.Client.AcceptStdout | src/main/native/NativeFilesystemHelperClient.ts:2155-2182 | the client's state is a function of the bytes received: the lines up to the first that is over-long or refused, whatever the chunks |
| StrictJson.Scanner.Scan | src/main/native/NativeFilesystemHelperClient.ts:472-581 | the scanner object ends on every text and computes the specified verdict |
| StrictJson.Scanner.Object | scripts/build-native-helper.js:45-73 | the object loop, key by key, computes the specified scan |
| StrictJson.UnescapeSpell | src/main/native/NativeFilesystemHelperClient.ts:548-565 | decoding inverts every spelling of a string: verbatim, short escape or four hexadecimal digits |
| StrictJson.ScansDoc | src/main/native/NativeFilesystemHelperClient.ts:484-581 | a value in any spelling is consumed exactly, or rejected exactly when it breaks a limit |
| StrictJson.AcceptsExactly | scripts/build-native-helper.js:20-129 | every spelling of a JSON tree is accepted exactly when the tree is at most 16 levels deep, no array has more than 256 items, and no object repeats a decoded key |
| StrictJson.UnescapedIsSpelled | src/main/native/NativeFilesystemHelperClient.ts:548-565 | every string text that decodes is a spelling of some units |
| StrictJson.ValueIsSpelled | src/main/native/NativeFilesystemHelperClient.ts:484-581 | what the scanner consumes as a value is the spelling of a tree |
| StrictJson.Language | src/main/native/NativeFilesystemHelperClient.ts:472-581 | the scanner accepts exactly the spellings of trees within the limits, and nothing else |
| HeifBoxes.Boxes | tools/repair_heif_integrity.py:43-66 | the loop ends and yields the specified boxes |
| HeifBoxes.BoxesTile | tools/repair_heif_integrity.py:43-66 | accepted boxes lie end to end, each in bounds, and cover the range exactly |
| HeifBoxes.BoxesShift | tools/repair_heif_integrity.py:43-66 | the boxes in a range depend only on the bytes of the range |
| HeifItems.Locations | tools/repair_heif_integrity.py:111-146 | the imperative reader computes the specified locations |
| HeifItems.ParseLayoutIff | tools/repair_heif_integrity.py:111-146 | an item location box is read as a layout exactly when it is the encoding of that layout (section 8.11.3 of ISO/IEC 14496-12) |
| HeifItems.LocationsInvertEncoding | tools/repair_heif_integrity.py:111-146 | every layout of the accepted subset is read back as what it says, and nothing else is accepted |
| HeifItems.ItemInformation | tools/repair_heif_integrity.py:79-108 | the items read are a function of the box's bytes alone |
| HeifDigest.HeifPayloadDigest | tools/repair_heif_integrity.py:149-212 | the bytes fed to the digest are the records of protected boxes and image items, and it refuses exactly the files without them |
| HeifDigest.InfoIsProtected | tools/repair_heif_integrity.py:170-186 | which items exist, and which are metadata, is itself part of what is protected |
| HeifDigest.PlacementIsIrrelevant | tools/repair_heif_integrity.py:149-212 | two accepted files that agree on protected boxes and image bytes have the same digest input, however extents are placed or split |
| HeifDigest.StreamInjective | tools/repair_heif_integrity.py:163-204 | equal digest inputs come from equal sequences of tagged records |
| HeifDigest.StreamDeterminesPayload | tools/repair_heif_integrity.py:149-212 | two accepted files with equal digest inputs have the same records |
| HeifDigest.StreamDeterminesPicture | tools/repair_heif_integrity.py:149-212 | two accepted files have equal protected boxes and image items exactly when their digest inputs are equal and as many of the protected boxes are outside the meta box |
| HeifMoved.PackedBoxes | tools/repair_heif_integrity.py:43-66 | boxes written with short headers are read back as they were written |
| HeifMoved.FileParts | tools/repair_heif_integrity.py:149-212 | every file of a family, with any neutral boxes outside and inside its meta box, is read as the parts it was written from |
| HeifMoved.MovedBoxesDoNotShow | tools/repair_heif_integrity.py:149-212 | moving boxes from the end of the top level to the start of the meta box keeps the file accepted and its digest input the same, but not its protected boxes |
| HeifMoved.EqualDigestInputs | tools/repair_heif_integrity.py:149-212 | two accepted files with equal digest inputs and different protected boxes |

## Left out

- Lock exclusion when a process dies while its file is at the reclaimer's name: two contenders may then race to remove it.
- Migration.Plan: the copied evidence fields are not modelled; millisecond times are compared as real numbers.
- JournaledRename.Disk.Apply: path canonicalization, ancestor checks and the file lock around the ledger are not modelled;
  an error of a write or sync is the same as dying at that point, and power loss that reorders writes is not modelled.
- SourceDelete.Volume.Delete: the steps of hashing and reopening are two checks that may fail or disagree; power loss that
  reorders the rename and the receipt is not modelled.
- SourceDelete.ErrorAccepted: the client's checks of the spelling of an error's code and of its message and residue paths are
  not modelled; the helper's codes are constants.
- JobHistoryStore.Service: closing a store is not modelled; only one store is open at a time (`HistoryLock` is why), and nothing but the store writes the file.
- JobHistory.EveryPrefixLoads: the shape checks of creations and events and the migration of legacy records are part of the
  abstract codec.
- HistoryLock.AtMostOneHolder: file-system calls other than those the protocol tests for do not fail; the contention loop
  may give up at any time instead of after 200 attempts.
- AuditSampler.Sample: the hash is abstract, and the text form of a stratum key is replaced by disposition and reason codes.
- CohortIndex.BuildCohortIndex: bucket files are sequences of rows and the size test is an arbitrary predicate; classification
  of rows is not modelled.
- WorkPool.FinishedRun: sampling the processor load is an awaited call that may settle at any time.
- CancelledTerminal.Adapter.RecordLedgerEntry: date resolutions, timestamps and the evidence manifest's file are not modelled;
  two concurrent entries for one operation can both pass the check, so entries are recorded one at a time.
- CancelledTerminal.Adapter.RecordTerminal: terminals of other kinds, the shape of the emission time and shutdown are not modelled.
- Framing.Client.AcceptStdout: whether a response is accepted is an arbitrary function of its line.
- StrictJson.Language: decoding of UTF-8 and the parse that follows the scan are not modelled.
- HeifDigest.HeifPayloadDigest: the hash itself is not modelled.
- The Electron processes, IPC, UI, AI and vision clients, packaging, signing and tool staging: no invariant beyond plumbing.
- Config store, path policy, media preview revalidation and the EXIF repair around the HEIF digest: mostly I/O.
