# Verification model of the R4 research programme

A Dafny model of the parts of the repository that keep an experiment honest: the write-once attempt
journal and its sealed bundles, the closure reports that embed snapshots of the journal, the GPU
watchdog, the construction of market cohorts, the fast forms of the training objective and of the
cache builder, the shuffled graph control, and the evaluation of forecasts. `dafny verify dfyconfig.toml`
checks all of it. Every lemma switches automatic induction off, so each proof is in its body.

## What is modelled

- **Journal and attempts** (`Journal`, `JournalStore`, `Attempts`, `Ledger`, `Racing`, `RacedJournal`). A directory of
  record files, created once and never changed; the ordered read; the single retry; the development
  ledger and its freeze; racing appenders whose check, create and read-back are separate steps, and the whole journal under them.
- **Bundles** (`Bundles`, `Publication`). Staging, manifest, seal, rename, verification and the SUCCEEDED
  record, as a protocol with a crash between any two steps and reconciliation after it.
- **Closure reports** (`Closure`, `ClosureLaws`, `ClosureWitnesses`, `ReportLog`, `ClosureHistory`,
  `ClosureWriter`). Dispositions, lifecycle, snapshots, their validation on every later read, and the
  numbered history of reports while racing appends move the journal on, with any number of writers
  taken apart into steps and a crash between any two.
- **Watchdog** (`Framing`, `Sampler`, `SupervisedRun`, `Watchdog`). The byte-stream buffers, the telemetry
  stream, and `supervise` with pause, one sampler restart, resume, READY receipts and reverse clean-up.
- **Cohorts** (`Clusters`, `Selection`, `Cohorts`). Relabelling, greedy selection, matched and stratified
  draws, drawdown.
- **Fast forms** (`Balance`, `Grouping`, `Traversal`, `Pipeline`, `Projection`). The grouped objective
  against the row-by-row one, and the windowed cache builder against a sequential map.
- **Helpers** (`Ascending`, `Sequences`). Results, sorted sets, sequences without repetition, sums.
- **Graph and evaluation** (`Matrices`, `EconomicGraph`, `ForecastRows`, `ControlRows`, `Ranks`, `Pooled`).

Idealisations, held everywhere: a digest is what it digests (SHA-256 of canonical JSON is injective);
creating a file, renaming a directory and reading a directory are atomic; floats are reals; identifiers
that the program only compares and sorts are integers in Python's order; one release, G0 identity, output
root and mode hold per journal. In `Attempts`, `Ledger` and `Publication` an append is one step; `Racing`,
`RacedJournal` and `ClosureHistory` take it apart. The card, the worker, the kernel and every random choice are arbitrary.

## Where the code is not what it seems

- `_attempt_schedule` lists the terminal slots twice, because `PRIMARY_STAGES` already holds the terminal
  stage (runtime.py:51-54, 136-141; execution.py:346-350). The position table of `ordered_records` keeps
  the later index, and the model follows it (`Journal.Slots`, `JournalStore.LastIndex`).
- Reconciliation appends FAILED records without an error entry (supervisor.py:314-318, 431-438), which the
  snapshot validator refuses. After such a reconciliation no closure report can ever be written:
  `ClosureWitnesses.ReconciledFailureIsRejected`.
- `write_outcome_blind_closure_report` takes no lock. Two writes that count before either creates its file
  take the same number; with different subjects both files appear, and from then on no read of the log and
  no write returns: `ReportLog.OverlapCollides`, `ClosureHistory.OverlappingWritesEndTheLog`. The log stays
  readable exactly when no report is created between a write's count and its own creation
  (`ReportLog.OverlapExactly`); reports already written are not altered in any case. A write also raises,
  with the log still readable, when another report takes the next number before its read-back
  (`ReportLog.WriteReturnsExactly`).
- `append` takes no lock either. Two opposite terminal appends of one attempt that both look before either
  creates its file leave both files; then no read of the journal returns, and every stored report is
  refused: `ClosureHistory.RacingAppendsEndTheLog`. `RacedJournal.RaceReadsExactly` and
  `ClosureHistory.EveryReportStillValidates` say exactly when this does not happen.
- The snapshot validator reads the last terminal status over all attempts, the disposition builder the
  last record. While a retry is open they disagree, and reports are refused:
  `ClosureWitnesses.OpenRetryIsRejected`. `ClosureLaws.SnapshotValidatesExactly` says for every reachable
  journal when they agree.
- `_grouped_counts` does not refuse targets outside the universe, `_manual_counts` does (`Balance`).
- Unreachable in the code, and shown so: the infeasible-matching return, the end of the telemetry attempt
  loop, the zero-degree and invalid-permutation errors, the second verification of a publication and,
  for a write that no other write overlaps, the read-back of a report.

## Model

| member | source | states |
|---|---|---|
| Journal.Append | experiments/r4_residual_graph/attempt_artifacts.py:223-251 | an append returns exactly when the checks pass and no other record holds the name; it then leaves one more record and a coherent attempt, otherwise the directory as it was |
| Journal.FilteringCommutesWithOrderedRead | experiments/r4_residual_graph/attempt_artifacts.py:253-280 | filtering the ordered read by observed keys is the ordered read of the filtered directory |
| JournalStore.CreateOnlyAttemptJournal.Records | experiments/r4_residual_graph/attempt_artifacts.py:179-191 | the loop over statuses reads exactly the records of a coherent attempt and raises on a conflicting, orphaned or unreadable one |
| JournalStore.CreateOnlyAttemptJournal.Append | experiments/r4_residual_graph/attempt_artifacts.py:223-251 | the method leaves the directory and outcome of the append function; its read-back cannot fail without a race |
| JournalStore.CreateOnlyAttemptJournal.ReadAll | experiments/r4_residual_graph/attempt_artifacts.py:253-262 | reads every file once, in any directory order, or raises on an unreadable one |
| JournalStore.CreateOnlyAttemptJournal.SortRecords | experiments/r4_residual_graph/attempt_artifacts.py:263-280 | sorts by schedule position, attempt number and status; raises on an unscheduled slot |
| JournalStore.CreateOnlyAttemptJournal.OrderedRecords | experiments/r4_residual_graph/attempt_artifacts.py:253-280 | whatever order the directory lists its files in, the ordered read is one and the same function of the files |
| JournalStore.InOrderMembers | experiments/r4_residual_graph/attempt_artifacts.py:253-280 | the ordered read holds exactly the records of the scheduled slots |
| JournalStore.InOrderAscends | experiments/r4_residual_graph/attempt_artifacts.py:271-280 | the ordered read is strictly ascending in the sort key, with the last position of a slot that the schedule lists twice |
| JournalStore.AscendingListIsUnique | experiments/r4_residual_graph/attempt_artifacts.py:271-280 | a key-ascending list of records is determined by its elements |
| JournalStore.KeysDiffer | experiments/r4_residual_graph/attempt_artifacts.py:271-280 | different records of a readable journal have different sort keys |
| Attempts.StepIsLawful | experiments/r4_residual_graph/execution.py:3193-3226 | selecting an attempt and appending keep: coherent attempts, a second attempt only after a failed first, no record lost or changed |
| Attempts.RunIsLawful | experiments/r4_residual_graph/execution.py:3193-3226 | the same over whole runs of selections and appends |
| Attempts.HistoryByFiles | experiments/r4_residual_graph/execution.py:3193-3226 | a slot history is spelled out by which of its record files exist |
| Attempts.EveryHistoryIsCanonical | experiments/r4_residual_graph/execution.py:3193-3226 | in every run, stopped anywhere, a slot history is a prefix of "started, succeeded" or of "started, failed, started, succeeded or failed" |
| Attempts.JournalReads | experiments/r4_residual_graph/attempt_artifacts.py:253-280 | the ordered read of a reachable journal never raises and projects to each slot as its history |
| Attempts.NextAttemptReads | experiments/r4_residual_graph/execution.py:3193-3202 | the next attempt is 0 on an empty history, 1 after exactly one failure, and refused otherwise |
| Ledger.GroupBySlot | experiments/r4_residual_graph/execution.py:780-803 | groups the records by expected slot, or refuses an unexpected slot or a drifted STARTED identity |
| Ledger.ValidateDevelopmentAttemptLedger | experiments/r4_residual_graph/execution.py:760-811 | accepts exactly the non-empty ledgers of expected records in which every expected slot is closed, and returns the last attempt of each |
| Ledger.LedgerClosesExactlyOnSuccess | experiments/r4_residual_graph/execution.py:760-811 | on a reachable journal of expected records the validator accepts exactly when every expected slot has succeeded |
| Ledger.HistoryClosesOnSuccess | experiments/r4_residual_graph/execution.py:803-810 | a reachable slot history is one of the two closed lifecycles exactly when the slot has succeeded |
| Ledger.SucceededSlotIsFrozen | experiments/r4_residual_graph/execution.py:3193-3226 | no event changes a record of a slot that has succeeded |
| Ledger.ClosedLedgerIsFrozen | experiments/r4_residual_graph/execution.py:1247-1256 | once every development slot has succeeded no development attempt can start, and the development projection stays what the register bound |
| Racing.RunIsExclusive | experiments/r4_residual_graph/attempt_artifacts.py:187-251 | with check, create and read-back as separate steps of any appenders, of two opposite terminal appends at most one has seen the other side clear |
| Racing.TerminalAppendsAgree | experiments/r4_residual_graph/attempt_artifacts.py:223-251 | terminal appends of one attempt that return carry the same status and payload, and the file holds it |
| Racing.ConflictIsFinal | experiments/r4_residual_graph/attempt_artifacts.py:187-191 | once both terminal files exist every reader of that attempt still checking ends by raising, whatever is interleaved |
| Racing.LaterAppendsRaise | experiments/r4_residual_graph/attempt_artifacts.py:187-191 | an append that begins after both terminal files exist never returns |
| Racing.OppositeAppendsCollide | experiments/r4_residual_graph/attempt_artifacts.py:223-251 | wherever an attempt is STARTED and nothing else, two opposite terminal appends that check before either creates leave both terminal files, and neither returns |
| RacedJournal.MoveIsSane | experiments/r4_residual_graph/attempt_artifacts.py:187-251 | with any processes selecting and appending, every look, creation and read-back a step of its own, each step keeps: no orphaned terminal record, a second attempt only after a failed first, no record lost or changed |
| RacedJournal.ReadsExactly | experiments/r4_residual_graph/attempt_artifacts.py:253-262 | such a journal can be read exactly when no attempt has both terminal files |
| RacedJournal.MoveConflictsExactly | experiments/r4_residual_graph/attempt_artifacts.py:223-251 | a step makes a conflict exactly when it creates a terminal record whose opposite was created since its append looked |
| RacedJournal.RaceReadsExactly | experiments/r4_residual_graph/attempt_artifacts.py:187-262 | the journal can be read after a run of racing appends exactly when no step of it did so |
| RacedJournal.ConflictNeedsOverlap | experiments/r4_residual_graph/attempt_artifacts.py:223-251 | before every conflict there is a moment at which two opposite terminal appends of one attempt had both passed their looks and neither had created its file |
| RacedJournal.ClashConflicts | experiments/r4_residual_graph/attempt_artifacts.py:223-251 | wherever an attempt is STARTED and nothing else, such appends can end the journal |
| RacedJournal.OpeningStarts | experiments/r4_residual_graph/attempt_artifacts.py:223-251 | a STARTED attempt is reached from the empty journal |
| Bundles.ScanPayload | experiments/r4_residual_graph/attempt_artifacts.py:283-295 | the scan yields the receipts of the payload files in path order |
| Bundles.VerifyAttemptBundle | experiments/r4_residual_graph/attempt_artifacts.py:354-393 | the checks of a bundle in their order are the verification function |
| Bundles.ScanLists | experiments/r4_residual_graph/attempt_artifacts.py:283-295 | a list of receipts is the scan exactly when it lists the payload: ascending paths, all of them, with size and digest |
| Bundles.AcceptedExactlyWhenListed | experiments/r4_residual_graph/attempt_artifacts.py:354-393 | with a self-consistent manifest and seal a directory is accepted exactly when payload paths, sizes and bytes are those listed |
| Bundles.SealDeterminesBundle | experiments/r4_residual_graph/attempt_artifacts.py:354-393 | two accepted directories with the same seal are identical |
| Bundles.SealedStagingVerifies | experiments/r4_residual_graph/attempt_artifacts.py:311-351 | sealing a payload gives a directory that verification accepts for that attempt, payload untouched |
| Bundles.ManifestIsNotListed | experiments/r4_residual_graph/attempt_artifacts.py:334-336 | a payload that holds a manifest.json of its own is a conflict: a manifest cannot list its own digest |
| Bundles.BundleStore.SealAttemptStaging | experiments/r4_residual_graph/attempt_artifacts.py:311-351 | succeeds exactly on an unsealed payload without manifest that is the required one, listed without repetition; it then adds manifest and seal alone, and otherwise changes nothing |
| Bundles.BundleStore.PublishAttemptBundle | experiments/r4_residual_graph/attempt_artifacts.py:396-408 | publication renames a verified staging directory where nothing stands; the second verification cannot fail |
| Publication.FileStepIsSound | experiments/r4_residual_graph/execution.py:3822-3832 | every file step of an attempt keeps: what is published verifies, and a published bundle is not touched |
| Publication.JournalStepIsSound | experiments/r4_residual_graph/execution.py:3881-3958 | every journal step keeps: SUCCEEDED only with a published bundle |
| Publication.StepIsSound | experiments/r4_residual_graph/execution.py:3881-3958 | both together, over all attempts, crash and reconciliation included |
| Publication.RunIsSound | experiments/r4_residual_graph/execution.py:3881-3958 | the same over whole runs with a crash between any two steps |
| Publication.SucceededMeansPublished | experiments/r4_residual_graph/execution.py:3822-3832 | in every reachable state a SUCCEEDED record has its published bundle, accepted for that attempt, listing exactly its payload, and never replaced later |
| Publication.SealedCrashIsRecovered | experiments/r4_residual_graph/supervisor.py:321-440 | after a crash with a sealed staging directory, reconciliation publishes those bytes and records SUCCEEDED |
| ClosureLaws.BuilderNeverRaises | experiments/r4_residual_graph/execution.py:5170-5223 | on a reachable journal the disposition builder never raises and lists exactly the slots with records, by slot id |
| ClosureLaws.LifecyclesAgree | experiments/r4_residual_graph/execution.py:6712-6763 | the two lifecycle functions agree on every reachable journal |
| ClosureLaws.EveryRecordIsObserved | experiments/r4_residual_graph/execution.py:6413-6425 | the dispositions of a snapshot remember every record it was made from |
| ClosureLaws.OneSlot | experiments/r4_residual_graph/execution.py:6357-6397 | one slot passes the validator exactly when its error entries fit and it has no open retry |
| ClosureLaws.SnapshotStaysCurrent | experiments/r4_residual_graph/execution.py:6413-6440 | a fresh snapshot is the one recomputed from the keys it observed |
| ClosureLaws.SnapshotValidatesExactly | experiments/r4_residual_graph/execution.py:6251-6448 | a snapshot of a reachable journal is accepted by its own validator exactly when error entries fit their records and no slot has an open retry |
| ClosureWitnesses.ReachableSnapshotValidatesExactly | experiments/r4_residual_graph/execution.py:6357-6397 | the same for runs of the program: every FAILED record has error text and no slot has an open retry |
| ClosureWitnesses.UnexplainedFailureIsFinal | experiments/r4_residual_graph/execution.py:6357-6397 | once a FAILED record without error text is in the journal of a run, the snapshot of every later journal is rejected |
| ClosureWitnesses.ReconciledFailureIsRejected | experiments/r4_residual_graph/supervisor.py:314-318 | the program reaches this: a reconciled attempt leaves a FAILED record with no error entry, and however the journal grows afterwards its snapshot is rejected |
| ClosureWitnesses.ReadingsDisagree | experiments/r4_residual_graph/execution.py:5198-5199 | while a retry is open the last record of the slot is STARTED and its last terminal line FAILED |
| ClosureWitnesses.OpenRetryIsRejected | experiments/r4_residual_graph/execution.py:5198-5199 | a reachable journal with attempt 0 failed and attempt 1 open: the two readings of the status disagree and the snapshot is rejected |
| ReportLog.StepIsSound | experiments/r4_residual_graph/execution.py:6820-6990 | with any number of writers and a moving journal, each of count, draft, check, create, read-back and crash keeps: every report valid as long as the journal can be read, no number skipped, every draft taken from an earlier journal; and alters no report |
| ReportLog.RunIsSound | experiments/r4_residual_graph/execution.py:6820-6990 | the same over whole runs: no report is ever altered or lost |
| ReportLog.CreateExactly | experiments/r4_residual_graph/execution.py:6971-6980 | creating the file keeps the log readable exactly when the draft still bears the next number and the journal can be read; a taken name stops the writer |
| ReportLog.ReadBackExactly | experiments/r4_residual_graph/execution.py:6981-6989 | the read-back returns exactly when no number is shared, no report was created after its own and the journal can be read |
| ReportLog.OverlapExactly | experiments/r4_residual_graph/execution.py:6820-6990 | a whole write against anything that happens meanwhile: its file keeps the log readable exactly when no report was created between its count and its creation and the journal can be read |
| ReportLog.WriteReturnsExactly | experiments/r4_residual_graph/execution.py:6820-6990 | a write returns exactly when its own report is the only one created from its count to its read-back and the journal can then be read |
| ReportLog.CollisionIsFinal | experiments/r4_residual_graph/execution.py:6694-6696 | once the log does not read back no later read of it returns, no later write gets past its count and no pending write returns |
| ReportLog.RunReadsBackExactly | experiments/r4_residual_graph/execution.py:6666-6705 | the log reads back after a run exactly when every report of the run was created under the then next number and, if there is a report, the journal can be read |
| ReportLog.SerialIsOnTime | experiments/r4_residual_graph/execution.py:6820-6990 | if no call counts while another is between its count and its creation, every report is created on time and the numbers stay 1..n |
| ReportLog.OverlapCollides | experiments/r4_residual_graph/execution.py:6847-6980 | wherever one write would succeed, two that count before either creates take one number: with different subjects both files appear and the log is unreadable, with one subject the second creation fails |
| ReportLog.OverlapEndsTheLog | experiments/r4_residual_graph/execution.py:6820-6990 | after such an overlap, whatever follows, no read returns, no write returns and no new write begins |
| ReportLog.WriteInOneGo | experiments/r4_residual_graph/execution.py:6820-6990 | an uninterrupted write returns exactly when it adds a report: with no other writer its read-back cannot fail |
| ReportLog.WriteSucceeds | experiments/r4_residual_graph/execution.py:6820-6990 | wherever a snapshot is taken and accepted an uninterrupted write adds a report and returns |
| ClosureHistory.ObservedRecordsStay | experiments/r4_residual_graph/execution.py:6413-6440 | the observed records of a grown journal are those of the old one |
| ClosureHistory.ValidityPersists | experiments/r4_residual_graph/execution.py:6413-6440 | a snapshot that agreed with the journal agrees with every later journal |
| ClosureHistory.RacedValidityExactly | experiments/r4_residual_graph/execution.py:6413-6440 | after any racing appends a snapshot that validated still does, exactly when no attempt has both terminal files |
| ClosureHistory.EveryReportStillValidates | experiments/r4_residual_graph/execution.py:6666-6705 | in every run with any number of report writers, crashes and racing appends taken apart into steps, no report is ever altered, each still validates exactly when no attempt has both terminal files, and the log reads back exactly when moreover every report was created on time |
| ClosureHistory.SerialWritesStayNumbered | experiments/r4_residual_graph/execution.py:6820-6990 | if no call of the writer counts while another is between its count and its creation, the numbers are 1..n in every run and the log reads back whenever the journal does |
| ClosureHistory.CheckSucceedsExactly | experiments/r4_residual_graph/execution.py:6971 | a draft passes its validation exactly when the journal it was drafted from had fitting errors and no open retry, and the journal can still be read |
| ClosureHistory.OverlappingWritesEndTheLog | experiments/r4_residual_graph/execution.py:6820-6990 | the program reaches this: two overlapping writes on a new journal both create a report number 1, and no read and no write ever returns again |
| ClosureHistory.RacingAppendsEndTheLog | experiments/r4_residual_graph/execution.py:6666-6705 | wherever an attempt is STARTED and nothing else two racing opposite terminal appends end the log: no stored report validates again, and with a report stored no read and no write returns |
| ClosureHistory.ReportWhileStarted | experiments/r4_residual_graph/execution.py:6820-6990 | the program reaches such a state with a report stored |
| ClosureHistory.DraftValidatesExactly | experiments/r4_residual_graph/execution.py:6177-6448 | a drafted snapshot validates against a later journal exactly when it was valid against its own |
| ClosureWriter.GroupById | experiments/r4_residual_graph/execution.py:5170-5185 | the grouping loop gives each slot id its records in order |
| ClosureWriter.BuildDispositions | experiments/r4_residual_graph/execution.py:5170-5223 | the loop over slot ids builds the dispositions function, raising exactly when some lifecycle is not canonical |
| ClosureWriter.BuildSnapshot | experiments/r4_residual_graph/execution.py:6766-6808 | the snapshot loop computes the snapshot function |
| ClosureWriter.ReportStore.TakeSnapshot | experiments/r4_residual_graph/execution.py:6766-6808 | the snapshot of the whole journal, or of the observed keys |
| ClosureWriter.ReportStore.ValidateLedgerSnapshot | experiments/r4_residual_graph/execution.py:6177-6448 | the validator accepts exactly the snapshots that are well formed and equal to the one recomputed from the observed keys |
| ClosureWriter.ReportStore.NamesInSequence | experiments/r4_residual_graph/execution.py:6666-6696 | report names in order, returned exactly when the numbers are 1..n |
| ClosureWriter.ReportStore.ReportRecords | experiments/r4_residual_graph/execution.py:6666-6705 | reads all reports, in number order, exactly when they are contiguous and each validates now |
| ClosureWriter.ReportStore.CreateReport | experiments/r4_residual_graph/execution.py:6978-6990 | creating and reading back with no other writer: the read-back, content check included, cannot fail |
| ClosureWriter.ReportStore.WriteReport | experiments/r4_residual_graph/execution.py:6820-6990 | one uninterrupted write leaves the reports the protocol steps leave, and returns exactly when it added one |
| Framing.FramingIsUnique | experiments/r4_residual_graph/resource_watchdog.py:296-303 | records and rest are the only newline-free records and newline-free tail that spell the stream |
| Framing.FramingReads | experiments/r4_residual_graph/resource_watchdog.py:296-303 | records, a newline after each, and the rest are the stream: nothing lost or reordered |
| Framing.FramingSplits | experiments/r4_residual_graph/resource_watchdog.py:577-589 | reading on continues from the rest of what was read |
| Framing.ChunkingDoesNotMatter | experiments/r4_residual_graph/resource_watchdog.py:577-589 | for every way of cutting the stream into chunks the same records are handed on and the buffer ends as the suffix after the last newline |
| Framing.LineBuffer.Feed | experiments/r4_residual_graph/resource_watchdog.py:585-589 | the partition loop hands on the records of buffer and chunk and keeps the rest |
| Sampler.PersistentSampler.Sample | experiments/r4_residual_graph/resource_watchdog.py:274-308 | a returned reading is the next authentic row of the stream that was not handed out; anything else hands out nothing |
| Sampler.PersistentSampler.Absorb | experiments/r4_residual_graph/resource_watchdog.py:294-303 | buffering a chunk takes its complete rows in order and stops at the first refused row |
| Sampler.PersistentSampler.PopLeft | experiments/r4_residual_graph/resource_watchdog.py:275-276 | the oldest waiting reading is the next authentic row |
| Sampler.PersistentSampler.ReadingsOfStream | experiments/r4_residual_graph/resource_watchdog.py:274-308 | readings handed out and waiting are those of the whole stream however it arrived |
| Sampler.ReadingsAreNumbered | experiments/r4_residual_graph/resource_watchdog.py:269-272 | readings are numbered from one without gaps |
| SupervisedRun.AtMostTwoSamplers | experiments/r4_residual_graph/resource_watchdog.py:230-260 | in every lawful log at most two sampler processes were started, those included whose constructor raised |
| SupervisedRun.ReplacedWhileStopped | experiments/r4_residual_graph/resource_watchdog.py:519-530 | a sampler is replaced only while the child is stopped or has exited |
| SupervisedRun.SignalledAlive | experiments/r4_residual_graph/resource_watchdog.py:176-193 | nothing is sent to a child that was seen to have exited or was not identified |
| SupervisedRun.SamplesFollowPolls | experiments/r4_residual_graph/resource_watchdog.py:564-574 | there is the startup sample and at most one more for each poll that found the child alive |
| SupervisedRun.OneSampleBetweenPolls | experiments/r4_residual_graph/resource_watchdog.py:564-574 | between one such poll and the next exactly one sample is recorded |
| SupervisedRun.SamplesAreReported | experiments/r4_residual_graph/resource_watchdog.py:503-507 | the recorded samples are a prefix of what the first sampler reports followed by a prefix of what the second one reports: none repeated, skipped or reordered |
| SupervisedRun.ContinuedOnGoodTelemetry | experiments/r4_residual_graph/resource_watchdog.py:548-562 | the child is continued only when identified and stopped, straight after a sample, with every sample at or above the floor and of one total |
| SupervisedRun.RepliesAreExact | experiments/r4_residual_graph/resource_watchdog.py:462-472 | every reply carries the minimum of all samples so far, which met the floor |
| SupervisedRun.LawfulEverywhere | experiments/r4_residual_graph/resource_watchdog.py:493-562 | what a log allows, it allows at every event |
| Watchdog.ConclusionExplains | experiments/r4_residual_graph/resource_watchdog.py:537-562 | from how the loop was left to what the result says of the samples |
| Watchdog.Supervisor.SendSignal | experiments/r4_residual_graph/resource_watchdog.py:176-193 | a signal is delivered only to an identified child that has not exited; otherwise the child is gone or the call raises |
| Watchdog.Supervisor.TerminateOwned | experiments/r4_residual_graph/resource_watchdog.py:196-209 | the first signal is SIGKILL for a paused child and SIGTERM for any other, only SIGKILL can follow; success means the child is reaped |
| Watchdog.Supervisor.CleanUp | experiments/r4_residual_graph/resource_watchdog.py:151-173 | every registered action is attempted, last first, whatever fails; success means the child is reaped |
| Watchdog.Supervisor.StartSampler | experiments/r4_residual_graph/resource_watchdog.py:230-260 | a started process is logged whether or not its constructor then raises; only a completed one is owned |
| Watchdog.Supervisor.AskSampler | experiments/r4_residual_graph/resource_watchdog.py:503-507 | a sample is taken from the sampler in use: the next one it reports; none can be taken while an earlier one is not on record |
| Watchdog.Supervisor.StopChild | experiments/r4_residual_graph/resource_watchdog.py:519-521 | afterwards the child is stopped by a delivered SIGSTOP or has exited |
| Watchdog.Supervisor.Recover | experiments/r4_residual_graph/resource_watchdog.py:508-540 | a lost sample leaves the child stopped or exited and restarts the sampler at most once |
| Watchdog.Supervisor.Compare | experiments/r4_residual_graph/resource_watchdog.py:541-561 | a recorded sample is compared with total and floor, and only then resumes the child |
| Watchdog.Supervisor.Judge | experiments/r4_residual_graph/resource_watchdog.py:503-561 | a heard sample is recorded before anything is decided on it |
| Watchdog.Supervisor.TakeSample | experiments/r4_residual_graph/resource_watchdog.py:495-562 | one sample call with two attempts; its end is unreachable |
| Watchdog.Supervisor.HandleRecord | experiments/r4_residual_graph/resource_watchdog.py:453-474 | phase and READY records are handled, READY only when validated and then answered with the minimum so far, all others raise |
| Watchdog.Supervisor.Pump | experiments/r4_residual_graph/resource_watchdog.py:574-589 | every complete record read so far has been handled, in order |
| Watchdog.Supervisor.PollChild | experiments/r4_residual_graph/resource_watchdog.py:564 | the loop polls again only after the sample that the last poll asked for |
| Watchdog.Supervisor.Turn | experiments/r4_residual_graph/resource_watchdog.py:565-600 | a turn after a poll records one sample, folds it into the minimum and handles the complete records |
| Watchdog.Supervisor.Watch | experiments/r4_residual_graph/resource_watchdog.py:564-600 | the polling loop ends with samples that explain its reason |
| Watchdog.Supervisor.Supervise | experiments/r4_residual_graph/resource_watchdog.py:370-631 | whole runs: lawful log, samples exactly those the samplers report in order and one for each poll, a reply for each READY record, clean-up attempted in reverse order, a spawned child always ended and waited for; a returned result has a reaped child, minimum and total of exactly the recorded samples, FAIL reasons exactly when a sample says so, and PASS only with an accepted receipt |
| Clusters.FindClusters | experiments/universe_discovery/atlas.py:171-184 | after relabelling over all pairs two families share a label exactly when a chain of highly correlated pairs joins them; a label labels itself |
| Clusters.RelabelKeeps | experiments/universe_discovery/atlas.py:180-183 | relabelling keeps every label a self-labelled member of its own component |
| Clusters.LabelsAreComponents | experiments/universe_discovery/atlas.py:171-184 | from processed pairs sharing labels to components |
| Clusters.Drawdown | experiments/universe_discovery/atlas.py:112-118 | the loop computes the deepest fall of the running sum |
| Clusters.DeepestIsLeast | experiments/universe_discovery/atlas.py:112-118 | that fall is the least of S(j) - S(i) over i <= j, and is one of them |
| Selection.Select | experiments/universe_discovery/atlas.py:223-234 | the greedy loop computes the selection function and its group counts |
| Selection.Rank | experiments/universe_discovery/atlas.py:226 | the ranking is a permutation sorted by score and family |
| Selection.SelectionIsFeasible | experiments/universe_discovery/atlas.py:223-234 | distinct clusters, at most two per group, at most the requested size, finite scores, all from the candidates |
| Selection.LeftOutWhenBlocked | experiments/universe_discovery/atlas.py:229-230 | a candidate is left out exactly when the ones selected from those ranked before it fill the size or block it |
| Selection.SelectionIsMaximal | experiments/universe_discovery/atlas.py:223-234 | no candidate of finite score can be added |
| Selection.BlockedByBetter | experiments/universe_discovery/atlas.py:226-234 | whoever blocks a left-out candidate scores at least as high |
| Selection.SelectionIsAtLeastHalf | experiments/universe_discovery/atlas.py:223-234 | any other set that meets the constraints is at most twice as large |
| Cohorts.Sample | experiments/universe_discovery/atlas.py:266 | any choice of k items at distinct positions of a pool that holds k |
| Cohorts.PoolsSuffice | experiments/universe_discovery/atlas.py:261-289 | every cell and every group holds at least as many eligible as selected members |
| Cohorts.MatchedDraw | experiments/universe_discovery/atlas.py:270-289 | a matched draw replaces every member by a distinct eligible one of its own nuisance cell; the infeasible return is unreachable |
| Cohorts.StratifiedDraw | experiments/universe_discovery/atlas.py:261-269 | a stratified draw has exactly the selected group counts, without repetition |
| Cohorts.SelectCohorts | experiments/universe_discovery/atlas.py:202-302 | selection and all draws, from clustered descriptors to cohorts, whatever the random choices |
| Cohorts.ChosenAreUnjoined | experiments/universe_discovery/atlas.py:211-232 | no two selected families are joined by a chain of highly correlated pairs |
| Cohorts.LeftOutIsJoined | experiments/universe_discovery/atlas.py:224-235 | a scored family left out of a selection with room is joined to a selected one, or two of its group are selected |
| Cohorts.AnchorDraws | experiments/universe_discovery/atlas.py:245-253 | each anchor view is drawn from the anchors without repetition, as many as were selected |
| Cohorts.SelectDescriptors | experiments/universe_discovery/atlas.py:202-302 | clustering, selection and draws together, from unclustered descriptors: the greedy selection of a ranking, within size and group bounds, no two selected joined, nothing scored that could be added |
| Balance.ManualCounts | experiments/r4_residual_graph/qualification.py:166-174 | counts row by row; returns exactly when all targets are canonical and every instrument occurs |
| Balance.GroupedCounts | experiments/r4_residual_graph/qualification.py:177-182 | counts by comprehension; returns exactly when every instrument occurs |
| Balance.WeightedSumIsBalanced | experiments/r4_residual_graph/evaluation.py:87-118 | the weighted sum over rows is the equal-instrument mean of per-instrument means |
| Balance.WeightsSumToOne | experiments/r4_residual_graph/stage_cache.py:390-399 | the row weights of a training cache sum to one |
| Balance.GroupedWeightedLossIsBalanced | experiments/r4_residual_graph/grouped.py:56-69 | the grouped loss is the same weighted sum |
| Grouping.CanonicalTimestampGroups | experiments/r4_residual_graph/grouped.py:42-53 | accepted exactly when the timestamps are nondecreasing; the groups are then the rows of each distinct timestamp |
| Grouping.RowsOfAre | experiments/r4_residual_graph/qualification.py:321-325 | the rows of distinct timestamps: every row of each, none twice |
| Traversal.OracleObjective | experiments/r4_residual_graph/qualification.py:185-279 | row by row: returns exactly on covered canonical targets, with the balanced loss and each row its own output, for every width |
| Traversal.PredictGroup | experiments/r4_residual_graph/qualification.py:326-351 | addressing by position within the group gives each row its own timestamp |
| Traversal.VisitGroup | experiments/r4_residual_graph/qualification.py:352-357 | a group visits each of its rows once and adds its terms to the loss |
| Traversal.GroupedObjective | experiments/r4_residual_graph/qualification.py:298-363 | by groups of distinct timestamps: every row once, output at its own row, the same balanced loss for every width |
| Traversal.CompareObjectives | experiments/r4_residual_graph/qualification.py:185-363 | row by row and by groups agree in outcome, loss and outputs at any two widths |
| Pipeline.OrderedTransforms | experiments/r4_residual_graph/stage_cache.py:339-352 | yields the sequential map in order up to the first failing transform, submits each task once, and never holds more than the window |
| Pipeline.StreamedSources | experiments/r4_residual_graph/stage_cache.py:355-368 | a forward-only source serves the timestamps exactly when they are a subsequence of it, each at the first position where it can be |
| Pipeline.RowPositions | experiments/r4_residual_graph/stage_cache.py:371-385 | each row gets the position of its own timestamp, or the batch is refused |
| Pipeline.MaterialiseBatch | experiments/r4_residual_graph/stage_cache.py:403-455 | a batch that holds its tensors is cached exactly when it is cacheable, and each row reads the transform of its own timestamp |
| Pipeline.MaterialiseStream | experiments/r4_residual_graph/stage_cache.py:355-455 | a batch with a forward-only source is cached exactly when it is addressable, the source serves its timestamps and each value transforms; each row reads the transform of the value under its own timestamp, at the first position where it can be |
| Projection.ProjectionIsExact | experiments/r4_residual_graph/stage_cache.py:233-264 | a projection is the subsequence of rows at the authorised positions, all of them, and names each of their timestamps once and no other |
| Projection.ProjectionIsCacheable | experiments/r4_residual_graph/stage_cache.py:233-264 | a projected batch is cacheable exactly when its named tensors transform |
| Projection.RowWeights | experiments/r4_residual_graph/stage_cache.py:393-399 | weights are returned exactly on covered canonical targets, one per row, and sum to one |
| EconomicGraph.BuildEconomicGraph | experiments/r4_residual_graph/graph.py:67-127 | every weight is the strongest relation of its pair, a zero degree is impossible, and the normalised matrix is the normalisation |
| EconomicGraph.WeightedIsSound | experiments/r4_residual_graph/graph.py:104-111 | symmetric, unit self-loops, degrees at least one |
| EconomicGraph.CyclicPermutation | experiments/r4_residual_graph/graph.py:150-167 | returns exactly for two or more nodes and a non-zero remainder; the validity checks cannot fail |
| EconomicGraph.ShiftIsDerangement | experiments/r4_residual_graph/graph.py:155-159 | a non-zero shift is a bijection without fixed point |
| EconomicGraph.RotationIsValid | experiments/r4_residual_graph/graph.py:160-166 | rows and columns of the permutation sum to one and its diagonal is zero |
| EconomicGraph.ConjugatedAt | experiments/r4_residual_graph/graph.py:174 | conjugating by the permutation relabels the nodes |
| EconomicGraph.ShuffleKeepsWeights | experiments/r4_residual_graph/graph.py:170-174 | the shuffled graph has the same multiset of degrees and every weight as often |
| EconomicGraph.ShuffleCommutesWithNormalisation | experiments/r4_residual_graph/graph.py:110-115 | conjugating the normalised matrix is normalising the conjugated matrix |
| EconomicGraph.ShuffleEconomicGraph | experiments/r4_residual_graph/graph.py:170-211 | the shuffled control relabels the weights and is normalised although it is never renormalised; refused exactly by shift or structure |
| ForecastRows.IndexOutcomes | experiments/r4_residual_graph/evaluation.py:358-383 | accepts unique outcomes and indexes them by key and by period in order |
| ForecastRows.RowsOfPayload | experiments/r4_residual_graph/evaluation.py:389-467 | a payload passes its checks exactly when it covers its stage support in order with fitting entries |
| ForecastRows.PayloadRows | experiments/r4_residual_graph/evaluation.py:352-486 | returns exactly on acceptable data, with the rows of every in-period payload in order |
| ForecastRows.SlotRowsAreSupport | experiments/r4_residual_graph/evaluation.py:352-486 | a slot holds its stage support, each key once and in canonical order |
| ForecastRows.EveryOutcomeIsUsed | experiments/r4_residual_graph/evaluation.py:474-483 | no outcome is unused, and every slot of its stage forecasts it |
| ControlRows.DeduplicateControlRows | experiments/r4_residual_graph/evaluation.py:489-518 | returns exactly when every repeat agrees with the first of its place; one row per place, places in order |
| ControlRows.OneControlRowPerOutcome | experiments/r4_residual_graph/evaluation.py:489-518 | when places determine outcomes, deduplication gives one control row per outcome however many families and seeds repeat it |
| Ranks.AverageTieRanks | experiments/r4_residual_graph/evaluation.py:183-195 | for any order that sorts the values the tie loop gives each the number smaller plus half of one more than the number equal |
| Ranks.RunCounts | experiments/r4_residual_graph/evaluation.py:188-193 | a run in a sorted order counts the smaller and the equal values |
| Ranks.RanksRespectOrder | experiments/r4_residual_graph/evaluation.py:183-195 | a larger value has a larger rank |
| Ranks.RanksSum | experiments/r4_residual_graph/evaluation.py:183-195 | the ranks of n values sum to n (n + 1) / 2 |
| Pooled.AddingIsConcatenating | experiments/r4_p1_learnability/analysis.py:97-104 | adding the statistics of two blocks gives those of the blocks laid end to end |
| Pooled.ReductionIsBalanced | experiments/r4_p1_learnability/analysis.py:80-94 | reducing a block gives the instrument-balanced error of its rows |
| Pooled.PoolingIsConcatenating | experiments/r4_p1_learnability/analysis.py:65-104 | pooling and reducing is evaluating the concatenated rows: union within instrument, then equal weight |
| Pooled.ComparisonIsConsistent | experiments/r4_p1_learnability/analysis.py:116-140 | the aggregate delta is the mean of the instrument deltas, group breadths add up, the best share lies between an equal share and the whole |
| Pooled.AggregateDeltaIsMean | experiments/r4_residual_graph/evaluation.py:121-145 | on common rows the aggregate delta is the mean of the per-instrument deltas |
| Pooled.CompleteTable | experiments/r4_p1_learnability/analysis.py:97-113 | both blocks and their combination, each with reduced errors and skill over its zero forecast, returned exactly when families match and no zero forecast is free of error |

## Left out

- Watchdog.Supervisor.Supervise: does not model the `memory_sample` callback, the per-phase minima, the anomaly diagnostics, elapsed time or the sampler identities; deadlines are arbitrary choices, and a run polls any finite number of times.
- Watchdog.Supervisor.AskSampler: what a sampler reports is given beforehand, as the readings of the rows it is going to write; the sampler objects of `Sampler` are not fields of the supervisor.
- Watchdog.Supervisor.SendSignal: authenticate-then-signal is one step, and /proc reads are an arbitrary outcome.
- Sampler.PersistentSampler.Sample: waits are bounded by a parameter; each wait yields one read of standard output; standard error is not kept.
- Attempts.RunIsLawful: an append is one step; under racing appends the invariant holds exactly while no attempt has both terminal files (`RacedJournal.LawfulExactly`).
- Publication.RunIsSound: appends are single steps, so one process records an attempt's outcome at a time.
- Publication.SealedCrashIsRecovered: covers the sealed staging directory; the other reconciliation cases are steps of the protocol without a liveness statement.
- ReportLog.RunIsSound: reading all reports, and creating one, are single steps; a number stays below the million that six digits hold.
- ClosureHistory.EveryReportStillValidates: fields of a report that do not depend on the journal, and the duplicate digest and length fields of a snapshot, are not modelled.
- Racing.TerminalAppendsAgree: a read of an attempt is a sequence of looks at its files; torn writes are excluded by atomic creation.
- Traversal.OracleObjective: models the scalar branch; the vectorised no-graph branch reads one timestamp for a whole chunk and depends on a batch size set elsewhere.
- Traversal.GroupedObjective: a target outside the universe is refused at once, where the code fails when its row is reached; negative targets do not wrap around.
- EconomicGraph.BuildEconomicGraph: holds for any list of distinct instruments, of which the canonical twenty are one; the edge list, its rationales and the identities are not modelled, and square roots stay uninterpreted.
- EconomicGraph.ShuffleEconomicGraph: the 50% structural test is a condition of the model; that the canonical graph passes it is not shown.
- Clusters.FindClusters: the correlation of a pair is an arbitrary relation of positions.
- Cohorts.SelectCohorts: `rng.sample` is any choice of distinct positions; the simple cohort and the overlap counts are left out.
- ForecastRows.PayloadRows: type checks of JSON values are left out, as are family and seed, which are read off the slot id; the float32 sum is a real sum.
- ControlRows.DeduplicateControlRows: the three identity fields are one value, and the constant zero forecast is left out.
- Pooled.AggregateDeltaIsMean: stated where every instrument has rows; the market-group diagnostics are left out.
- Pooled.AddingIsConcatenating: an observation carries target, prediction, residual and correction together, so shapes agree by construction, and reals are finite.
- Pipeline.StreamedSources: laziness of the generator is not modelled, only the order in which the source is read.
- Ranks.AverageTieRanks: `argsort` is any order that sorts the values.
- Attempt numbers are 0 or 1 by type; the code checks the same range.
- CUDA, Torch and LSTM numerics, optimiser steps, float tolerances, ridge fitting, Parquet loading: library behaviour.
- The register, capsule and calibration validators: each recomputes the digests, identities and counts of recorded artifacts and compares them field by field with the recorded ones, with no state between the comparisons.
- The supervisor command loop, argparse, printing, migrations and the API are not part of this model.
- JSON text, fsync durability, symlink checks, disk projections and environment checks are not part of this model.
