# Verified model of the upload hub

rclone-sync-hub keeps local folders uploaded to remote storage. Several processes share a MySQL database, and correctness rests on
conditional row updates instead of locks. This project models the parts where that is hardest and proves what they promise:

- the durable upload queue: rows with owners, lease expiries, attempt counters and cancel flags, driven by some fifteen
  operations that any number of workers, users and maintenance jobs interleave (`TaskTable`, `TaskRepository`, `TaskProtocol`);
- the worker's heartbeat, with time, against arbitrary foreign operations (`LeaseTiming`), and its retry delay (`RetryPolicy`);
- what each queue operation means for the claims after it (`TaskEffects`);
- upload marks under concurrent scans, uploads, destination changes and file changes (`UploadMarks`, `DestinationChanges`), and
  the repository's statements as steps of that machine (`MarkRefinement`);
- the batched snapshot update (`FileRecords`) and the folder scan: pruned walk (`FolderWalk`), per-file decisions
  (`FolderScan`), database writes (`ScanFacts`, `ScanRows`, `FolderScanner`) and what a scan guarantees (`ScanTheorems`,
  `ScanVerdicts`, `ScanKeys`);
- task keys (`IdempotencyKey`) and the path functions everything rests on (`PathText`);
- the index of a remote route (`RemoteIndex`);
- moving a batch of remote files (`RemoteStore`, `MoveExecution`, `BatchMove`, `BatchAnswers`) and the in-memory manager that
  runs such batches in the background (`MoveManager`);
- browsing the file index of a folder (`BrowseIndex`, `MapSums`).

Code that changes state is a class or a method with loops, proved against a specification function; what the source promises is
proved about that function, as lemmas over all inputs and all runs, in terms of columns, paths and texts rather than of its
own parts. A transaction or a single SQL statement is one step.

`dafny verify dfyconfig.toml` checks everything.

## Assumptions

- One clock; time is an integer. `FOR UPDATE SKIP LOCKED` is an arbitrary set of locked rows. Identifiers are never reused.
- SHA-256 is injective: a task key stands for its payload, a path hash for its path. Characters are bytes, and the blanks that
  trimming removes are the ASCII ones.
- Lease owners are non-empty. `maxAttempts` is at least one (`internal/worker/queue.go:140`).
- A claimed task carries a fingerprint (`UploadMarks`); rows without one may be read and written.
- Stored times are exact (`LeaseTiming`). MySQL rounds them to milliseconds, so during the last millisecond before a deadline the
  stored lease may already have run out; that rounding is not modelled.
- A scan is the only writer of its rows and tasks while it runs (`FolderScanner`); the interleaved case is `UploadMarks`.
  Stored local paths are clean, as the scanner writes them, and directory entries have distinct names.
- The remote changes only through the batch's own moves; directories stay when their last file leaves.
- Operation identifiers are fresh.

## Where the code does not do what one would expect

- `ClaimNext` rolls its sweeps back when nothing is claimable (`internal/repository/task_repository.go:293-295`), so what the
  sweeps do is stated for committed claims only.
- The batched snapshot update copies `missing_at` from the record, the one-row form writes NULL. The scanner never resets the
  field, so a file that reappears stays marked missing (`ScanTheorems.ReappearedStaysMissing`), its row is written at every scan
  (`ScanTheorems.MissingRowIsRewritten`), and as long as it is dated in the future it stays unstable
  (`ScanTheorems.ReappearedFileNeverSettles`).
- A successful or canceled task with the same key blocks a new one. So a successful scan leaves a due file with exactly one task
  row of its key (`ScanTheorems.ScanIsComplete`), but with an open one exactly when no such task had the key before
  (`ScanTheorems.OpenTaskExactlyWhen`). A change of the destination, away and back, leaves such files behind: they are due, their
  tasks are canceled, and every scan counts them as unchanged (`ScanTheorems.BlockedFileIsNotQueued`).
- The comment on `UpdateSnapshots` (`internal/repository/file_record_repository.go:53-55`) says that a concurrent upload can only
  mark the new version. It holds exactly for writes that meet no mark, clear it, or write the version that is there
  (`UploadMarks.WriteIsSoundExactlyWhen`); `UploadMarks.StaleWriteBreaksMarks` is a run that breaks it.
- `RenewLease` computes the new expiry before it sends the statement (`internal/repository/task_repository.go:327`). A statement
  that commits after a later renewal was confirmed shortens the lease, and the row can be claimed while the heartbeat still
  counts on it (`LeaseTiming.LateCommitLosesTheRow`). The statement names the worker but not the lease, so one left from an
  earlier lease of the same task does the same (`LeaseTiming.EarlierLeaseLosesTheRow`).
  `LeaseTiming.EffectKeepsSafeExactlyWhen` says when a late commit is harmless.
- Asking the file browser for a directory whose path begins or ends with a blank shows another directory
  (`BrowseIndex.BrowsingIntoLandsExactlyWhen`, `BrowseIndex.BlankEntryLandsElsewhere`).
- An object whose path cleans to "." is indexed under the path "." if it is a file, and skipped if it is a directory
  (`RemoteIndex.DotIsIndexedExactlyForFiles`).

## Model

| member | source | states |
|---|---|---|
| `TaskRepository.TaskRepository.ClaimNext` | internal/repository/task_repository.go:225-324 | A committed claim takes the eligible unlocked row of highest priority and then lowest id, and leaves it running for the caller with an expiry of now plus the lease, one more attempt and the same job; every other row is rewritten by the three sweeps; no claim means nothing was eligible and the table is unchanged, sweeps included |
| `TaskEffects.ClaimLastsForTheLease` | internal/repository/task_repository.go:287-315 | A claimed row is out of reach of claims until exactly now plus the lease, and from then on within reach while attempts are left |
| `TaskTable.SweepsKeepEligibility` | internal/repository/task_repository.go:241-292 | No sweep makes a row claimable or takes a claimable row away, and a claimable row is not rewritten |
| `TaskTable.Winner` | internal/repository/task_repository.go:287-292 | There is a row to claim exactly when a candidate exists, and it is the first one in claim order |
| `TaskRepository.TaskRepository.RenewLease` | internal/repository/task_repository.go:326-332 | Only a running row of the caller without a cancel request is extended, to now plus the lease; the reply says whether it was; no other column or row changes |
| `TaskRepository.TaskRepository.UpdateProgress` | internal/repository/task_repository.go:334-338 | Touches the progress columns of the caller's running row only |
| `TaskRepository.TaskRepository.FinishSuccess` | internal/repository/task_repository.go:340-383 | Success only for the owner and without a cancel request, ending the lease; the file is marked exactly when its row has the given remote name and path, and the given fingerprint unless that is empty; a refused transition changes neither table |
| `TaskRepository.TaskRepository.FinishCanceled` | internal/repository/task_repository.go:385-401 | Cancels exactly the owner's running row, with the time, and ends its lease |
| `TaskRepository.TaskRepository.FailOrRetry` | internal/repository/task_repository.go:403-450 | The reported status is the committed one: canceled if a request is pending, else pending below the attempt limit, else failed; an error changes nothing |
| `TaskEffects.FailureBacksOff` | internal/repository/task_repository.go:403-450 | A failed attempt is within reach of claims exactly from its retry time on, if attempts are left and no cancellation was asked for; otherwise never, ending canceled or failed; its lease is over and the failure counted |
| `TaskRepository.TaskRepository.ReleaseLease` | internal/repository/task_repository.go:452-484 | The two statements in sequence: a pending cancel request becomes a cancellation, any other lease returns to the queue with its attempt handed back |
| `TaskEffects.ReleaseGivesBack` | internal/repository/task_repository.go:470-484 | A released row has its attempt back and any claim at any time may take it |
| `TaskEffects.ReleaseUndoesClaim` | internal/repository/task_repository.go:452-484 | Claim and release in a row restore attempts, failures and job, and leave the row claimable at any time |
| `TaskEffects.ReleaseHonoursCancel` | internal/repository/task_repository.go:452-469 | With a cancel request stored the release ends the row canceled, and no claim takes it again |
| `TaskRepository.TaskRepository.RequestCancelTask` | internal/repository/task_repository.go:498-527 | A running row is flagged, a queued one canceled at once, a finished one reported; the reply is the stored status |
| `TaskEffects.CancelRequestStops` | internal/repository/task_repository.go:498-527 | A queued row ends canceled at once, a finished one stays as it is, a running one changes nothing but the request; no claim takes the row afterwards |
| `TaskRepository.TaskRepository.ResetForRetry` | internal/repository/task_repository.go:529-549 | Reopens exactly failed, canceled and paused rows, as if just created: no attempts used, no lease, no request, no progress, the same job |
| `TaskRepository.TaskRepository.PauseIfNotRunning` | internal/repository/task_repository.go:551-560 | Pauses exactly the rows that are neither running nor successful, without a retry time |
| `TaskEffects.PauseHoldsUntilReset` | internal/repository/task_repository.go:529-560 | No claim at any time takes a paused row; after a reset any claim at any time may, with all its attempts |
| `TaskRepository.TaskRepository.DeleteMany` | internal/repository/task_repository.go:85-123 | Every requested id is removed or reported, as missing or as running; nothing else is removed |
| `TaskEffects.RemovalMeans` | internal/service/maintenance_service.go:85 | Over all operations, a row leaves the table iff it is deleted while not running, or purged as successful, failed or canceled with a finishing time before the cutoff |
| `TaskRepository.TaskRepository.CreateManyIfAbsent` | internal/repository/task_repository.go:179-193 | One row per absent key, none for a present one; old rows untouched; the reply is the number of new rows |
| `TaskRepository.CreateAllExtends` | internal/repository/task_repository.go:179-193 | Insert-if-absent keeps keys unique, leaves every key of the batch present and every old row unchanged |
| `TaskRepository.TaskRepository.CancelFolderTasks` | internal/repository/watch_folder_repository.go:157-176 | The two bulk statements together flag running tasks and cancel queued ones of the folders, and touch nothing else |
| `TaskProtocol.ApplyKeepsInv` | internal/repository/task_repository.go:225-560 | Every operation keeps, for every row: running iff leased, cancel request only while running, 0 <= attempts <= M, running rows have used an attempt, pending rows have one left and are not finished, terminal rows are finished |
| `TaskProtocol.RunKeepsInv` | internal/repository/task_repository.go:225-560 | The row invariant holds after any interleaving of operations |
| `TaskProtocol.PendingIsClaimable` | internal/repository/task_repository.go:262-292 | In every reachable table a pending row is claimable from its retry time on: none is stuck |
| `TaskProtocol.ClaimSweeps` | internal/repository/task_repository.go:241-285 | In a reachable table the first sweep finds nothing; an expired running row that is not the one claimed ends canceled, failed, or unchanged and still claimable |
| `TaskProtocol.StrayRequestIsSwept` | internal/repository/task_repository.go:241-252 | Were a queued row to carry a cancel request, the first sweep would end it as canceled |
| `TaskProtocol.UnexpiredLeaseIsKept` | internal/repository/task_repository.go:251-292 | A claim neither takes nor changes a row whose lease has not expired, whatever rows are locked |
| `TaskProtocol.CancelIsNeverLost` | internal/repository/task_repository.go:452-527 | In every run a cancel request on a running row stays until the row's next status, and that status is canceled, also between the two statements of a release |
| `TaskProtocol.FolderCancellationDooms` | internal/repository/watch_folder_repository.go:210-230 | A destination change or folder deletion leaves each task of the folder canceled, or running with a cancel request, or already successful |
| `TaskProtocol.NoSuccessAfterFolderCancellation` | internal/repository/remote_route_repository.go:153-177 | No task that existed then and had not succeeded reaches success in any continuation that does not reset it |
| `TaskProtocol.ResetReopens` | internal/repository/task_repository.go:529-549 | The exception: a reset makes such a row claimable again exactly when it is not running |
| `TaskProtocol.SuccessIsAbsorbing` | internal/repository/task_repository.go:340-560 | A successful row never takes another status in any run |
| `TaskEffects.JobIsFixed` | internal/repository/task_repository.go:225-560 | In every run a row keeps the file, folder, version, target, key and priority it was created with |
| `TaskEffects.OnlyTheOwnerEnds` | internal/repository/task_repository.go:225-560 | While a lease has not expired, only its owner's own result or release takes the row from the owner |
| `TaskProtocol.AttemptAccounting` | internal/repository/task_repository.go:287-315 | In every run from an empty queue the attempt counter is claims minus releases since the last reset, claims <= M + releases, and all claims together <= M * (created + resets) + releases |
| `TaskProtocol.ClaimsBounded` | internal/repository/task_repository.go:287-315 | Without resets and releases N tasks are claimed at most M * N times |
| `TaskProtocol.ReleaseFindsPositiveCounter` | internal/repository/task_repository.go:470-484 | The ELSE 0 branch of the release's decrement is unreachable |
| `LeaseTiming.ConfiguredTiming` | internal/worker/queue.go:112-117 | What fits is kept, otherwise the lease is ninety seconds and the heartbeat a third of it; twice the heartbeat is strictly below the lease, and an attempt takes at most a heartbeat and five seconds |
| `LeaseTiming.RunHeartbeat` | internal/worker/queue.go:358-393 | The loop gives up exactly at the first attempt that is refused, or that fails when one more interval and attempt would end at the deadline or later; otherwise it holds the deadline of the last successful renewal |
| `LeaseTiming.ConfiguredIsValid` | internal/worker/queue.go:112-117 | Every configuration whose lease is at least three time units long meets the timing the theorems below ask for |
| `LeaseTiming.ClaimBeginsLease` | internal/repository/task_repository.go:230-315 | A committed claim, with the deadline it stored and a first tick due early enough, whatever earlier statements are on the way, is the beginning that the lease theorems assume |
| `LeaseTiming.ClaimExcludesClaims` | internal/repository/task_repository.go:251-315 | Until a claimed lease has run out no other claim returns or changes the row, whatever rows are locked |
| `LeaseTiming.EffectKeepsSafeExactlyWhen` | internal/repository/task_repository.go:326-332 | A renewal statement writes the expiry computed when it was sent; whenever it runs, it keeps local deadline and stored lease in step exactly when it finds no row or that expiry reaches the deadline - or, while a confirmed renewal's reply is on its way, the deadline that reply will set |
| `LeaseTiming.RunIsSafe` | internal/worker/queue.go:358-400 | Local deadline and stored lease stay in step over every timed run against arbitrary foreign operations in which every renewal statement meets that condition, also when its attempt had reported an error |
| `LeaseTiming.LeaseExclusion` | internal/worker/queue.go:358-400 | In such a run, which may begin with statements of the same worker's earlier leases of the task still on the way, until the heartbeat gives up, now is before the local deadline, the stored lease reaches it, and no claim by anybody, made now or with an earlier time, takes or changes the row |
| `LeaseTiming.PunctualLeaseExclusion` | internal/worker/queue.go:363-375 | The same without that condition, when ticks are handled more than one attempt apart, a renewal statement runs, if at all, inside its own attempt, and those of earlier leases are out of time when the lease begins |
| `LeaseTiming.LateCommitLosesTheRow` | internal/repository/task_repository.go:326-332 | A run in which one statement commits later: a rival claims the task while the heartbeat has not given up and its deadline is ahead |
| `LeaseTiming.EarlierLeaseLosesTheRow` | internal/repository/task_repository.go:326-332 | The same through a statement of the worker's previous lease of the task, which the row condition does not tell from the present one |
| `UploadMarks.WriteIsSoundExactlyWhen` | internal/repository/file_record_repository.go:53-106 | A snapshot write keeps a row's mark backed, whatever was logged, exactly when the row is unmarked, or the write clears the mark, or it writes the version that is there |
| `UploadMarks.MarksAreSound` | internal/worker/queue.go:255-265 | Over every interleaving of scans, requests, workers, destination changes and file changes in which each write meets that condition, a marked row's fingerprint and target were copied by one attempt that matched the file before and after |
| `UploadMarks.ExclusiveRunsAreHonest` | internal/scheduler/watch_folder_scanner.go:544-581 | Writers that overlap in time but touch different rows, and read fingerprinted ones, meet that condition in every run |
| `UploadMarks.StaleWriteBreaksMarks` | internal/repository/file_record_repository.go:53-106 | A run that ends with a mark on a version nobody copied: scan read, API write, upload and mark, then the scan's write; all steps before the last meet the condition |
| `UploadMarks.RunProjects` | internal/repository/task_repository.go:225-560 | Every run of this machine is a run of the queue protocol, so the queue's theorems apply to it |
| `UploadMarks.CounterIsBounded` | internal/repository/watch_folder_repository.go:390-405 | A folder's uploaded-file counter never exceeds the number of its tasks that made the transition to success |
| `MarkRefinement.Finish` | internal/worker/queue.go:402-412 | For an attempt that knows its fingerprint, FinishSuccess on the stored rows is the machine's finishing step: same queue, same marks, same outcome |
| `MarkRefinement.ScannerWritesRefine` | internal/scheduler/watch_folder_scanner.go:544-624 | The scan's batched update, on rows that workers may have marked since they were read and for every batch size, is the machine's scanner write on each outdated row and nothing on the others |
| `DestinationChanges.DestinationChangeIsHonoured` | internal/repository/watch_folder_repository.go:157-176 | A destination change unmarks the folders' files, and in every run afterwards such a file is marked again only by the success of a task that is new, of another folder, or was reset after the change |
| `DestinationChanges.AttemptsFollowTasks` | internal/worker/queue.go:255-284 | In every run an attempt works at the fingerprint and remote of its task, for the task's file and folder |
| `DestinationChanges.MatchesAreTrue` | internal/worker/queue.go:255-265 | Whenever an attempt is logged as having matched a file, the file had that fingerprint on disk at that moment |
| `FileRecords.FileRecordRepository.UpdateSnapshots` | internal/repository/file_record_repository.go:56-106 | The loop runs one transaction per batch; a failing batch leaves exactly the earlier ones applied |
| `FileRecords.BatchesAreFull` | internal/repository/file_record_repository.go:72-104 | Every batch but the last is full, so a failure of batch k leaves exactly the first k * size records written |
| `FileRecords.FileRecordRepository.CommitBatch` | internal/repository/file_record_repository.go:76-104 | One batch clears the requested marks and then overwrites its records |
| `FileRecords.CommittedRow` | internal/repository/file_record_repository.go:56-106 | A row after any number of batches is its one-row update if a record addressed it, and untouched otherwise |
| `FileRecords.BatchesRefineSingles` | internal/repository/file_record_repository.go:137-153 | For every batch size the batched update equals the one-row form on every column but missing_at and the time stamp |
| `FileRecords.MissingAgreesExactlyWhen` | internal/repository/file_record_repository.go:67-71 | On an addressed row missing_at agrees with the one-row form exactly when the record carries none |
| `FileRecords.FileRecordRepository.MarkMissing` | internal/repository/file_record_repository.go:155-172 | Marks exactly the listed rows that are not yet missing, for every batch size; an older mark keeps its time |
| `FileRecords.FileRecordRepository.CreateSnapshots` | internal/repository/file_record_repository.go:41-51 | Inserts record by record, skipping local paths that are stored |
| `FileRecords.InsertAllEffect` | internal/repository/file_record_repository.go:41-51 | Old rows unchanged, every new row is a record whose path was absent, every path present afterwards, paths stay unique |
| `FolderWalk.WalkIsFilter` | internal/scheduler/watch_folder_scanner.go:478-527 | The pruned walk admits exactly the files of the full listing whose own path passes keywords and depth, in the same order |
| `FolderWalk.MatchesExtends` | internal/scheduler/watch_folder_scanner.go:39-47 | A keyword that excludes a directory excludes every path below it |
| `FolderWalk.MatchesMeans` | internal/scheduler/watch_folder_scanner.go:39-47 | A keyword matches exactly when it occurs somewhere in the path; the test on the base name adds nothing |
| `FolderWalk.WithinMeansSegments` | internal/scheduler/watch_folder_scanner.go:740-748 | For entries of one tree, being within a directory means that the path segments begin with the directory's |
| `FolderWalk.UnseenIsExcluded` | internal/scheduler/watch_folder_scanner.go:497-511 | Whatever the walk never sees lies below an excluded directory it did see |
| `FolderWalk.ProtectionIsThatOfTheTree` | internal/scheduler/watch_folder_scanner.go:625-638 | Judging by what the walk saw protects the same paths from the missing sweep as judging by the whole tree |
| `FolderWalk.WalkIsDistinct` | internal/scheduler/watch_folder_scanner.go:478-496 | No path is visited twice |
| `FolderScan.Scan.WalkDir` | internal/scheduler/watch_folder_scanner.go:478-617 | The callback's decisions produce exactly the pruned walk, and every visited entry is accounted for in the scan's state |
| `FolderScan.Scan.Visit` | internal/scheduler/watch_folder_scanner.go:478-617 | One call of the callback: the counters, seen paths, excluded prefixes, errors and sighted files grow exactly as the entry's filter, depth, readability and remote path demand, the files' part follows the sighted files, and a directory is entered iff it is readable and not excluded |
| `FolderScan.Scan.NoteSnapshot` | internal/scheduler/watch_folder_scanner.go:544-581 | Refreshes the snapshot in memory and queues an insert, an update, or an update that clears the mark |
| `FolderScan.Scan.NoteTask` | internal/scheduler/watch_folder_scanner.go:583-616 | Unstable, uploaded, active and legacy files are skipped; any other becomes a candidate once per key |
| `FolderScan.Compare` | internal/scheduler/watch_folder_scanner.go:544-572 | A write is needed iff the file is new or anything recorded differs or it was missing; the mark is cleared iff a fingerprinted version or its target changed |
| `ScanFacts.SparedIsProtected` | internal/scheduler/watch_folder_scanner.go:625-633 | The two tests of the missing sweep spare exactly the paths the walk protects |
| `ScanFacts.ChangedMeans` | internal/scheduler/watch_folder_scanner.go:573-581 | Every stored row is addressed by at most one queued update, the one its own file asks for |
| `ScanFacts.UpdatedSnapshot` | internal/scheduler/watch_folder_scanner.go:622-624 | After the batched update a loaded row is the refreshed snapshot of its file and every other row is unchanged, for every batch size |
| `ScanFacts.SkippedMeans` | internal/scheduler/watch_folder_scanner.go:583-586 | The unstable counter is the number of files judged unstable |
| `FolderScanner.LoadSnapshots` | internal/scheduler/watch_folder_scanner.go:441-448 | Loads exactly the folder's rows and the unowned ones below its root, indexed by path |
| `FolderScanner.PathWithinAny` | internal/scheduler/watch_folder_scanner.go:740-748 | True exactly for paths at or below one of the roots |
| `FolderScanner.MissingIds` | internal/scheduler/watch_folder_scanner.go:625-633 | Collects exactly the loaded rows that are neither seen, nor already missing, nor inside an excluded directory |
| `FolderScanner.WriteSnapshots` | internal/scheduler/watch_folder_scanner.go:622-652 | After update, sweep, insert and reload every sighted path resolves to a row describing that file, or to no identifier |
| `FolderScanner.AssignIds` | internal/scheduler/watch_folder_scanner.go:653-666 | Each candidate gets its row's identifier; one without is dropped and counted as a problem |
| `FolderScanner.ScanFolder` | internal/scheduler/watch_folder_scanner.go:407-686 | The whole scan: what becomes of every stored row, which tasks are new and that they describe their file rows, the statistics, and an error only after a troubled walk or when a due file's path belongs to another folder; keys stay unique. What this says about files, versions and targets is stated by the ScanKeys and ScanVerdicts rows |
| `ScanRows.WritesMean` | internal/scheduler/watch_folder_scanner.go:622-643 | The three writes together: old rows refreshed and marked as specified, new rows only for files not loaded before, and every sighted file stored |
| `ScanTheorems.FilesAreConserved` | internal/scheduler/watch_folder_scanner.go:667-685 | On success FilesSeen = FilesStableSkipped + FilesUnchanged + TasksCreated, and FilesSeen counts exactly the files of the tree that pass the filter |
| `ScanTheorems.ScanIsComplete` | internal/scheduler/watch_folder_scanner.go:583-675 | On success every file that passes the filter has a remote path, and exactly one task row has its key if it is due; ScanKeys.KeyIdentifies and ScanKeys.DueFileHasItsTask say what the key is worth |
| `ScanKeys.KeyIdentifies` | internal/scheduler/watch_folder_scanner.go:592-594 | Two sightings have the same key iff folder, cleaned local path, fingerprint, remote name and target agree, for NUL-free texts |
| `ScanKeys.ScanKeepsKeys` | internal/scheduler/watch_folder_scanner.go:592-616 | If every stored key is made of its task's own columns and its file row's path, that is so after a scan |
| `ScanKeys.DueFileHasItsTask` | internal/scheduler/watch_folder_scanner.go:583-675 | Then, on success, every due file has exactly one task row with the file's own folder, cleaned path, fingerprint, remote name and target |
| `ScanKeys.NewVersionIsQueued` | internal/scheduler/watch_folder_scanner.go:583-675 | And if no task was for that version and target, the scan has inserted one, pending |
| `ScanVerdicts.TargetIs` | internal/scheduler/watch_folder_scanner.go:530-542 | A file's remote path is its relative path below the folder's remote path, the pipeline's directory in between; none iff the pipeline fails or the path is longer than 768 |
| `ScanVerdicts.LeadingSlashIsIgnored` | internal/scheduler/watch_folder_scanner.go:723-730 | A slash at the front of the pipeline's directory makes no difference |
| `ScanVerdicts.VerdictMeans` | internal/scheduler/watch_folder_scanner.go:583-616 | Unstable, uploaded, legacy or due, in terms of the file, the stored row, the clock and the stable period alone |
| `ScanVerdicts.SightedRowIsRefreshed` | internal/scheduler/watch_folder_scanner.go:544-581 | After any scan the stored row of a sighted file says what the file is and where it goes; size, modification time and observation are renewed iff something differed, and the mark is kept iff the row's version and target are unknown or unchanged |
| `ScanVerdicts.InsertedRowMeans` | internal/scheduler/watch_folder_scanner.go:544-578 | Every inserted row is for a sighted file at a path not loaded, with all its columns, unmarked and not missing |
| `ScanVerdicts.InsertedTaskMeans` | internal/scheduler/watch_folder_scanner.go:597-666 | Every inserted task is for a due file, pending, with the file's version and target and the identifier of a row that says the same |
| `ScanVerdicts.CandidatesAreNew` | internal/scheduler/watch_folder_scanner.go:448-465 | No candidate has the key of an open task of the folder, without help from the unique index |
| `ScanVerdicts.MissingExactlyWhen` | internal/scheduler/watch_folder_scanner.go:625-638 | A row becomes missing iff every visited entry was in order, the row is the folder's or unowned below its root and not missing yet, and no entry of the whole tree accounts for its path |
| `ScanVerdicts.OthersAreUntouched` | internal/scheduler/watch_folder_scanner.go:441-448 | Rows of other folders keep every column |
| `ScanVerdicts.SuccessMeans` | internal/scheduler/watch_folder_scanner.go:667-686 | Success means every visited entry was in order; failure that one was not, or that a due file's path belongs to a row that is not the folder's concern |
| `ScanTheorems.OpenTaskExactlyWhen` | internal/scheduler/watch_folder_scanner.go:583-675 | After a successful scan a due file has an open task exactly when no successful or canceled task had its key before the scan |
| `ScanTheorems.BlockedFileIsNotQueued` | internal/scheduler/watch_folder_scanner.go:583-675 | A concrete folder: a due file whose canceled task has its key, as a destination change away and back leaves it; whatever a scan of it returns, no task is added and none is open |
| `ScanTheorems.BlockedScanSucceeds` | internal/scheduler/watch_folder_scanner.go:667-685 | Such a scan can succeed, counting the file as unchanged |
| `ScanTheorems.MissingMeansGone` | internal/scheduler/watch_folder_scanner.go:625-638 | A row becomes missing iff the walk was error-free, the row was loaded and not missing, and its path is neither an admitted file, nor a filtered entry, nor inside an excluded directory |
| `ScanTheorems.ReappearedStaysMissing` | internal/scheduler/watch_folder_scanner.go:557-571 | A row marked missing keeps the mark when its file is seen again, where the one-row form would reset it |
| `ScanTheorems.FutureFileSettlesExactlyWhen` | internal/scheduler/watch_folder_scanner.go:700-715 | A file dated in the future becomes stable once the period has passed since its first observation, exactly unless its row is marked missing |
| `ScanTheorems.MissingRowIsRewritten` | internal/scheduler/watch_folder_scanner.go:557-578 | A missing row whose file is sighted is written by every scan, with a new observation time and its old mark |
| `ScanTheorems.ReappearedFileNeverSettles` | internal/scheduler/watch_folder_scanner.go:557-586 | Through any number of scans, with marks set in between, such a row stays missing and its file unstable as long as the file is dated in the future |
| `ScanTheorems.QueueKeepsKeys` | internal/repository/task_repository.go:171-560 | Any queue run without deletions keeps every task key |
| `ScanTheorems.RescanCreatesOnlyForUnstable` | internal/scheduler/watch_folder_scanner.go:583-675 | After any marks set and any queue activity that keeps the keys, a second scan of the same tree inserts tasks only for files the first one had found unstable |
| `ScanTheorems.RescanOfStableTreeIsQuiet` | internal/scheduler/watch_folder_scanner.go:583-675 | If every file was stable the first time, that second scan inserts nothing |
| `IdempotencyKey.PayloadIsInjective` | internal/scheduler/watch_folder_scanner.go:717-721 | Payloads agree iff folder, cleaned path, fingerprint, remote name and remote path agree, for NUL-free fields |
| `IdempotencyKey.CleanIsNulFree` | internal/scheduler/watch_folder_scanner.go:717-721 | Cleaning a path introduces no NUL, so the fields of a key stay separable |
| `RetryPolicy.RetryDelay` | internal/worker/queue.go:482-503 | The loop yields base * 2^(n-1) capped at the maximum plus at most a fifth, and no intermediate value exceeds the larger of the two |
| `RetryPolicy.DelaysDouble` | internal/worker/queue.go:121-126 | The first delay is the configured base or thirty seconds, each further one twice the one before, up to the configured maximum or thirty minutes |
| `RemoteIndex.CleanedShape` | internal/scheduler/remote_route_scanner.go:323-333 | A cleaned object path is the root, ".", or a normal path below it |
| `RemoteIndex.NormalObjectIsKept` | internal/scheduler/remote_route_scanner.go:323-333 | A path in normal form is stored as listed, with or without a slash around it |
| `RemoteIndex.ObjectIsRefused` | internal/scheduler/remote_route_scanner.go:323-333 | A path that climbs out of the root or is longer than 2048 is refused; the root is no object |
| `RemoteIndex.AboveIsLeading` | internal/scheduler/remote_route_scanner.go:256-277 | The leading joins of a path's segments are exactly its ancestors |
| `RemoteIndex.RouteIndexer.Flush` | internal/scheduler/remote_route_scanner.go:231-240 | Flushing changes nothing but where the rows are: batch and table together stay the same |
| `RemoteIndex.RouteIndexer.EnsureDirectories` | internal/scheduler/remote_route_scanner.go:256-277 | Adds each not yet seen directory of the chain once |
| `RemoteIndex.RouteIndexer.IndexRoute` | internal/scheduler/remote_route_scanner.go:215-321 | A complete walk ends in the index determined by the listing and the marker alone, for every batch size; a failed one removes no path |
| `RemoteIndex.IndexEqualsListing` | internal/scheduler/remote_route_scanner.go:278-321 | After success a path is indexed iff the listing shows it, or it already was, is not missing and was last seen at the marker or later; a shown path has the listing's row |
| `RemoteIndex.IndexIsExactlyTheListing` | internal/repository/remote_route_repository.go:314-339 | If every stored time of observation is below the marker and no path is both file and directory, the rows are exactly the object paths and their ancestors, with the right kind |
| `RemoteIndex.UnlistedIsRemovedExactlyWhen` | internal/repository/remote_route_repository.go:331-339 | An unlisted row is removed iff it is missing, was never seen or was last seen before the marker; otherwise it is kept as it is |
| `RemoteIndex.IndexedRowMeans` | internal/scheduler/remote_route_scanner.go:241-311 | Column by column, the row of a listed path: a directory's from its path, a file's from an object listed there, a blank name replaced by the last segment |
| `RemoteIndex.ParentsAreIndexed` | internal/scheduler/remote_route_scanner.go:241-255 | Every indexed path below the top level has its parent in the index, as a directory |
| `RemoteIndex.IndexedFilesAreListed` | internal/scheduler/remote_route_scanner.go:278-321 | With increasing markers and no path both file and directory, the indexed files are the file paths of the listing |
| `RemoteIndex.FilesAreCounted` | internal/scheduler/remote_route_scanner.go:303-311 | Then the reported number of files is the number of the route's rows that are not directories iff no file is listed twice, and never less |
| `RemoteIndex.BytesAreCounted` | internal/scheduler/remote_route_scanner.go:303-311 | The reported bytes are the sizes of the listed files, negative ones as nothing |
| `RemoteIndex.OtherRoutesKept` | internal/repository/remote_route_repository.go:331-339 | Indexing a route leaves all other routes' rows alone |
| `RemoteIndex.DotIsIndexedExactlyForFiles` | internal/scheduler/remote_route_scanner.go:323-333 | An object whose path cleans to "." is a row under that path iff it is a file |
| `PathText.NormalizeYieldsNormal` | internal/service/file_index_service.go:56-73 | A normalized path is the root or in normal form, without back-slashes and at most 768 long |
| `PathText.NormalizeIsIdentityWhen` | internal/service/file_index_service.go:56-73 | A path in normal form survives normalization exactly when it has no blank at either end |
| `PathText.NormalizeDropsEdges` | internal/service/file_index_service.go:56-73 | Blanks of any kind around a path are dropped, and so are slashes |
| `PathText.NormalizeRefusesLength` | internal/service/file_index_service.go:69-71 | A path longer than 768 is refused as too long |
| `PathText.NormalizeRefusesClimbing` | internal/service/file_index_service.go:66-68 | A path that climbs out of the root is refused as traversal |
| `PathText.CleanClimbs` | internal/service/file_index_service.go:62 | Cleaning: a segment and the '..' after it may be left out anywhere below a slash |
| `PathText.CleanDrops` | internal/service/file_index_service.go:62 | Cleaning: an empty segment or '.' may be left out anywhere below a slash |
| `PathText.CleanKeepsForm` | internal/service/file_index_service.go:62 | Cleaning leaves leading '..' segments followed by normal ones alone; with the other laws this determines it |
| `BatchMove.RouteObjectPathIs` | internal/service/remote_route_service.go:332-342 | Below a valid route the remote path is the plain concatenation, refused iff the remote is not allowed or the path is too long or holds a control character |
| `BatchMove.DestinationIsInFolder` | internal/service/remote_route_service.go:516-523 | A destination lies directly in the target folder, and equals its source exactly for a file that is already there |
| `BatchMove.CheckSource` | internal/service/remote_route_service.go:516-563 | Each objection of validation, in the order of the checks; an error only from a failed stat or an unacceptable path, and a source that reaches the remote checks is within reach. BatchAnswers.VerdictExactlyWhen says what each verdict means |
| `BatchMove.Validate` | internal/service/remote_route_service.go:501-565 | The first loop turns down or accepts every source by what the remote held at the start, moves nothing, and stops only at a source that is unusable, repeated or out of reach, or at a remote failure |
| `BatchMove.ValidationPartitions` | internal/service/remote_route_service.go:501-565 | Rejected and accepted sources together are the normalized sources, each once |
| `BatchMove.Apart` | internal/service/remote_route_service.go:516-527 | Two accepted files concern four different objects |
| `BatchMove.MoveFiles` | internal/service/remote_route_service.go:452-581 | An error return has changed nothing and has one of the listed reasons, a remote failure exactly after a failed stat; on a normal return the route was writable and the target a folder, Moved and Failed partition the sources and are what the remote reported; progress never falls and ends at the total. Who is moved is stated by BatchAnswers.EverySourceIsAnswered |
| `BatchAnswers.VerdictExactlyWhen` | internal/service/remote_route_service.go:516-563 | A source is accepted iff it lies outside the folder, no earlier source outside it has its name, and the remote holds it as a file and nothing at its destination; each reason holds iff it is the first that applies |
| `BatchAnswers.EverySourceIsAnswered` | internal/service/remote_route_service.go:501-581 | On a normal return an acceptable source is in Moved if the remote reported success and in Failed as a failed move if not; any other source is in Failed with its reason |
| `BatchAnswers.EveryAnswerIsTrue` | internal/service/remote_route_service.go:501-581 | And nothing else is in the two lists |
| `BatchMove.NothingIsOverwritten` | internal/service/remote_route_service.go:567-576 | No existing object is overwritten or lost and the multiset of objects is conserved, whatever errors the moves report |
| `BatchMove.MovedMeansMoved` | internal/service/remote_route_service.go:567-576 | A file reported as moved is in the target folder under its own name with its old contents, and gone from its source; the destination had been free |
| `BatchMove.ChecksHoldAtExecution` | internal/service/remote_route_service.go:540-576 | When a move is issued its source is still the validated file and its destination still free |
| `RemoteStore.Remote.Move` | internal/rclone/client.go:407-425 | The contract assumed of a move: success relocates the object, an error leaves it or has relocated it, an occupied destination is never touched |
| `RemoteStore.ChainConserves` | internal/rclone/client.go:407-425 | No sequence of moves, successful or not, loses, duplicates or alters an object |
| `RemoteStore.ExecutedNext` | internal/service/remote_route_service.go:567-576 | One more move settles its own file and leaves every other one as it was |
| `MoveExecution.Execute` | internal/service/remote_route_service.go:567-576 | The second loop: every candidate settled, called once and reported in exactly one list |
| `MoveExecution.ProgressNeverFalls` | internal/service/remote_route_service.go:460-476 | Any two progress reports, in order, have the same total and do not go back |
| `MoveManager.Manager.Start` | internal/api/remote_move_operation.go:78-105 | Conflict exactly when the route has an unfinished operation; a refused batch size changes nothing; a new operation is queued with nothing processed; only expired operations are dropped |
| `MoveManager.Manager.Get` | internal/api/remote_move_operation.go:107-119 | Returns exactly the route's retained operation; drops exactly the finished operations whose retention has passed |
| `MoveManager.Manager.Cleanup` | internal/api/remote_move_operation.go:184-190 | Removes exactly what finished longer ago than the retention, never an unfinished operation |
| `MoveManager.Manager.UpdateProgress` | internal/api/remote_move_operation.go:167-182 | Rewrites the operation's progress and percentage and no other operation |
| `MoveManager.Manager.Finish` | internal/api/remote_move_operation.go:134-160 | Records the batch's lists, time and status, and frees the route |
| `MoveManager.OneUnfinishedPerRoute` | internal/api/remote_move_operation.go:86-99 | A route has at most one unfinished operation |
| `MoveManager.MovesAreDisciplined` | internal/api/remote_move_operation.go:121-165 | A worker that follows its batch's reports never takes a step that does not fit its operation, whatever comes in between |
| `MoveManager.RunKeepsGood` | internal/api/remote_move_operation.go:78-204 | In every interleaving of submissions, polls and workers from an idle manager on, activeByRoute maps each route to exactly its unfinished operation, percentages stay within 0 and 100, and a successful operation has processed everything |
| `MoveManager.RunIsForward` | internal/api/remote_move_operation.go:121-190 | From any reachable point on, in every interleaving, an operation's processed count and percentage never decrease |
| `MoveManager.NoneVanishesUnfinished` | internal/api/remote_move_operation.go:184-190 | An operation that has disappeared had been finished before |
| `MoveManager.FinishedIsVisible` | internal/api/remote_move_operation.go:184-190 | In every interleaving a finished operation stays visible, as it was, until its retention has passed |
| `MoveManager.PercentIsMonotone` | internal/api/remote_move_operation.go:192-204 | More processed never shows a smaller percentage |
| `MoveManager.PercentIsFullExactlyWhen` | internal/api/remote_move_operation.go:192-204 | 100 percent exactly when everything is processed |
| `MoveManager.PercentIsTheShare` | internal/api/remote_move_operation.go:192-204 | Otherwise the percentage is the processed share, rounded down |
| `MoveManager.Run` | internal/api/remote_move_operation.go:121-165 | The worker's code with any critical sections of others in between: every state it publishes goes forward; success ends at 100 percent with everything processed and the two lists of what the batch did to the remote, failure has moved nothing; and the route is freed |
| `BrowseIndex.BrowseWatchFolder` | internal/service/file_index_service.go:120-168 | One level: files of the level in order, one entry per child directory, and entries plus files account for every record below, in number and in size |
| `BrowseIndex.FilesExactlyWhen` | internal/service/file_index_service.go:142-161 | The files shown are those whose parent is the directory browsed, each as often as it is recorded |
| `BrowseIndex.DirectoryExactlyWhen` | internal/service/file_index_service.go:146-163 | A directory is shown, under its last segment, iff its parent is the directory browsed and some record lies below it |
| `BrowseIndex.NamedMeans` | internal/service/file_index_service.go:131-134 | The records considered are those whose relative path normalizes to something but the root |
| `BrowseIndex.EntryMatchesContents` | internal/service/file_index_service.go:146-163 | A directory entry carries the totals of everything below it and is available iff some of it is not missing |
| `BrowseIndex.EntryMatchesNextLevel` | internal/service/file_index_service.go:146-163 | An entry's count and size equal the totals found by browsing into it |
| `BrowseIndex.BrowsingIntoLandsExactlyWhen` | internal/service/file_index_service.go:56-73 | Asking for an entry's path lands at that entry iff the path has no blank at either end |
| `BrowseIndex.BlankEntryLandsElsewhere` | internal/service/file_index_service.go:56-73 | Such an entry: browsing the root over a file "a /b" shows a directory whose path leads to "a" |

## Left out

- RemoteIndex.RouteIndexer.IndexRoute: failing upsert and delete statements; the walk's own failures are modelled.
- RemoteStore.Remote.Move: a contract, not the subprocess; what rclone does inside one call is not modelled.
- FileRecords.FileRecordRepository.UpdateSnapshots: takes the records as values; the time stamp the source writes into the caller's records is not visible to the caller.
- FolderScanner.ScanFolder: database errors during a scan and cancellation of its context end the scan early in the source; the model has the walk's own errors and missing row identifiers only. `TotalBytes` is not counted.
- FolderScan.Scan.WalkDir: symbolic links and other special files are one kind of entry, and a directory is readable or not; the path pipeline is an arbitrary function of the file name.
- UploadMarks.MarksAreSound: tasks without a fingerprint, which a worker completes from the file row, are excluded.
- LeaseTiming.LeaseExclusion: assumes that ticks and renewal attempts meet their deadlines; the ticker's own behaviour and the rounding of stored times are not modelled.
- IdempotencyKey.PayloadIsInjective: the API builds its payload from the same format (`internal/service/upload_service.go:381-385`); one function stands for both.
- BatchMove.MoveFiles: scheduling the index refresh afterwards, and cancellation between moves, are left out; progress reports carry the counts, not copies of the result lists.
- MoveManager.Manager.UpdateProgress: the lists and the refresh flag copied from a progress report, the error text and the operation timeout are left out.
- BrowseIndex.BrowseWatchFolder: status of single files, sorting and paging are left out; map iteration and equal names make the order indeterminate.
- Log rows, error messages, durations, pruned statistics windows, metrics and notifications: plain data carried along.
- UploadMarks.ExclusiveRunsAreHonest: that scans of one folder do not overlap is a hypothesis; it is not derived from the scan lease.
- The scan leases of folders and routes: the same conditional updates as the task lease, with fewer states.
- Creating, renaming and browsing remote folders; creating tasks through the API beyond the key and the insert-if-absent.
- HTTP handlers, authentication, configuration, the event hub, audit log and front end: no deep invariant.
- Table-level database behaviour: isolation levels, gap locks, `LIKE` collation.
