/**
 * Upload marks under concurrency.  Scanners and the task API read snapshot rows and write them back later, workers
 * check, copy and finish, destinations change and files change on disk, in any interleaving.  `uploaded_at` must
 * never claim more than what was copied.
 */
module UploadMarks {
  import opened Wrappers
  import opened TaskTable
  import P = TaskProtocol

  /** What a snapshot row says about a file and its target. */
  datatype Version = Version(fingerprint: string, remoteName: string, remotePath: string)

  datatype FileRow = FileRow(path: string, folder: nat, version: Version, uploadedAt: Option<Time>)

  /** Observable facts, in the order they happened. */
  datatype Event =
    | Matched(attempt: nat, path: string, fingerprint: string)
    | Copied(attempt: nat, path: string, remoteName: string, remotePath: string)

  datatype Phase = Started | Checked | CopyDone | Verified | Transitioned | Recorded | Stopped

  /** One execution of a claimed task, with what the worker loaded at claim time. */
  datatype Attempt = Attempt(task: Id, owner: string, fileId: nat, path: string, folder: nat, version: Version,
    phase: Phase)

  /** What a writer read of a row before deciding how to rewrite it. */
  datatype Read = Read(version: Version, folder: nat)

  /** A scan (or an API request) between reading its rows and writing them. */
  type Session = map<nat, Read>

  datatype State = State(
    db: Db,
    files: map<nat, FileRow>,
    disk: map<string, string>,
    attempts: map<nat, Attempt>,
    sessions: map<nat, Session>,
    log: seq<Event>,
    uploadedCount: map<nat, nat>
  )

  datatype Step =
    | Queue(op: Op)
    | Claim(attempt: nat, owner: string, lease: Time, now: Time, locked: set<Id>, remotePath: string)
    | DiskChange(path: string, fingerprint: string)
    | CheckBefore(attempt: nat)
    | Copy(attempt: nat)
    | CheckAfter(attempt: nat)
    | FinishSuccess(attempt: nat, now: Time)
    | RecordSuccess(attempt: nat)
    | ChangeDestination(folders: set<nat>, now: Time)
    | DeleteFolder(folder: nat, now: Time)
    | BeginScan(session: nat, rows: set<nat>)
    | WriteRow(session: nat, file: nat, folder: nat, version: Version, scanner: bool)
    | EndScan(session: nat)
    | InsertFile(file: nat, row: FileRow)

  ghost predicate Enabled(s: State, step: Step, maxAttempts: int) {
    match step
    case Queue(op) => P.ValidOp(op) && !op.Succeed? && !op.Claim?
    case Claim(a, owner, _, now, locked, _) =>
      && owner != "" && a !in s.attempts
      && (var w := Winner(s.db.tasks, now, maxAttempts, locked);
          w.Some? ==> s.db.tasks[w.value].fileId in s.files && s.db.tasks[w.value].fingerprint != "")
    case DiskChange(_, _) => true
    case CheckBefore(a) => a in s.attempts && s.attempts[a].phase == Started && OnDisk(s, s.attempts[a])
    case Copy(a) => a in s.attempts && s.attempts[a].phase == Checked
    case CheckAfter(a) => a in s.attempts && s.attempts[a].phase == CopyDone && OnDisk(s, s.attempts[a])
    case FinishSuccess(a, _) => a in s.attempts && s.attempts[a].phase == Verified
    case RecordSuccess(a) => a in s.attempts && s.attempts[a].phase == Transitioned && s.attempts[a].folder > 0
    case ChangeDestination(_, _) => true
    case DeleteFolder(_, _) => true
    case BeginScan(x, rows) => x !in s.sessions && rows <= s.files.Keys
    case WriteRow(x, f, _, _, _) => x in s.sessions && f in s.sessions[x] && f in s.files
    case EndScan(x) => x in s.sessions
    case InsertFile(f, row) => f !in s.files && row.uploadedAt.None?
  }

  predicate OnDisk(s: State, a: Attempt) {
    a.path in s.disk && s.disk[a.path] == a.version.fingerprint
  }

  /** The queue operation a step performs, if any: marks ride on top of the queue protocol. */
  function QueueOp(s: State, step: Step): Option<Op> {
    match step
    case Queue(op) => Some(op)
    case Claim(_, owner, lease, now, locked, _) => Some(Op.Claim(owner, lease, now, locked))
    case FinishSuccess(a, now) => if a in s.attempts then Some(Succeed(s.attempts[a].task, s.attempts[a].owner, now))
      else None
    case ChangeDestination(folders, now) => Some(CancelFolders(folders, now))
    case DeleteFolder(folder, now) => Some(CancelFolders({folder}, now))
    case _ => None
  }

  predicate Transitions(db: Db, a: Attempt) {
    a.task in db.tasks && Owns(db.tasks[a.task], a.owner) && db.tasks[a.task].cancelRequestedAt.None?
  }

  /** The conditional mark: only a row that still describes this version and target is marked. */
  function Mark(files: map<nat, FileRow>, a: Attempt, now: Time): map<nat, FileRow> {
    if a.fileId in files && files[a.fileId].version == a.version
    then files[a.fileId := files[a.fileId].(uploadedAt := Some(now))] else files
  }

  /**
   * A writer clears the mark when it replaces a fingerprinted version by another; a scanner also when it takes over the
   * row.
   */
  predicate Clears(read: Read, folder: nat, version: Version, scanner: bool) {
    read.version.fingerprint != "" && (read.version != version || (scanner && read.folder != folder))
  }

  function Rewrite(row: FileRow, read: Read, folder: nat, version: Version, scanner: bool): FileRow {
    row.(folder := folder, version := version,
         uploadedAt := if Clears(read, folder, version, scanner) then None else row.uploadedAt)
  }

  function SetPhase(s: State, a: nat, phase: Phase): State
    requires a in s.attempts
  {
    s.(attempts := s.attempts[a := s.attempts[a].(phase := phase)])
  }

  ghost function Next(s: State, step: Step, maxAttempts: int): State {
    if !Enabled(s, step, maxAttempts) then s
    else
      var db := if QueueOp(s, step).Some? then Apply(s.db, QueueOp(s, step).value, maxAttempts) else s.db;
      match step
      case Queue(_) => s.(db := db)
      case Claim(a, owner, _, now, locked, remotePath) =>
        var w := Winner(s.db.tasks, now, maxAttempts, locked);
        if w.None? then s.(db := db)
        else
          var t := s.db.tasks[w.value];
          s.(db := db, attempts := s.attempts[a := Attempt(w.value, owner, t.fileId, s.files[t.fileId].path, t.folder,
                                                          Version(t.fingerprint, t.remoteName, remotePath), Started)])
      case DiskChange(path, fingerprint) => s.(disk := s.disk[path := fingerprint])
      case CheckBefore(a) =>
        SetPhase(s, a, Checked).(log := s.log + [Matched(a, s.attempts[a].path, s.attempts[a].version.fingerprint)])
      case Copy(a) =>
        SetPhase(s, a, CopyDone).(log :=
          s.log + [Copied(a, s.attempts[a].path, s.attempts[a].version.remoteName, s.attempts[a].version.remotePath)])
      case CheckAfter(a) =>
        SetPhase(s, a, Verified).(log := s.log + [Matched(a, s.attempts[a].path, s.attempts[a].version.fingerprint)])
      case FinishSuccess(a, now) =>
        if Transitions(s.db, s.attempts[a]) then
          SetPhase(s, a, Transitioned).(db := db, files := Mark(s.files, s.attempts[a], now))
        else SetPhase(s, a, Stopped).(db := db)
      case RecordSuccess(a) =>
        SetPhase(s, a, Recorded).(uploadedCount :=
          s.uploadedCount[s.attempts[a].folder := Count(s.uploadedCount, s.attempts[a].folder) + 1])
      case ChangeDestination(folders, _) =>
        s.(db := db, files := map f | f in s.files ::
          if s.files[f].folder in folders then s.files[f].(uploadedAt := None) else s.files[f])
      case DeleteFolder(folder, _) =>
        s.(db := db, files := map f | f in s.files ::
          if s.files[f].folder == folder then s.files[f].(folder := 0) else s.files[f])
      case BeginScan(x, rows) => s.(sessions :=
        s.sessions[x := map f | f in rows :: Read(s.files[f].version, s.files[f].folder)])
      case WriteRow(x, f, folder, version, scanner) =>
        s.(files := s.files[f := Rewrite(s.files[f], s.sessions[x][f], folder, version, scanner)],
           sessions := s.sessions[x := s.sessions[x] - {f}])
      case EndScan(x) => s.(sessions := s.sessions - {x})
      case InsertFile(f, row) => s.(files := s.files[f := row])
  }

  ghost function Run(s: State, steps: seq<Step>, maxAttempts: int): State {
    if steps == [] then s else Next(Run(s, steps[..|steps| - 1], maxAttempts), steps[|steps| - 1], maxAttempts)
  }

  // ---- what a mark means

  /** One attempt matched the file on disk, then copied it to the target, then matched it again. */
  ghost predicate CopiedAndVerified(log: seq<Event>, path: string, v: Version) {
    exists a, i, j, k :: CopiedAt(log, path, v, a, i, j, k)
  }

  predicate CopiedAt(log: seq<Event>, path: string, v: Version, a: nat, i: int, j: int, k: int) {
    && 0 <= i < j < k < |log|
    && log[i] == Matched(a, path, v.fingerprint)
    && log[j] == Copied(a, path, v.remoteName, v.remotePath)
    && log[k] == Matched(a, path, v.fingerprint)
  }

  ghost predicate MarksSound(files: map<nat, FileRow>, log: seq<Event>) {
    forall f | f in files && files[f].uploadedAt.Some? :: CopiedAndVerified(log, files[f].path, files[f].version)
  }

  ghost predicate SeenBefore(log: seq<Event>, a: nat, at: Attempt) {
    exists i :: 0 <= i < |log| && log[i] == Matched(a, at.path, at.version.fingerprint)
  }

  ghost predicate SeenCopy(log: seq<Event>, a: nat, at: Attempt) {
    exists i, j :: 0 <= i < j < |log| && log[i] == Matched(a, at.path, at.version.fingerprint)
                   && log[j] == Copied(a, at.path, at.version.remoteName, at.version.remotePath)
  }

  /** An attempt's phase is backed by the log. */
  ghost predicate Backed(log: seq<Event>, a: nat, at: Attempt) {
    && (at.phase == Checked ==> SeenBefore(log, a, at))
    && (at.phase == CopyDone ==> SeenCopy(log, a, at))
    && (at.phase == Verified ==> CopiedAndVerified(log, at.path, at.version))
  }

  ghost predicate AllBacked(attempts: map<nat, Attempt>, log: seq<Event>) {
    forall a | a in attempts :: Backed(log, a, attempts[a])
  }

  /** An attempt works on the path of its file row. */
  ghost predicate PathsAgree(attempts: map<nat, Attempt>, files: map<nat, FileRow>) {
    forall a | a in attempts :: attempts[a].fileId in files && files[attempts[a].fileId].path == attempts[a].path
  }

  ghost predicate Inv(s: State) {
    MarksSound(s.files, s.log) && AllBacked(s.attempts, s.log) && PathsAgree(s.attempts, s.files)
  }

  lemma LogGrows(log: seq<Event>, more: seq<Event>, path: string, v: Version)
    requires CopiedAndVerified(log, path, v)
    ensures CopiedAndVerified(log + more, path, v)
  {
    var a, i, j, k :| CopiedAt(log, path, v, a, i, j, k);
    assert CopiedAt(log, path, v, a, i, j, k);
    assert CopiedAt(log + more, path, v, a, i, j, k);
  }

  lemma BackedLogGrows(log: seq<Event>, more: seq<Event>, a: nat, at: Attempt)
    requires Backed(log, a, at)
    ensures Backed(log + more, a, at)
  {
    var longer := log + more;
    if at.phase == Checked {
      var i :| 0 <= i < |log| && log[i] == Matched(a, at.path, at.version.fingerprint);
      assert longer[i] == log[i];
    } else if at.phase == CopyDone {
      var i, j :| 0 <= i < j < |log| && log[i] == Matched(a, at.path, at.version.fingerprint)
        && log[j] == Copied(a, at.path, at.version.remoteName, at.version.remotePath);
      assert longer[i] == log[i] && longer[j] == log[j];
    } else if at.phase == Verified {
      LogGrows(log, more, at.path, at.version);
    }
  }

  /** One logged event of attempt `a` moves it to the next phase and backs that phase. */
  lemma EventStep(s: State, a: nat, phase: Phase, e: Event)
    requires Inv(s) && a in s.attempts
    requires var at := s.attempts[a];
      || (at.phase == Started && phase == Checked && e == Matched(a, at.path, at.version.fingerprint))
      || (at.phase == Checked && phase == CopyDone
        && e == Copied(a, at.path, at.version.remoteName, at.version.remotePath))
      || (at.phase == CopyDone && phase == Verified && e == Matched(a, at.path, at.version.fingerprint))
    ensures Inv(SetPhase(s, a, phase).(log := s.log + [e]))
  {
    var s' := SetPhase(s, a, phase).(log := s.log + [e]);
    forall b | b in s'.attempts ensures Backed(s'.log, b, s'.attempts[b]) {
      if b != a {
        BackedLogGrows(s.log, [e], b, s.attempts[b]);
      } else {
        EventBacks(s.log, a, s.attempts[a], phase, e);
      }
    }
    forall f | f in s.files && s.files[f].uploadedAt.Some?
      ensures CopiedAndVerified(s'.log, s.files[f].path, s.files[f].version)
    {
      LogGrows(s.log, [e], s.files[f].path, s.files[f].version);
    }
  }

  lemma EventBacks(log: seq<Event>, a: nat, at: Attempt, phase: Phase, e: Event)
    requires Backed(log, a, at)
    requires
      || (at.phase == Started && phase == Checked && e == Matched(a, at.path, at.version.fingerprint))
      || (at.phase == Checked && phase == CopyDone
        && e == Copied(a, at.path, at.version.remoteName, at.version.remotePath))
      || (at.phase == CopyDone && phase == Verified && e == Matched(a, at.path, at.version.fingerprint))
    ensures Backed(log + [e], a, at.(phase := phase))
  {
    var n, longer := |log|, log + [e];
    assert longer[n] == e;
    if phase == CopyDone {
      var i :| 0 <= i < n && log[i] == Matched(a, at.path, at.version.fingerprint);
      assert longer[i] == log[i];
    } else if phase == Verified {
      var i, j :| 0 <= i < j < n && log[i] == Matched(a, at.path, at.version.fingerprint)
        && log[j] == Copied(a, at.path, at.version.remoteName, at.version.remotePath);
      assert longer[i] == log[i] && longer[j] == log[j];
      assert CopiedAt(longer, at.path, at.version, a, i, j, n);
    }
  }

  /** Rows keep their path and version; marks appear only where the log backs them. */
  lemma FilesStep(s: State, files: map<nat, FileRow>)
    requires Inv(s) && s.files.Keys <= files.Keys
    requires forall f | f in s.files :: files[f].path == s.files[f].path && files[f].version == s.files[f].version
    requires forall f | f in files && files[f].uploadedAt.Some? ::
      f in s.files && (s.files[f].uploadedAt.Some? || CopiedAndVerified(s.log, s.files[f].path, s.files[f].version))
    ensures Inv(s.(files := files))
  {}

  lemma PhaseStep(s: State, a: nat, phase: Phase)
    requires Inv(s) && a in s.attempts && phase !in {Checked, CopyDone, Verified}
    ensures Inv(SetPhase(s, a, phase))
  {}

  // ---- when a write is safe

  ghost predicate RowSound(row: FileRow, log: seq<Event>) {
    row.uploadedAt.Some? ==> CopiedAndVerified(log, row.path, row.version)
  }

  /** The write meets no mark, clears it, or writes the version that is there. */
  predicate Honest(row: FileRow, read: Read, folder: nat, version: Version, scanner: bool) {
    row.uploadedAt.None? || Clears(read, folder, version, scanner) || row.version == version
  }

  /** Exactly the honest writes keep a row sound whatever has been logged. */
  lemma WriteIsSoundExactlyWhen(row: FileRow, read: Read, folder: nat, version: Version, scanner: bool)
    ensures (forall log :: RowSound(row, log) ==> RowSound(Rewrite(row, read, folder, version, scanner), log))
      <==> Honest(row, read, folder, version, scanner)
  {
    if !Honest(row, read, folder, version, scanner) {
      var log := CopyLog(0, row.path, row.version);
      CopyLogShows(0, row.path, row.version, version);
      CopyLogShows(0, row.path, row.version, row.version);
      assert RowSound(row, log) && !RowSound(Rewrite(row, read, folder, version, scanner), log);
    }
  }

  /** What one undisturbed attempt logs. */
  function CopyLog(a: nat, path: string, v: Version): seq<Event> {
    [Matched(a, path, v.fingerprint), Copied(a, path, v.remoteName, v.remotePath), Matched(a, path, v.fingerprint)]
  }

  lemma CopyLogShows(a: nat, path: string, v: Version, other: Version)
    ensures CopiedAndVerified(CopyLog(a, path, v), path, other) <==> other == v
  {
    var log := CopyLog(a, path, v);
    assert CopiedAt(log, path, v, a, 0, 1, 2);
    if CopiedAndVerified(log, path, other) {
      var b, i, j, k :| CopiedAt(log, path, other, b, i, j, k);
      assert CopiedAt(log, path, other, b, i, j, k);
      assert i == 0 && j == 1 && k == 2;
    }
  }

  ghost predicate HonestStep(s: State, step: Step) {
    step.WriteRow? && step.session in s.sessions && step.file in s.sessions[step.session] && step.file in s.files ==>
      Honest(s.files[step.file], s.sessions[step.session][step.file], step.folder, step.version, step.scanner)
  }

  lemma WriteStep(s: State, x: nat, f: nat, folder: nat, version: Version, scanner: bool)
    requires Inv(s) && x in s.sessions && f in s.sessions[x] && f in s.files
    requires Honest(s.files[f], s.sessions[x][f], folder, version, scanner)
    ensures Inv(s.(files := s.files[f := Rewrite(s.files[f], s.sessions[x][f], folder, version, scanner)],
                   sessions := s.sessions[x := s.sessions[x] - {f}]))
  {}

  lemma ClaimStep(s: State, a: nat, at: Attempt)
    requires Inv(s) && at.phase == Started && at.fileId in s.files && s.files[at.fileId].path == at.path
    ensures Inv(s.(attempts := s.attempts[a := at]))
  {}

  lemma FinishStep(s: State, a: nat, now: Time)
    requires Inv(s) && a in s.attempts && s.attempts[a].phase == Verified
    ensures Inv(SetPhase(s, a, Transitioned).(files := Mark(s.files, s.attempts[a], now)))
    ensures Inv(SetPhase(s, a, Stopped))
  {
    PhaseStep(s, a, Stopped);
    FilesStep(s, Mark(s.files, s.attempts[a], now));
    PhaseStep(s.(files := Mark(s.files, s.attempts[a], now)), a, Transitioned);
  }

  predicate OfAttempt(step: Step) {
    step.CheckBefore? || step.Copy? || step.CheckAfter? || step.FinishSuccess? || step.RecordSuccess?
  }

  predicate OfRows(step: Step) {
    step.ChangeDestination? || step.DeleteFolder? || step.InsertFile?
  }

  lemma AttemptKeepsInv(s: State, step: Step, maxAttempts: int)
    requires Inv(s) && OfAttempt(step) && Enabled(s, step, maxAttempts)
    ensures Inv(Next(s, step, maxAttempts))
  {
    match step
    case CheckBefore(a) => EventStep(s, a, Checked, Matched(a, s.attempts[a].path, s.attempts[a].version.fingerprint));
    case Copy(a) => EventStep(s, a, CopyDone,
      Copied(a, s.attempts[a].path, s.attempts[a].version.remoteName, s.attempts[a].version.remotePath));
    case CheckAfter(a) => EventStep(s, a, Verified, Matched(a, s.attempts[a].path, s.attempts[a].version.fingerprint));
    case FinishSuccess(a, now) => FinishStep(s, a, now);
    case RecordSuccess(a) => PhaseStep(s, a, Recorded);
  }

  lemma OtherKeepsInv(s: State, step: Step, maxAttempts: int)
    requires Inv(s) && !OfAttempt(step) && !OfRows(step) && Enabled(s, step, maxAttempts) && HonestStep(s, step)
    ensures Inv(Next(s, step, maxAttempts))
  {
    var s' := Next(s, step, maxAttempts);
    match step
    case Claim(a, _, _, now, locked, _) =>
      if Winner(s.db.tasks, now, maxAttempts, locked).Some? {
        ClaimStep(s, a, s'.attempts[a]);
      }
    case WriteRow(x, f, folder, version, scanner) => WriteStep(s, x, f, folder, version, scanner);
    case _ =>
  }

  lemma RowsKeepInv(s: State, step: Step, maxAttempts: int)
    requires Inv(s) && OfRows(step) && Enabled(s, step, maxAttempts)
    ensures Inv(Next(s, step, maxAttempts))
  {
    FilesStep(s, Next(s, step, maxAttempts).files);
  }

  lemma NextKeepsInv(s: State, step: Step, maxAttempts: int)
    requires Inv(s) && HonestStep(s, step)
    ensures Inv(Next(s, step, maxAttempts))
  {
    if Enabled(s, step, maxAttempts) {
      if OfAttempt(step) {
        AttemptKeepsInv(s, step, maxAttempts);
      } else if OfRows(step) {
        RowsKeepInv(s, step, maxAttempts);
      } else {
        OtherKeepsInv(s, step, maxAttempts);
      }
    }
  }

  /** Every write of the run is honest at its time. */
  ghost predicate AllHonest(s: State, steps: seq<Step>, maxAttempts: int) {
    steps == [] ||
      (AllHonest(s, steps[..|steps| - 1], maxAttempts)
       && HonestStep(Run(s, steps[..|steps| - 1], maxAttempts), steps[|steps| - 1]))
  }

  lemma {:induction false} RunKeepsInv(s: State, steps: seq<Step>, maxAttempts: int)
    requires Inv(s) && AllHonest(s, steps, maxAttempts)
    ensures Inv(Run(s, steps, maxAttempts))
  {
    if steps != [] {
      RunKeepsInv(s, steps[..|steps| - 1], maxAttempts);
      NextKeepsInv(Run(s, steps[..|steps| - 1], maxAttempts), steps[|steps| - 1], maxAttempts);
    }
  }

  ghost predicate Unmarked(s: State) {
    s.attempts == map[] && s.sessions == map[] && forall f | f in s.files :: s.files[f].uploadedAt.None?
  }

  /**
   * From a state with no attempts, sessions or marks, every interleaving of honest writes keeps marks honest, however
   * the writers overlap: a marked row's current fingerprint, remote name and remote path were copied by one attempt
   * that matched the file on disk before and after the copy.
   */
  lemma MarksAreSound(s: State, steps: seq<Step>, maxAttempts: int, file: nat)
    requires Unmarked(s) && AllHonest(s, steps, maxAttempts)
    requires var end := Run(s, steps, maxAttempts); file in end.files && end.files[file].uploadedAt.Some?
    ensures var end := Run(s, steps, maxAttempts);
      CopiedAndVerified(end.log, end.files[file].path, end.files[file].version)
  {
    RunKeepsInv(s, steps, maxAttempts);
  }

  // ---- writers that do not overlap are honest

  /**
   * A session may begin: those that overlap in time touch different rows (one scan lease per folder, disjoint folder
   * roots, no API write to a row a scan has read), and no row is read with an empty legacy fingerprint.
   */
  predicate Exclusive(s: State, step: Step) {
    step.BeginScan? && step.rows <= s.files.Keys ==>
      && (forall f | f in step.rows :: s.files[f].version.fingerprint != "")
      && (forall x | x in s.sessions :: s.sessions[x].Keys !! step.rows)
  }

  ghost predicate AllExclusive(s: State, steps: seq<Step>, maxAttempts: int) {
    steps == [] ||
      (AllExclusive(s, steps[..|steps| - 1], maxAttempts)
       && Exclusive(Run(s, steps[..|steps| - 1], maxAttempts), steps[|steps| - 1]))
  }

  /** Rows in an open session still have the fingerprinted version the session read, and sessions do not share rows. */
  ghost predicate SessionsFresh(files: map<nat, FileRow>, sessions: map<nat, Session>) {
    && (forall x, f | x in sessions && f in sessions[x] :: IsFresh(files, f, sessions[x][f]))
    && (forall x, y | x in sessions && y in sessions && x != y :: sessions[x].Keys !! sessions[y].Keys)
  }

  predicate IsFresh(files: map<nat, FileRow>, f: nat, read: Read) {
    f in files && files[f].version == read.version && read.version.fingerprint != ""
  }

  /** A write to a row that still has the version the writer read is honest. */
  lemma FreshIsHonest(row: FileRow, read: Read, folder: nat, version: Version, scanner: bool)
    requires row.version == read.version && read.version.fingerprint != ""
    ensures Honest(row, read, folder, version, scanner)
  {}

  lemma SessionWritten(files: map<nat, FileRow>, after: map<nat, FileRow>, sessions: map<nat, Session>, x: nat, f: nat)
    requires SessionsFresh(files, sessions) && x in sessions && f in sessions[x]
    requires after.Keys == files.Keys && forall g | g in files && g != f :: after[g] == files[g]
    ensures SessionsFresh(after, sessions[x := sessions[x] - {f}])
  {
    var rest := sessions[x := sessions[x] - {f}];
    forall y, g | y in rest && g in rest[y] ensures IsFresh(after, g, rest[y][g]) {
      assert IsFresh(files, g, sessions[y][g]);
    }
  }

  /** Rows that keep their version keep the sessions fresh. */
  lemma VersionsKept(files: map<nat, FileRow>, after: map<nat, FileRow>, sessions: map<nat, Session>)
    requires SessionsFresh(files, sessions)
    requires files.Keys <= after.Keys && forall f | f in files :: after[f].version == files[f].version
    ensures SessionsFresh(after, sessions)
  {
    forall x, f | x in sessions && f in sessions[x] ensures IsFresh(after, f, sessions[x][f]) {
      assert IsFresh(files, f, sessions[x][f]);
    }
  }

  lemma SessionBegun(files: map<nat, FileRow>, sessions: map<nat, Session>, x: nat, rows: set<nat>)
    requires SessionsFresh(files, sessions) && x !in sessions && rows <= files.Keys
    requires forall f | f in rows :: files[f].version.fingerprint != ""
    requires forall y | y in sessions :: sessions[y].Keys !! rows
    ensures SessionsFresh(files, sessions[x := map f | f in rows :: Read(files[f].version, files[f].folder)])
  {
    var after := sessions[x := map f | f in rows :: Read(files[f].version, files[f].folder)];
    forall y, f | y in after && f in after[y] ensures IsFresh(files, f, after[y][f]) {
      if y != x {
        assert IsFresh(files, f, sessions[y][f]);
      }
    }
  }

  ghost predicate VersionsStayIn(s: State, s': State) {
    s.files.Keys <= s'.files.Keys && forall f | f in s.files :: s'.files[f].version == s.files[f].version
  }

  /** Only the writers of snapshots change versions, and only sessions' own steps change sessions. */
  lemma VersionsStay(s: State, step: Step, maxAttempts: int)
    requires !step.WriteRow? && !step.BeginScan? && !step.EndScan?
    ensures VersionsStayIn(s, Next(s, step, maxAttempts)) && Next(s, step, maxAttempts).sessions == s.sessions
  {
    if OfAttempt(step) {
      AttemptVersionsStay(s, step, maxAttempts);
    } else if OfRows(step) {
      RowsVersionsStay(s, step, maxAttempts);
    }
  }

  lemma AttemptVersionsStay(s: State, step: Step, maxAttempts: int)
    requires OfAttempt(step)
    ensures VersionsStayIn(s, Next(s, step, maxAttempts)) && Next(s, step, maxAttempts).sessions == s.sessions
  {
    if step.FinishSuccess? {
      FinishVersionsStay(s, step, maxAttempts);
    } else {
      WorkKeepsFiles(s, step, maxAttempts);
    }
  }

  lemma FinishVersionsStay(s: State, step: Step, maxAttempts: int)
    requires step.FinishSuccess?
    ensures VersionsStayIn(s, Next(s, step, maxAttempts)) && Next(s, step, maxAttempts).sessions == s.sessions
  {}

  lemma WorkKeepsFiles(s: State, step: Step, maxAttempts: int)
    requires OfAttempt(step) && !step.FinishSuccess?
    ensures Next(s, step, maxAttempts).files == s.files && Next(s, step, maxAttempts).sessions == s.sessions
  {}

  lemma RowsVersionsStay(s: State, step: Step, maxAttempts: int)
    requires OfRows(step)
    ensures VersionsStayIn(s, Next(s, step, maxAttempts)) && Next(s, step, maxAttempts).sessions == s.sessions
  {}

  lemma SessionEnded(files: map<nat, FileRow>, sessions: map<nat, Session>, x: nat)
    requires SessionsFresh(files, sessions)
    ensures SessionsFresh(files, sessions - {x})
  {}

  lemma WriteKeepsFresh(s: State, step: Step, maxAttempts: int)
    requires SessionsFresh(s.files, s.sessions) && step.WriteRow? && Enabled(s, step, maxAttempts)
    ensures HonestStep(s, step)
    ensures var s' := Next(s, step, maxAttempts); SessionsFresh(s'.files, s'.sessions)
  {
    var row, read := s.files[step.file], s.sessions[step.session][step.file];
    assert IsFresh(s.files, step.file, read);
    FreshIsHonest(row, read, step.folder, step.version, step.scanner);
    SessionWritten(s.files, Next(s, step, maxAttempts).files, s.sessions, step.session, step.file);
  }

  lemma ExclusiveStep(s: State, step: Step, maxAttempts: int)
    requires SessionsFresh(s.files, s.sessions) && Exclusive(s, step)
    ensures HonestStep(s, step)
    ensures var s' := Next(s, step, maxAttempts); SessionsFresh(s'.files, s'.sessions)
  {
    if Enabled(s, step, maxAttempts) {
      if step.WriteRow? {
        WriteKeepsFresh(s, step, maxAttempts);
      } else if step.BeginScan? {
        SessionBegun(s.files, s.sessions, step.session, step.rows);
      } else if step.EndScan? {
        SessionEnded(s.files, s.sessions, step.session);
      } else {
        VersionsStay(s, step, maxAttempts);
        VersionsKept(s.files, Next(s, step, maxAttempts).files, s.sessions);
      }
    }
  }

  /** If overlapping writers touch different rows and read fingerprinted ones, every write is honest. */
  lemma {:induction false} ExclusiveRunsAreHonest(s: State, steps: seq<Step>, maxAttempts: int)
    requires s.sessions == map[] && AllExclusive(s, steps, maxAttempts)
    ensures AllHonest(s, steps, maxAttempts)
    ensures var end := Run(s, steps, maxAttempts); SessionsFresh(end.files, end.sessions)
  {
    if steps != [] {
      var init := steps[..|steps| - 1];
      ExclusiveRunsAreHonest(s, init, maxAttempts);
      ExclusiveStep(Run(s, init, maxAttempts), steps[|steps| - 1], maxAttempts);
    }
  }

  // ---- a write that is not honest

  lemma CreateOne(n: NewTask, now: Time, maxAttempts: int)
    ensures Apply(Db(map[], 1), Create(n, now), maxAttempts) == OnlyTask(FreshTask(n))
  {}

  lemma ClaimOne(t: Task, owner: string, lease: Time, now: Time, maxAttempts: int)
    requires Eligible(t, now, maxAttempts)
    ensures Winner(OnlyTask(t).tasks, now, maxAttempts, {}) == Some(1)
    ensures Apply(OnlyTask(t), Op.Claim(owner, lease, now, {}), maxAttempts) == OnlyTask(Claimed(t, owner, lease, now))
  {
    assert 1 in Candidates(OnlyTask(t).tasks, now, maxAttempts, {});
    var after := Apply(OnlyTask(t), Op.Claim(owner, lease, now, {}), maxAttempts);
    RowOf(OnlyTask(t), Op.Claim(owner, lease, now, {}), maxAttempts, 1);
    assert after.tasks == map[1 := Claimed(t, owner, lease, now)];
  }

  lemma SucceedOne(t: Task, owner: string, now: Time, maxAttempts: int)
    requires Owns(t, owner) && t.cancelRequestedAt.None?
    ensures Apply(OnlyTask(t), Succeed(1, owner, now), maxAttempts) == OnlyTask(Succeeded(t, now))
  {
    var after := Apply(OnlyTask(t), Succeed(1, owner, now), maxAttempts);
    RowOf(OnlyTask(t), Succeed(1, owner, now), maxAttempts, 1);
    assert after.tasks == map[1 := Succeeded(t, now)];
  }

  function StaleStart(a: Version, folder: nat): State {
    State(Db(map[], 1), map[0 := FileRow("p", folder, a, None)], map[], map[], map[], [], map[])
  }

  function StoryTask(b: Version, folder: nat): NewTask {
    NewTask(0, folder, b.fingerprint, b.remoteName, b.remotePath, "key", 0)
  }

  /**
   * A scan reads the row at version `a`; it will write it back unchanged, because the row is marked missing.  The file
   * changes, an API request stores version `b` and creates its task, a worker copies `b` and marks the row.  Then the
   * scan's write arrives.
   */
  function StaleSteps(a: Version, b: Version, folder: nat): seq<Step> {
    [BeginScan(1, {0}), DiskChange("p", b.fingerprint), BeginScan(2, {0}), WriteRow(2, 0, folder, b, false),
     Queue(Create(StoryTask(b, folder), 0)), Step.Claim(0, "w", 90, 0, {}, b.remotePath),
     CheckBefore(0), Copy(0), CheckAfter(0), FinishSuccess(0, 1), WriteRow(1, 0, folder, a, true)]
  }

  ghost predicate Reaches(s: State, steps: seq<Step>, k: nat, v: State, maxAttempts: int)
    requires k <= |steps|
  {
    Run(s, steps[..k], maxAttempts) == v
  }

  lemma ReachNext(s: State, steps: seq<Step>, k: nat, v: State, maxAttempts: int)
    requires k < |steps| && Reaches(s, steps, k, v, maxAttempts)
    ensures Reaches(s, steps, k + 1, Next(v, steps[k], maxAttempts), maxAttempts)
  {
    assert steps[..k + 1][..k] == steps[..k];
  }

  function AfterRequest(a: Version, b: Version, folder: nat): State {
    var read := Read(a, folder);
    StaleStart(a, folder).(files := map[0 := FileRow("p", folder, b, None)], disk := map["p" := b.fingerprint],
      sessions := map[1 := map[0 := read], 2 := map[]])
  }

  lemma BeginOne(s: State, x: nat, maxAttempts: int)
    requires s.files.Keys == {0} && x !in s.sessions
    ensures Next(s, BeginScan(x, {0}), maxAttempts)
      == s.(sessions := s.sessions[x := map[0 := Read(s.files[0].version, s.files[0].folder)]])
  {
    var s' := Next(s, BeginScan(x, {0}), maxAttempts);
    assert s'.sessions[x] == map[0 := Read(s.files[0].version, s.files[0].folder)];
  }

  function BothRead(a: Version, b: Version, folder: nat): State {
    var read := Read(a, folder);
    StaleStart(a, folder).(disk := map["p" := b.fingerprint], sessions := map[1 := map[0 := read], 2 := map[0 := read]])
  }

  /** Both writers have read version `a`. */
  lemma StaleRun0(a: Version, b: Version, folder: nat, maxAttempts: int)
    ensures Reaches(StaleStart(a, folder), StaleSteps(a, b, folder), 3, BothRead(a, b, folder), maxAttempts)
  {
    var s, steps := StaleStart(a, folder), StaleSteps(a, b, folder);
    ReachNext(s, steps, 0, s, maxAttempts);
    BeginOne(s, 1, maxAttempts);
    var s1 := s.(sessions := map[1 := map[0 := Read(a, folder)]]);
    ReachNext(s, steps, 1, s1, maxAttempts);
    var s2 := s1.(disk := map["p" := b.fingerprint]);
    ReachNext(s, steps, 2, s2, maxAttempts);
    BeginOne(s2, 2, maxAttempts);
    assert s2.sessions[2 := map[0 := Read(a, folder)]] == BothRead(a, b, folder).sessions;
  }

  /** The request stores version `b`. */
  lemma StaleRun1(a: Version, b: Version, folder: nat, maxAttempts: int)
    requires a != b && a.fingerprint != ""
    ensures Reaches(StaleStart(a, folder), StaleSteps(a, b, folder), 4, AfterRequest(a, b, folder), maxAttempts)
  {
    var s, steps := StaleStart(a, folder), StaleSteps(a, b, folder);
    StaleRun0(a, b, folder, maxAttempts);
    ReachNext(s, steps, 3, BothRead(a, b, folder), maxAttempts);
    RequestWrites(a, b, folder, maxAttempts);
  }

  lemma RequestWrites(a: Version, b: Version, folder: nat, maxAttempts: int)
    requires a != b && a.fingerprint != ""
    ensures Next(BothRead(a, b, folder), WriteRow(2, 0, folder, b, false), maxAttempts) == AfterRequest(a, b, folder)
  {
    var read: Session := map[0 := Read(a, folder)];
    assert read - {0} == map[];
  }

  function StoryAttempt(b: Version, folder: nat, phase: Phase): Attempt {
    Attempt(1, "w", 0, "p", folder, b, phase)
  }

  function AfterClaim(a: Version, b: Version, folder: nat): State {
    AfterRequest(a, b, folder).(db := OnlyTask(Claimed(FreshTask(StoryTask(b, folder)), "w", 90, 0)),
      attempts := map[0 := StoryAttempt(b, folder, Started)])
  }

  /** The request's task is created and claimed. */
  lemma StaleRun2(a: Version, b: Version, folder: nat, maxAttempts: int)
    requires maxAttempts >= 1 && a != b && a.fingerprint != "" && b.fingerprint != ""
    ensures Reaches(StaleStart(a, folder), StaleSteps(a, b, folder), 6, AfterClaim(a, b, folder), maxAttempts)
  {
    var s, steps, n := StaleStart(a, folder), StaleSteps(a, b, folder), StoryTask(b, folder);
    StaleRun1(a, b, folder, maxAttempts);
    var s4 := AfterRequest(a, b, folder);
    ReachNext(s, steps, 4, s4, maxAttempts);
    CreateOne(n, 0, maxAttempts);
    var s5 := s4.(db := OnlyTask(FreshTask(n)));
    ReachNext(s, steps, 5, s5, maxAttempts);
    ClaimOne(FreshTask(n), "w", 90, 0, maxAttempts);
    assert Next(s5, steps[5], maxAttempts) == AfterClaim(a, b, folder);
  }

  function AfterMark(a: Version, b: Version, folder: nat): State {
    AfterClaim(a, b, folder).(
      db := OnlyTask(Succeeded(Claimed(FreshTask(StoryTask(b, folder)), "w", 90, 0), 1)),
      files := map[0 := FileRow("p", folder, b, Some(1))],
      attempts := map[0 := StoryAttempt(b, folder, Transitioned)], log := CopyLog(0, "p", b))
  }

  /** The worker's state between its steps. */
  function Working(a: Version, b: Version, folder: nat, phase: Phase, log: seq<Event>): State {
    AfterClaim(a, b, folder).(attempts := map[0 := StoryAttempt(b, folder, phase)], log := log)
  }

  lemma WorkerChecks(a: Version, b: Version, folder: nat, maxAttempts: int)
    ensures Next(Working(a, b, folder, Started, []), CheckBefore(0), maxAttempts)
      == Working(a, b, folder, Checked, CopyLog(0, "p", b)[..1])
  {}

  lemma WorkerCopies(a: Version, b: Version, folder: nat, maxAttempts: int)
    ensures Next(Working(a, b, folder, Checked, CopyLog(0, "p", b)[..1]), Copy(0), maxAttempts)
      == Working(a, b, folder, CopyDone, CopyLog(0, "p", b)[..2])
  {}

  lemma WorkerChecksAgain(a: Version, b: Version, folder: nat, maxAttempts: int)
    ensures Next(Working(a, b, folder, CopyDone, CopyLog(0, "p", b)[..2]), CheckAfter(0), maxAttempts)
      == Working(a, b, folder, Verified, CopyLog(0, "p", b))
  {}

  lemma FinishDoes(s: State, now: Time, maxAttempts: int)
    requires 0 in s.attempts && s.attempts[0].phase == Verified && Transitions(s.db, s.attempts[0])
    ensures var at := s.attempts[0];
      Next(s, FinishSuccess(0, now), maxAttempts) == s.(
        db := Apply(s.db, Succeed(at.task, at.owner, now), maxAttempts), files := Mark(s.files, at, now),
        attempts := s.attempts[0 := at.(phase := Transitioned)])
  {}

  lemma WorkerFinish(a: Version, b: Version, folder: nat, maxAttempts: int)
    ensures Next(Working(a, b, folder, Verified, CopyLog(0, "p", b)), FinishSuccess(0, 1), maxAttempts)
      == AfterMark(a, b, folder)
  {
    var t := Claimed(FreshTask(StoryTask(b, folder)), "w", 90, 0);
    SucceedOne(t, "w", 1, maxAttempts);
    FinishDoes(Working(a, b, folder, Verified, CopyLog(0, "p", b)), 1, maxAttempts);
  }

  /** The worker checks and copies. */
  lemma StaleRun3(a: Version, b: Version, folder: nat, maxAttempts: int)
    requires maxAttempts >= 1 && a != b && a.fingerprint != "" && b.fingerprint != ""
    ensures Reaches(StaleStart(a, folder), StaleSteps(a, b, folder), 8,
      Working(a, b, folder, CopyDone, CopyLog(0, "p", b)[..2]), maxAttempts)
  {
    var s, steps, log := StaleStart(a, folder), StaleSteps(a, b, folder), CopyLog(0, "p", b);
    StaleRun2(a, b, folder, maxAttempts);
    assert AfterClaim(a, b, folder) == Working(a, b, folder, Started, []);
    ReachNext(s, steps, 6, Working(a, b, folder, Started, []), maxAttempts);
    WorkerChecks(a, b, folder, maxAttempts);
    ReachNext(s, steps, 7, Working(a, b, folder, Checked, log[..1]), maxAttempts);
    WorkerCopies(a, b, folder, maxAttempts);
  }

  /** It checks again. */
  lemma StaleRun4(a: Version, b: Version, folder: nat, maxAttempts: int)
    requires maxAttempts >= 1 && a != b && a.fingerprint != "" && b.fingerprint != ""
    ensures Reaches(StaleStart(a, folder), StaleSteps(a, b, folder), 9,
      Working(a, b, folder, Verified, CopyLog(0, "p", b)), maxAttempts)
  {
    StaleRun3(a, b, folder, maxAttempts);
    ReachNext(StaleStart(a, folder), StaleSteps(a, b, folder), 8,
      Working(a, b, folder, CopyDone, CopyLog(0, "p", b)[..2]), maxAttempts);
    WorkerChecksAgain(a, b, folder, maxAttempts);
  }

  /** It marks the row at version `b`. */
  lemma StaleRun5(a: Version, b: Version, folder: nat, maxAttempts: int)
    requires maxAttempts >= 1 && a != b && a.fingerprint != "" && b.fingerprint != ""
    ensures Reaches(StaleStart(a, folder), StaleSteps(a, b, folder), 10, AfterMark(a, b, folder), maxAttempts)
  {
    StaleRun4(a, b, folder, maxAttempts);
    ReachNext(StaleStart(a, folder), StaleSteps(a, b, folder), 9,
      Working(a, b, folder, Verified, CopyLog(0, "p", b)), maxAttempts);
    WorkerFinish(a, b, folder, maxAttempts);
  }

  /**
   * A run that leaves a mark on a version nobody copied.  All its steps but the last are honest; the last writes back
   * the version the scan had read, so it does not clear the mark that was set for another one.
   */
  lemma StaleWriteBreaksMarks(a: Version, b: Version, folder: nat, maxAttempts: int)
    requires maxAttempts >= 1 && a != b && a.fingerprint != "" && b.fingerprint != ""
    ensures var s, steps := StaleStart(a, folder), StaleSteps(a, b, folder);
      && Unmarked(s) && AllHonest(s, steps[..10], maxAttempts)
      && var end := Run(s, steps, maxAttempts);
         0 in end.files && end.files[0].uploadedAt.Some? && end.files[0].version == a && !MarksSound(end.files, end.log)
  {
    var s, steps := StaleStart(a, folder), StaleSteps(a, b, folder);
    StaleRun5(a, b, folder, maxAttempts);
    ReachNext(s, steps, 10, AfterMark(a, b, folder), maxAttempts);
    assert steps[..11] == steps;
    CopyLogShows(0, "p", b, a);
    EarlierStepsAreHonest(a, b, folder, maxAttempts, 10);
  }

  lemma {:induction false} EarlierStepsAreHonest(a: Version, b: Version, folder: nat, maxAttempts: int, k: nat)
    requires k <= 10 && a != b && a.fingerprint != ""
    ensures AllHonest(StaleStart(a, folder), StaleSteps(a, b, folder)[..k], maxAttempts)
  {
    if k > 0 {
      var s, steps := StaleStart(a, folder), StaleSteps(a, b, folder);
      EarlierStepsAreHonest(a, b, folder, maxAttempts, k - 1);
      assert steps[..k][..k - 1] == steps[..k - 1];
      if k == 4 {
        StaleRun0(a, b, folder, maxAttempts);
      }
    }
  }

  // ---- the queue underneath

  /** The queue operations a run performs. */
  ghost function QueueOps(s: State, steps: seq<Step>, maxAttempts: int): seq<Op> {
    if steps == [] then []
    else
      var init := steps[..|steps| - 1];
      var mid := Run(s, init, maxAttempts);
      var op := QueueOp(mid, steps[|steps| - 1]);
      QueueOps(s, init, maxAttempts) +
        (if Enabled(mid, steps[|steps| - 1], maxAttempts) && op.Some? then [op.value] else [])
  }

  /** A step's effect on the queue is its queue operation, or nothing. */
  lemma StepProjects(s: State, step: Step, maxAttempts: int)
    ensures Next(s, step, maxAttempts).db ==
      if Enabled(s, step, maxAttempts) && QueueOp(s, step).Some? then Apply(s.db, QueueOp(s, step).value, maxAttempts)
        else s.db
    ensures Enabled(s, step, maxAttempts) && QueueOp(s, step).Some? ==> P.ValidOp(QueueOp(s, step).value)
  {}

  lemma RunAppends(db: Db, ops: seq<Op>, op: Op, maxAttempts: int)
    requires P.ValidOps(ops)
    ensures P.Run(db, ops + [op], maxAttempts) == Apply(P.Run(db, ops, maxAttempts), op, maxAttempts)
    ensures P.ValidOp(op) ==> P.ValidOps(ops + [op])
  {
    assert (ops + [op])[..|ops|] == ops;
  }

  /** Every run is a run of the queue protocol underneath, so all its theorems hold here too. */
  lemma {:induction false} RunProjects(s: State, steps: seq<Step>, maxAttempts: int)
    ensures P.ValidOps(QueueOps(s, steps, maxAttempts))
    ensures Run(s, steps, maxAttempts).db == P.Run(s.db, QueueOps(s, steps, maxAttempts), maxAttempts)
  {
    if steps != [] {
      var init, step := steps[..|steps| - 1], steps[|steps| - 1];
      RunProjects(s, init, maxAttempts);
      var mid := Run(s, init, maxAttempts);
      var ops := QueueOps(s, init, maxAttempts);
      StepProjects(mid, step, maxAttempts);
      if Enabled(mid, step, maxAttempts) && QueueOp(mid, step).Some? {
        RunAppends(s.db, ops, QueueOp(mid, step).value, maxAttempts);
      } else {
        assert ops + [] == ops;
      }
    }
  }

  // ---- success statistics

  predicate HasSucceeded(at: Attempt) {
    at.phase == Transitioned || at.phase == Recorded
  }

  /** The row has succeeded, for good. */
  predicate Finished(db: Db, id: Id) {
    id < db.nextId && (id in db.tasks ==> db.tasks[id].status == Success)
  }

  function RecordedIn(attempts: map<nat, Attempt>, folder: nat): set<nat> {
    set a | a in attempts && attempts[a].phase == Recorded && attempts[a].folder == folder
  }

  /** The tasks of a folder that made the transition to success. */
  function SucceededTasks(attempts: map<nat, Attempt>, folder: nat): set<Id> {
    set a | a in attempts && HasSucceeded(attempts[a]) && attempts[a].folder == folder :: attempts[a].task
  }

  ghost predicate SuccessIsFinal(db: Db, attempts: map<nat, Attempt>) {
    forall a | a in attempts && HasSucceeded(attempts[a]) :: Finished(db, attempts[a].task)
  }

  ghost predicate OncePerTask(attempts: map<nat, Attempt>) {
    forall a, b | a in attempts && b in attempts && HasSucceeded(attempts[a]) && HasSucceeded(attempts[b]) && a != b ::
      attempts[a].task != attempts[b].task
  }

  ghost predicate Counted(attempts: map<nat, Attempt>, uploadedCount: map<nat, nat>) {
    forall f :: Count(uploadedCount, f) == |RecordedIn(attempts, f)|
  }

  ghost predicate CountInv(s: State, maxAttempts: int) {
    && P.TableInv(s.db, maxAttempts) && SuccessIsFinal(s.db, s.attempts)
    && OncePerTask(s.attempts) && Counted(s.attempts, s.uploadedCount)
  }

  lemma FinishedStays(db: Db, op: Op, maxAttempts: int, id: Id)
    requires P.TableInv(db, maxAttempts) && Finished(db, id)
    ensures Finished(Apply(db, op, maxAttempts), id)
  {
    if id in db.tasks {
      RowOf(db, op, maxAttempts, id);
      P.WinnerIsEligible(db.tasks, op, maxAttempts);
    }
  }

  lemma QueueKeepsFinal(db: Db, attempts: map<nat, Attempt>, op: Op, maxAttempts: int)
    requires maxAttempts >= 1 && P.TableInv(db, maxAttempts) && SuccessIsFinal(db, attempts) && P.ValidOp(op)
    ensures P.TableInv(Apply(db, op, maxAttempts), maxAttempts) && SuccessIsFinal(Apply(db, op, maxAttempts), attempts)
  {
    P.ApplyKeepsInv(db, op, maxAttempts);
    forall a | a in attempts && HasSucceeded(attempts[a])
      ensures Finished(Apply(db, op, maxAttempts), attempts[a].task) {
      FinishedStays(db, op, maxAttempts, attempts[a].task);
    }
  }

  /** Attempts whose images are not recorded leave the statistics alone. */
  lemma RecordedUnchanged(before: map<nat, Attempt>, after: map<nat, Attempt>, uploadedCount: map<nat, nat>, a: nat)
    requires Counted(before, uploadedCount)
    requires a in after && after == before[a := after[a]] && after[a].phase != Recorded
    requires (a in before ==> before[a].phase != Recorded)
    ensures Counted(after, uploadedCount)
  {
    forall f: nat ensures Count(uploadedCount, f) == |RecordedIn(after, f)| {
      assert RecordedIn(after, f) == RecordedIn(before, f);
    }
  }

  lemma FinishCounts(s: State, a: nat, now: Time, maxAttempts: int)
    requires maxAttempts >= 1 && CountInv(s, maxAttempts) && Enabled(s, FinishSuccess(a, now), maxAttempts)
    ensures CountInv(Next(s, FinishSuccess(a, now), maxAttempts), maxAttempts)
  {
    var at := s.attempts[a];
    var op := Succeed(at.task, at.owner, now);
    QueueKeepsFinal(s.db, s.attempts, op, maxAttempts);
    var after := Next(s, FinishSuccess(a, now), maxAttempts).attempts;
    RecordedUnchanged(s.attempts, after, s.uploadedCount, a);
    if Transitions(s.db, at) {
      RowOf(s.db, op, maxAttempts, at.task);
      NewSuccess(s.db, s.attempts, a);
    }
  }

  /** A task about to succeed has not succeeded before. */
  lemma NewSuccess(db: Db, attempts: map<nat, Attempt>, a: nat)
    requires SuccessIsFinal(db, attempts) && OncePerTask(attempts) && a in attempts && Transitions(db, attempts[a])
    ensures OncePerTask(attempts[a := attempts[a].(phase := Transitioned)])
  {}

  lemma RecordCounts(attempts: map<nat, Attempt>, uploadedCount: map<nat, nat>, a: nat)
    requires Counted(attempts, uploadedCount) && a in attempts && attempts[a].phase == Transitioned
    ensures Counted(attempts[a := attempts[a].(phase := Recorded)],
                    uploadedCount[attempts[a].folder := Count(uploadedCount, attempts[a].folder) + 1])
  {
    var folder := attempts[a].folder;
    var counts := uploadedCount[folder := Count(uploadedCount, folder) + 1];
    forall f: nat ensures Count(counts, f) == |RecordedIn(attempts[a := attempts[a].(phase := Recorded)], f)| {
      assert Count(uploadedCount, f) == |RecordedIn(attempts, f)|;
      RecordedNext(attempts, a, f);
    }
  }

  lemma RecordedNext(attempts: map<nat, Attempt>, a: nat, f: nat)
    requires a in attempts && attempts[a].phase == Transitioned
    ensures |RecordedIn(attempts[a := attempts[a].(phase := Recorded)], f)|
      == |RecordedIn(attempts, f)| + if f == attempts[a].folder then 1 else 0
  {
    var after := attempts[a := attempts[a].(phase := Recorded)];
    assert RecordedIn(after, f) == RecordedIn(attempts, f) + if f == attempts[a].folder then {a} else {};
  }

  lemma AttemptKeepsCounts(s: State, step: Step, maxAttempts: int)
    requires maxAttempts >= 1 && CountInv(s, maxAttempts) && OfAttempt(step) && Enabled(s, step, maxAttempts)
    ensures CountInv(Next(s, step, maxAttempts), maxAttempts)
  {
    var after := Next(s, step, maxAttempts).attempts;
    match step
    case FinishSuccess(a, now) => FinishCounts(s, a, now, maxAttempts);
    case RecordSuccess(a) => RecordCounts(s.attempts, s.uploadedCount, a);
    case CheckBefore(a) => RecordedUnchanged(s.attempts, after, s.uploadedCount, a);
    case Copy(a) => RecordedUnchanged(s.attempts, after, s.uploadedCount, a);
    case CheckAfter(a) => RecordedUnchanged(s.attempts, after, s.uploadedCount, a);
  }

  lemma OtherKeepsCounts(s: State, step: Step, maxAttempts: int)
    requires maxAttempts >= 1 && CountInv(s, maxAttempts) && !OfAttempt(step) && Enabled(s, step, maxAttempts)
    ensures CountInv(Next(s, step, maxAttempts), maxAttempts)
  {
    if QueueOp(s, step).Some? {
      QueueKeepsFinal(s.db, s.attempts, QueueOp(s, step).value, maxAttempts);
    }
    match step
    case Claim(a, _, _, now, locked, _) =>
      if Winner(s.db.tasks, now, maxAttempts, locked).Some? {
        RecordedUnchanged(s.attempts, Next(s, step, maxAttempts).attempts, s.uploadedCount, a);
      }
    case _ =>
  }

  lemma NextKeepsCounts(s: State, step: Step, maxAttempts: int)
    requires maxAttempts >= 1 && CountInv(s, maxAttempts)
    ensures CountInv(Next(s, step, maxAttempts), maxAttempts)
  {
    if Enabled(s, step, maxAttempts) {
      if OfAttempt(step) {
        AttemptKeepsCounts(s, step, maxAttempts);
      } else {
        OtherKeepsCounts(s, step, maxAttempts);
      }
    }
  }

  lemma {:induction false} RunKeepsCounts(s: State, steps: seq<Step>, maxAttempts: int)
    requires maxAttempts >= 1 && CountInv(s, maxAttempts)
    ensures CountInv(Run(s, steps, maxAttempts), maxAttempts)
  {
    if steps != [] {
      RunKeepsCounts(s, steps[..|steps| - 1], maxAttempts);
      NextKeepsCounts(Run(s, steps[..|steps| - 1], maxAttempts), steps[|steps| - 1], maxAttempts);
    }
  }

  lemma {:induction false} InjectiveImage(attempts: map<nat, Attempt>, ids: set<nat>, image: set<Id>)
    requires ids <= attempts.Keys && forall a | a in ids :: attempts[a].task in image
    requires forall a, b | a in ids && b in ids && a != b :: attempts[a].task != attempts[b].task
    ensures |ids| <= |image|
    decreases |ids|
  {
    if ids != {} {
      var a :| a in ids;
      InjectiveImage(attempts, ids - {a}, image - {attempts[a].task});
    }
  }

  /** A folder's uploaded-file counter never exceeds the number of its tasks that made the transition to success. */
  lemma CounterIsBounded(s: State, steps: seq<Step>, maxAttempts: int, folder: nat)
    requires maxAttempts >= 1 && P.TableInv(s.db, maxAttempts) && s.attempts == map[] && s.uploadedCount == map[]
    ensures var end := Run(s, steps, maxAttempts);
      Count(end.uploadedCount, folder) <= |SucceededTasks(end.attempts, folder)|
  {
    forall f: nat ensures RecordedIn(s.attempts, f) == {} {}
    RunKeepsCounts(s, steps, maxAttempts);
    var end := Run(s, steps, maxAttempts);
    InjectiveImage(end.attempts, RecordedIn(end.attempts, folder), SucceededTasks(end.attempts, folder));
  }
}
