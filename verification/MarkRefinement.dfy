/**
 * The stored rows behind the upload marks: the repository's conditional mark and the scanner's batched write are, on
 * what a row says about its file and target, the steps whose interleavings `UploadMarks` is about.
 */
module MarkRefinement {
  import opened Wrappers
  import opened TaskTable
  import TaskRepository
  import opened FileRecords
  import FolderWalk
  import S = FolderScan
  import F = ScanFacts
  import U = UploadMarks

  function Abstract(r: FileRecord): U.FileRow {
    U.FileRow(r.localPath, r.watchFolderId, U.Version(r.fingerprint, r.remoteName, r.remotePath), r.uploadedAt)
  }

  function AbstractAll(rows: Rows): map<nat, U.FileRow> {
    map id | id in rows :: Abstract(rows[id])
  }

  /**
   * `FinishSuccess` of an attempt that knows its fingerprint is the protocol's step: the same queue and the same marks,
   * a mark being set exactly when the stored row still has the attempt's fingerprint, remote name and remote path.
   */
  method Finish(repo: TaskRepository.TaskRepository, ghost s: U.State, a: nat, at: U.Attempt, now: Time, ghost max: int)
    returns (transitioned: bool, marked: bool)
    requires a in s.attempts && s.attempts[a] == at && at.phase == U.Verified && at.version.fingerprint != ""
    requires s.db == repo.State() && s.files == AbstractAll(repo.files)
    modifies repo
    ensures repo.State() == U.Next(s, U.FinishSuccess(a, now), max).db
    ensures AbstractAll(repo.files) == U.Next(s, U.FinishSuccess(a, now), max).files
    ensures transitioned <==> U.Next(s, U.FinishSuccess(a, now), max).attempts[a].phase == U.Transitioned
    ensures marked <==> transitioned && at.fileId in old(repo.files) && var row := old(repo.files)[at.fileId];
      row.fingerprint == at.version.fingerprint && row.remoteName == at.version.remoteName
        && row.remotePath == at.version.remotePath
  {
    transitioned, marked := repo.FinishSuccess(
      at.task, at.owner, at.fileId, at.version.fingerprint, at.version.remoteName, at.version.remotePath, now);
    LimitDoesNotMatter(s.db, at.task, at.owner, now, max);
    FinishIs(s, a, now, max);
  }

  lemma FinishIs(s: U.State, a: nat, now: Time, max: int)
    requires a in s.attempts && s.attempts[a].phase == U.Verified
    ensures var at, s' := s.attempts[a], U.Next(s, U.FinishSuccess(a, now), max);
      && s'.db == Apply(s.db, Succeed(at.task, at.owner, now), max)
      && s'.files == (if U.Transitions(s.db, at) then U.Mark(s.files, at, now) else s.files)
      && (s'.attempts[a].phase == U.Transitioned <==> U.Transitions(s.db, at))
  {}

  lemma LimitDoesNotMatter(db: Db, id: Id, owner: string, now: Time, max: int)
    ensures Apply(db, Succeed(id, owner, now), 0) == Apply(db, Succeed(id, owner, now), max)
  {
    var op := Succeed(id, owner, now);
    forall x | x in db.tasks ensures RowAfter(x, db.tasks[x], op, None, 0) == RowAfter(x, db.tasks[x], op, None, max) {}
    assert Survivors(db.tasks, op, 0) == Survivors(db.tasks, op, max);
  }

  function ReadOf(row: FileRecord): U.Read {
    U.Read(Abstract(row).version, row.watchFolderId)
  }

  function VersionOf(c: S.Settings, s: S.Sighting): U.Version {
    U.Version(s.info.fingerprint, c.remoteName, s.target)
  }

  /** One queued write on a row that may have changed since the scan read it. */
  lemma WriteRefines(e: S.Env, s: S.Sighting, row: FileRecord, clear: set<nat>)
    requires F.KnownOk(e.known) && S.IsRewritten(e, s) && row.localPath == S.Place(e.c, s)
    requires row.id in clear <==> S.IsCleared(e, s)
    ensures Abstract(Batched(row, Some(S.Observed(e.c, e.known, s)), clear))
      == U.Rewrite(Abstract(row), ReadOf(e.known[S.Place(e.c, s)]), e.c.folder, VersionOf(e.c, s), true)
  {}

  /**
   * The batched update of a scan, whatever marks workers have set since its rows were read: a row whose file needs a
   * write undergoes the protocol's scanner write, every other row keeps what it says.
   */
  lemma ScannerWritesRefine(
      e: S.Env, sights: seq<S.Sighting>, rows: Rows, size: nat, clock: nat -> int, path: string)
    requires size > 0 && F.KnownOk(e.known) && F.DistinctPlaces(sights) && path in e.known
    requires var id := e.known[path].id; id in rows && rows[id].id == id && rows[id].localPath == path
    ensures var f, id, s := S.FilesAfter(e, sights), e.known[path].id, F.SightAt(e.c, sights, path);
      var after := RunBatches(rows, Chunks(f.changed, size), f.clearIds, clock);
      id in after && Abstract(after[id]) ==
        if s.Some? && S.NeedsWrite(e.c, e.known[path], s.value) then
          U.Rewrite(Abstract(rows[id]), ReadOf(e.known[path]), e.c.folder, VersionOf(e.c, s.value), true)
        else Abstract(rows[id])
  {
    var f, id, s := S.FilesAfter(e, sights), e.known[path].id, F.SightAt(e.c, sights, path);
    F.ChangedMeans(e, sights, path);
    F.ClearedExactly(e, sights, path);
    F.SightAtIsSeen(e.c, sights, path);
    ChunksFlatten(f.changed, size);
    CommittedRow(rows, Chunks(f.changed, size), f.clearIds, clock, id);
    var after := RunBatches(rows, Chunks(f.changed, size), f.clearIds, clock);
    SameSaying(after[id]);
    if s.Some? && S.NeedsWrite(e.c, e.known[path], s.value) {
      WriteRefines(e, s.value, rows[id], f.clearIds);
    }
  }

  lemma SameSaying(row: FileRecord)
    ensures Abstract(row.(updatedAt := 0)) == Abstract(row)
  {}

  /** A file that is stored for the first time carries no mark, as the protocol's insertion demands. */
  lemma InsertRefines(e: S.Env, s: S.Sighting)
    requires S.Place(e.c, s) !in e.known
    ensures Abstract(S.Observed(e.c, e.known, s))
      == U.FileRow(S.Place(e.c, s), e.c.folder, VersionOf(e.c, s), None)
  {}
}
