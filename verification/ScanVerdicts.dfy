/**
 * A scan's decisions in plain terms: what a file's remote path is, when a file is due, what its row then says, which
 * entries a filter excludes and which stored rows are gone.  Nothing here mentions how the scan arrives at them.
 */
module ScanVerdicts {
  import opened Wrappers
  import opened PathText
  import opened FolderWalk
  import opened FileRecords
  import opened FolderScan
  import opened ScanFacts
  import opened ScanRows
  import opened FolderScanner
  import opened ScanTheorems
  import TaskTable

  // ---- remote paths

  function Inside(directory: string, name: string): string {
    if directory == "" then name else directory + "/" + name
  }

  /**
   * A file's remote path is its relative path below the folder's remote path, with the pipeline's directory, if any, in
   * between; there is none exactly when the pipeline fails or that path is too long.
   */
  lemma TargetIs(c: Settings, rel: string, name: string)
    requires (c.remotePath == "" || NormalPath(c.remotePath)) && NormalPath(rel)
    requires c.pipeline(name).Directory? ==> c.pipeline(name).path == "" || NormalPath(c.pipeline(name).path)
    ensures var path := match c.pipeline(name)
        case Directory(d) => Inside(c.remotePath, Inside(d, rel))
        case _ => Inside(c.remotePath, rel);
      && (Target(c, rel, name).None? <==> c.pipeline(name).PipelineError? || |path| > 768)
      && (Target(c, rel, name).Some? ==> Target(c, rel, name).value == path)
  {
    NoOuterSlash(rel);
    if c.remotePath != "" {
      NoOuterSlash(c.remotePath);
    }
    if c.pipeline(name).Directory? && c.pipeline(name).path != "" {
      NoOuterSlash(c.pipeline(name).path);
    }
  }

  lemma NoOuterSlash(s: string)
    requires NormalPath(s)
    ensures s != "" && TrimSuffix(s) == s && TrimPrefix(s) == s
  {
    NormalPathIsClean(s);
    LastChar(s);
  }

  /** One slash at the end of the remote path makes no difference. */
  lemma TrailingSlashIsIgnored(c: Settings, rel: string, name: string)
    requires c.remotePath == "" || c.remotePath[|c.remotePath| - 1] != '/'
    ensures Target(c.(remotePath := c.remotePath + "/"), rel, name) == Target(c, rel, name)
  {
    assert (c.remotePath + "/")[..|c.remotePath|] == c.remotePath;
  }

  /** Nor does one at the front of the pipeline's directory. */
  lemma LeadingSlashIsIgnored(c: Settings, c': Settings, rel: string, name: string, d: string)
    requires c' == c.(pipeline := c'.pipeline) && d != "" && d[0] != '/'
    requires c.pipeline(name) == Directory(d) && c'.pipeline(name) == Directory("/" + d)
    ensures Target(c', rel, name) == Target(c, rel, name)
  {
    assert ("/" + d)[1..] == d && TrimSuffix("/" + d) == "/" + TrimSuffix(d);
    var tail := TrimPrefix(rel);
    assert ("/" + TrimSuffix(d)) + "/" + tail == "/" + (TrimSuffix(d) + "/" + tail);
    assert ("/" + (TrimSuffix(d) + "/" + tail))[1..] == TrimSuffix(d) + "/" + tail;
  }

  // ---- what a row says after its file was sighted

  /** The stored row says something else than the sighted file, or that it is missing. */
  predicate Outdated(c: Settings, row: FileRecord, s: Sighting) {
    Moved(c, row, s) || row.fingerprint != s.info.fingerprint || row.relativePath != s.rel || row.missingAt.Some?
  }

  /** The file is now to be found elsewhere on the remote, or in another folder's care. */
  predicate Moved(c: Settings, row: FileRecord, s: Sighting) {
    row.watchFolderId != c.folder || row.remoteName != c.remoteName || row.remotePath != s.target
  }

  /** The mark on the row is for what the file still is: the row's version and target are unknown or unchanged. */
  predicate KeepsMark(c: Settings, row: FileRecord, s: Sighting) {
    row.uploadedAt.Some? &&
      (row.fingerprint == "" || (row.fingerprint == s.info.fingerprint && !Moved(c, row, s)))
  }

  /** Column by column, a stored row after its file was sighted: an outdated one is brought up to date. */
  predicate Refreshed(c: Settings, before: FileRecord, after: FileRecord, s: Sighting) {
    && after.id == before.id && after.localPath == before.localPath && Says(c, after, s)
    && after.uploadedAt == (if KeepsMark(c, before, s) then before.uploadedAt else None)
    && (if Outdated(c, before, s) then
          after.fileSize == s.info.size && after.modTime == s.info.modTime && after.lastSeenAt == Some(s.now)
        else
          after.fileSize == before.fileSize && after.modTime == before.modTime && after.lastSeenAt == before.lastSeenAt)
  }

  predicate Says(c: Settings, row: FileRecord, s: Sighting) {
    && row.watchFolderId == c.folder && row.relativePath == s.rel && row.fingerprint == s.info.fingerprint
    && row.remoteName == c.remoteName && row.remotePath == s.target
  }

  lemma ObservedIsRefreshed(c: Settings, known: Known, s: Sighting)
    requires Place(c, s) in known
    ensures Refreshed(c, known[Place(c, s)], Observed(c, known, s), s)
  {}

  /** A scan brings the stored row of every file it sights up to date, and keeps its mark exactly while that is true. */
  lemma SightedRowIsRefreshed(
      e: Env, tree: Entry, rows: Rows, rows': Rows, tasks: TaskTable.Table, tasks': TaskTable.Table, at: int,
      stats: ScanStats, ok: bool, i: Item)
    requires NamesOk(tree) && ScanOutcome(e, tree, rows, rows', tasks, tasks', at, stats, ok) && Loaded(e, rows)
    requires i in Walk(tree, "", e.c.filter) && Sighted(e.c, i) && Local(e.c.root, i.rel) in e.known
    ensures var row := e.known[Local(e.c.root, i.rel)];
      row.id in rows' && Refreshed(e.c, row, rows'[row.id], SightingOf(e, i))
  {
    var items, s := Walk(tree, "", e.c.filter), SightingOf(e, i);
    var row := e.known[Place(e.c, s)];
    WalkIsDistinct(tree, "", e.c.filter);
    SightedBy(e, items, i);
    SightsAreDistinct(e, items);
    SightAtFinds(e.c, WalkAfter(e, items).sights, s);
    assert RowOutcome(e, items, row, rows'[row.id], at);
    ObservedIsRefreshed(e.c, e.known, s);
    SameColumns(e.c, row, Observed(e.c, e.known, s), rows'[row.id], s);
  }

  lemma SameColumns(c: Settings, before: FileRecord, a: FileRecord, b: FileRecord, s: Sighting)
    requires b.(missingAt := None, updatedAt := 0) == a.(missingAt := None, updatedAt := 0)
    ensures Refreshed(c, before, a, s) ==> Refreshed(c, before, b, s)
  {
    assert b == a.(missingAt := b.missingAt, updatedAt := b.updatedAt);
  }

  /** A row the scan inserts is for a file it sighted at a path it had not loaded, unmarked and not missing. */
  lemma InsertedRowMeans(
      e: Env, tree: Entry, rows: Rows, rows': Rows, tasks: TaskTable.Table, tasks': TaskTable.Table, at: int,
      stats: ScanStats, ok: bool, id: nat) returns (i: Item)
    requires NamesOk(tree) && ScanOutcome(e, tree, rows, rows', tasks, tasks', at, stats, ok)
    requires id in rows' && id !in rows
    ensures i in Walk(tree, "", e.c.filter) && Sighted(e.c, i) && Local(e.c.root, i.rel) !in e.known
    ensures var s, row := SightingOf(e, i), rows'[id];
      && row.localPath == e.c.root + "/" + i.rel && Says(e.c, row, s)
      && row.fileSize == s.info.size && row.modTime == s.info.modTime && row.lastSeenAt == Some(e.clock(i.rel))
      && row.missingAt.None? && row.uploadedAt.None?
  {
    var items := Walk(tree, "", e.c.filter);
    var sights := WalkAfter(e, items).sights;
    assert IsNewFile(e, sights, rows'[id]);
    var s :| s in sights && Place(e.c, s) !in e.known && rows'[id] == Observed(e.c, e.known, s).(id := rows'[id].id);
    i := SightedFrom(e, items, s);
  }

  // ---- verdicts

  /**
   * The file has not changed for the stable period; one dated in the future has been observed, unchanged and not
   * missing, for that long.
   */
  predicate Settled(c: Settings, known: Known, s: Sighting) {
    var path := c.root + "/" + s.rel;
    || c.stablePeriod <= 0
    || (s.info.modTime <= s.now && s.now - s.info.modTime >= c.stablePeriod)
    || (s.info.modTime > s.now && path in known && !Outdated(c, known[path], s) && known[path].lastSeenAt.Some?
          && s.now - known[path].lastSeenAt.value >= c.stablePeriod)
  }

  /** The four verdicts, for every file and whatever is stored about it. */
  lemma VerdictMeans(c: Settings, known: Known, legacy: set<string>, s: Sighting)
    ensures var path, v := c.root + "/" + s.rel, Judge(c, known, legacy, s);
      var marked := path in known && KeepsMark(c, known[path], s);
      && (v == Unstable <==> !Settled(c, known, s))
      && (v == Uploaded <==> Settled(c, known, s) && marked)
      && (v == Legacy <==> Settled(c, known, s) && !marked && path in legacy)
      && (v == Due <==> Settled(c, known, s) && !marked && path !in legacy)
  {}

  /** No file is a candidate whose key an open task of the folder has: the unique index is not needed for that. */
  lemma {:induction false} CandidatesAreNew(
      e: Env, sights: seq<Sighting>, tasks: TaskTable.Table, d: Candidate, id: TaskTable.Id)
    requires e.open == OpenKeys(tasks, e.c.folder) && d in FilesAfter(e, sights).candidates
    requires id in tasks && tasks[id].folder == e.c.folder && tasks[id].key == d.task.key != ""
    ensures tasks[id].status in {TaskTable.Success, TaskTable.Canceled}
  {
    var n := |sights| - 1;
    if d in FilesAfter(e, sights[..n]).candidates {
      CandidatesAreNew(e, sights[..n], tasks, d, id);
    } else {
      ActiveMeans(e, sights[..n], d.task.key);
    }
  }

  /** A task the scan inserts is for a due file and for exactly what the file's row now says. */
  lemma InsertedTaskMeans(
      e: Env, tree: Entry, rows: Rows, rows': Rows, tasks: TaskTable.Table, tasks': TaskTable.Table, at: int,
      stats: ScanStats, ok: bool, id: TaskTable.Id) returns (i: Item)
    requires NamesOk(tree) && ScanOutcome(e, tree, rows, rows', tasks, tasks', at, stats, ok)
    requires id in tasks' && id !in tasks
    ensures i in All(tree, "") && Passes(i, e.c.filter) && Sighted(e.c, i)
    ensures Judge(e.c, e.known, e.legacy, SightingOf(e, i)) == Due
    ensures var s, t := SightingOf(e, i), tasks'[id];
      && t.status == TaskTable.Pending && t.priority == 0 && t.retryCount == 0 && t.nextRetryAt.None?
      && t.folder == e.c.folder && t.fingerprint == s.info.fingerprint && t.remoteName == e.c.remoteName
      && t.remotePath == s.target && t.fileId in rows' && Says(e.c, rows'[t.fileId], s)
      && rows'[t.fileId].localPath == e.c.root + "/" + i.rel
  {
    var items := Walk(tree, "", e.c.filter);
    assert IsScanned(e, WalkAfter(e, items).sights, rows', tasks'[id]);
    var s :| s in WalkAfter(e, items).sights && IsTaskFor(e, s, rows', tasks'[id]);
    i := SightedFrom(e, items, s);
    PassesIffAdmitted(tree, e.c.filter, i);
  }

  // ---- entries and stored paths

  /** The filter turns the entry's own path down: by a keyword or, for a directory, by its depth. */
  ghost predicate TurnedDown(f: Filter, i: Item) {
    i.rel != "" &&
      (Mentions(i.rel, f.keywords) || (i.entry.Dir? && f.maxDepth > 0 && |Split(i.rel, '/')| > f.maxDepth))
  }

  /** Nothing is wrong with the entry, or the filter does not care. */
  ghost predicate InOrder(c: Settings, i: Item) {
    || TurnedDown(c.filter, i)
    || (match i.entry
        case Dir(_, readable, _) => readable
        case Special(_) => true
        case File(name, info) => info.Some? && Target(c, i.rel, name).Some?)
  }

  lemma TroubledMeans(c: Settings, i: Item)
    ensures Troubled(c, i) <==> !InOrder(c, i)
  {
    MatchesMeans(i.rel, c.filter.keywords);
  }

  /**
   * The entry accounts for the stored path: it is the path of a file that can be examined or of a non-directory turned
   * down, or lies at or below a directory turned down.
   */
  ghost predicate AccountsFor(c: Settings, i: Item, path: string) {
    var here := c.root + "/" + i.rel;
    if i.entry.Dir? then TurnedDown(c.filter, i) && (path == here || here + "/" <= path)
    else path == here && (TurnedDown(c.filter, i) || (i.entry.File? && i.entry.info.Some?))
  }

  lemma ProtectedMeans(c: Settings, items: seq<Item>, path: string)
    ensures ProtectedByWalk(items, c.filter, c.root, path) <==> exists i | i in items :: AccountsFor(c, i, path)
  {
    forall i | i in items
      ensures AccountsFor(c, i, path) <==>
          (RecordsPath(i, c.filter) && Local(c.root, i.rel) == path)
          || (ExcludedIn(i, items, c.filter) && Within(path, Local(c.root, i.rel)))
    {
      MatchesMeans(i.rel, c.filter.keywords);
    }
  }

  /** The rows a scan of the folder is about. */
  predicate Concerned(c: Settings, row: FileRecord) {
    || row.watchFolderId == c.folder
    || (row.watchFolderId == 0 && (row.localPath == c.root || c.root + "/" <= row.localPath))
  }

  lemma ConcernedAreKnown(e: Env, rows: Rows, nextId: nat, id: nat)
    requires WellFormed(Store(rows, nextId)) && LoadedFrom(e.c, rows, e.known) && id in rows
    ensures IsKnown(e, rows[id]) <==> Concerned(e.c, rows[id])
  {}

  /**
   * A row becomes missing exactly when the scan found every entry it visited in order, the row is its concern and not
   * missing yet, and no entry of the whole tree accounts for the row's path.
   */
  lemma MissingExactlyWhen(
      e: Env, tree: Entry, rows: Rows, nextId: nat, rows': Rows, tasks: TaskTable.Table, tasks': TaskTable.Table,
      at: int, stats: ScanStats, ok: bool, id: nat)
    requires NamesOk(tree) && ScanOutcome(e, tree, rows, rows', tasks, tasks', at, stats, ok) && id in rows
    requires WellFormed(Store(rows, nextId)) && LoadedFrom(e.c, rows, e.known)
    ensures id in rows'
    ensures (rows'[id].missingAt != rows[id].missingAt <==>
      && (forall i | i in Walk(tree, "", e.c.filter) :: InOrder(e.c, i))
      && Concerned(e.c, rows[id]) && rows[id].missingAt.None?
      && !exists i | i in All(tree, "") :: AccountsFor(e.c, i, rows[id].localPath))
    ensures rows'[id].missingAt != rows[id].missingAt ==> rows'[id].missingAt == Some(at)
  {
    var items := Walk(tree, "", e.c.filter);
    MissingMeansGone(e, tree, rows, rows', tasks, tasks', at, stats, ok, id);
    ConcernedAreKnown(e, rows, nextId, id);
    ProtectedMeans(e.c, All(tree, ""), rows[id].localPath);
    forall i | i in items ensures Troubled(e.c, i) <==> !InOrder(e.c, i) {
      TroubledMeans(e.c, i);
    }
    assert RowOutcome(e, items, rows[id], rows'[id], at);
  }

  /** Rows of other folders, and unowned ones elsewhere, keep every column but the time stamp of the write. */
  lemma OthersAreUntouched(
      e: Env, tree: Entry, rows: Rows, nextId: nat, rows': Rows, tasks: TaskTable.Table, tasks': TaskTable.Table,
      at: int, stats: ScanStats, ok: bool, id: nat)
    requires ScanOutcome(e, tree, rows, rows', tasks, tasks', at, stats, ok) && id in rows
    requires WellFormed(Store(rows, nextId)) && LoadedFrom(e.c, rows, e.known) && !Concerned(e.c, rows[id])
    ensures id in rows' && rows'[id] == rows[id].(updatedAt := rows'[id].updatedAt)
  {
    ConcernedAreKnown(e, rows, nextId, id);
    assert RowOutcome(e, Walk(tree, "", e.c.filter), rows[id], rows'[id], at);
    assert rows'[id] == rows[id].(missingAt := rows'[id].missingAt, updatedAt := rows'[id].updatedAt);
  }

  /** A due file whose path belongs to a row that is not the folder's concern. */
  predicate HeldElsewhere(e: Env, i: Item, rows: Rows, id: nat) {
    && Passes(i, e.c.filter) && Sighted(e.c, i) && Judge(e.c, e.known, e.legacy, SightingOf(e, i)) == Due
    && id in rows && rows[id].localPath == e.c.root + "/" + i.rel && !Concerned(e.c, rows[id])
  }

  /** A successful scan found everything in order; a failed one did not, or another folder has a due file's path. */
  lemma SuccessMeans(
      e: Env, tree: Entry, rows: Rows, rows': Rows, tasks: TaskTable.Table, tasks': TaskTable.Table,
      at: int, stats: ScanStats, ok: bool)
    requires NamesOk(tree) && ScanOutcome(e, tree, rows, rows', tasks, tasks', at, stats, ok)
    ensures ok ==> forall i | i in Walk(tree, "", e.c.filter) :: InOrder(e.c, i)
    ensures !ok ==>
      (exists i | i in Walk(tree, "", e.c.filter) :: !InOrder(e.c, i))
        || exists i, id :: i in All(tree, "") && HeldElsewhere(e, i, rows', id)
  {
    var items := Walk(tree, "", e.c.filter);
    ErrorsMean(e, items);
    forall i | i in items ensures Troubled(e.c, i) <==> !InOrder(e.c, i) {
      TroubledMeans(e.c, i);
    }
    if !ok && forall i | i in items :: InOrder(e.c, i) {
      var s :| s in WalkAfter(e, items).sights && Judge(e.c, e.known, e.legacy, s) == Due
        && StoredElsewhere(e.c, rows', Place(e.c, s));
      var i := SightedFrom(e, items, s);
      PassesIffAdmitted(tree, e.c.filter, i);
      var id :| id in rows' && rows'[id].localPath == Place(e.c, s) && !Listed(e.c, rows'[id]);
      assert HeldElsewhere(e, i, rows', id);
    }
  }
}
