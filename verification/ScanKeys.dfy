/**
 * What the key of a scanned file identifies, and what a successful scan guarantees in terms of the files' own versions
 * and targets: no key is mentioned in what a due file can count on.
 */
module ScanKeys {
  import opened Wrappers
  import opened PathText
  import opened FolderWalk
  import opened FileRecords
  import opened FolderScan
  import opened ScanFacts
  import opened ScanRows
  import opened FolderScanner
  import opened ScanTheorems
  import opened IdempotencyKey
  import TaskTable
  import TaskRepository

  /** The texts a key is made of hold no NUL. */
  predicate Plain(c: Settings, s: Sighting) {
    NulFree(c.root) && NulFree(s.rel) && NulFree(s.info.fingerprint) && NulFree(c.remoteName) && NulFree(s.target)
  }

  lemma PlaceIsPlain(c: Settings, s: Sighting)
    requires Plain(c, s)
    ensures NulFree(Place(c, s))
  {}

  /**
   * Two sightings, of whatever folders, have the same key exactly when folder, cleaned local path, fingerprint, remote
   * name and target agree: a new version or a new target is a new key.
   */
  lemma KeyIdentifies(c: Settings, s: Sighting, c': Settings, s': Sighting)
    requires Plain(c, s) && Plain(c', s')
    ensures Key(c, s) == Key(c', s') <==>
      && c.folder == c'.folder && Clean(c.root + "/" + s.rel) == Clean(c'.root + "/" + s'.rel)
      && s.info.fingerprint == s'.info.fingerprint && c.remoteName == c'.remoteName && s.target == s'.target
  {
    PlaceIsPlain(c, s);
    PlaceIsPlain(c', s');
    PayloadIsInjective(c.folder, Place(c, s), s.info.fingerprint, c.remoteName, s.target,
      c'.folder, Place(c', s'), s'.info.fingerprint, c'.remoteName, s'.target);
  }

  // ---- stored keys that say what their tasks say

  /** The task's key is made of its own columns and a local path. */
  predicate KeyedBy(t: TaskTable.Task, path: string) {
    && NulFree(path) && NulFree(t.fingerprint) && NulFree(t.remoteName) && NulFree(t.remotePath)
    && t.key == Payload(t.folder, path, t.fingerprint, t.remoteName, t.remotePath)
  }

  /** Every task belongs to a stored row, and its key is made of that row's path. */
  predicate KeysDescribe(tasks: TaskTable.Table, rows: Rows) {
    forall id | id in tasks :: tasks[id].fileId in rows && KeyedBy(tasks[id], rows[tasks[id].fileId].localPath)
  }

  ghost predicate AllPlain(c: Settings, sights: seq<Sighting>) {
    forall s | s in sights :: Plain(c, s)
  }

  /** The task is for the version and target of the sighted file, and its row for the same place. */
  predicate CarriesSighting(c: Settings, s: Sighting, t: TaskTable.Task, rows: Rows) {
    && t.folder == c.folder && t.fingerprint == s.info.fingerprint && t.remoteName == c.remoteName
    && t.remotePath == s.target && t.fileId in rows && Clean(rows[t.fileId].localPath) == Clean(c.root + "/" + s.rel)
  }

  lemma CarriesExactlyWhen(c: Settings, s: Sighting, t: TaskTable.Task, rows: Rows)
    requires Plain(c, s) && t.fileId in rows && KeyedBy(t, rows[t.fileId].localPath)
    ensures t.key == Key(c, s) <==> CarriesSighting(c, s, t, rows)
  {
    PlaceIsPlain(c, s);
    PayloadIsInjective(t.folder, rows[t.fileId].localPath, t.fingerprint, t.remoteName, t.remotePath,
      c.folder, Place(c, s), s.info.fingerprint, c.remoteName, s.target);
  }

  /** A scan keeps the keys descriptive: old rows keep their paths, and a new task has the key of its own file. */
  lemma ScanKeepsKeys(
      e: Env, tree: Entry, rows: Rows, rows': Rows, tasks: TaskTable.Table, tasks': TaskTable.Table, at: int,
      stats: ScanStats, ok: bool)
    requires ScanOutcome(e, tree, rows, rows', tasks, tasks', at, stats, ok) && Loaded(e, rows)
    requires AllPlain(e.c, WalkAfter(e, Walk(tree, "", e.c.filter)).sights) && KeysDescribe(tasks, rows)
    ensures KeysDescribe(tasks', rows')
  {
    var items := Walk(tree, "", e.c.filter);
    forall id | id in tasks'
      ensures tasks'[id].fileId in rows' && KeyedBy(tasks'[id], rows'[tasks'[id].fileId].localPath)
    {
      if id in tasks {
        var file := tasks[id].fileId;
        assert RowOutcome(e, items, rows[file], rows'[file], at);
        KeepsPath(e, items, rows[file], rows'[file], at);
      } else {
        assert IsScanned(e, WalkAfter(e, items).sights, rows', tasks'[id]);
        var s :| s in WalkAfter(e, items).sights && IsTaskFor(e, s, rows', tasks'[id]);
        PlaceIsPlain(e.c, s);
      }
    }
  }

  // ---- what a due file can count on

  /** Exactly one task row is for the file's folder, place, version and target. */
  ghost predicate ExactlyOneFor(c: Settings, s: Sighting, tasks: TaskTable.Table, rows: Rows) {
    && (exists id | id in tasks :: CarriesSighting(c, s, tasks[id], rows))
    && forall a, b | a in tasks && b in tasks && CarriesSighting(c, s, tasks[a], rows)
      && CarriesSighting(c, s, tasks[b], rows) :: a == b
  }

  /**
   * After a successful scan every file of the tree that passes the filter and is due has exactly one task row with the
   * file's own folder, place, fingerprint, remote name and target, whatever tasks of other versions there are.
   */
  lemma DueFileHasItsTask(
      e: Env, tree: Entry, rows: Rows, rows': Rows, tasks: TaskTable.Table, tasks': TaskTable.Table, at: int,
      stats: ScanStats, i: Item)
    requires NamesOk(tree) && ScanOutcome(e, tree, rows, rows', tasks, tasks', at, stats, true) && Loaded(e, rows)
    requires TaskRepository.UniqueKeys(tasks') && KeysDescribe(tasks, rows)
    requires AllPlain(e.c, WalkAfter(e, Walk(tree, "", e.c.filter)).sights)
    requires i in All(tree, "") && Passes(i, e.c.filter)
    ensures Sighted(e.c, i)
    ensures var s := SightingOf(e, i);
      Judge(e.c, e.known, e.legacy, s) == Due ==> ExactlyOneFor(e.c, s, tasks', rows')
  {
    ScanIsComplete(e, tree, rows, rows', tasks, tasks', at, stats, i);
    ScanKeepsKeys(e, tree, rows, rows', tasks, tasks', at, stats, true);
    var s := SightingOf(e, i);
    PassesIffAdmitted(tree, e.c.filter, i);
    SightedBy(e, Walk(tree, "", e.c.filter), i);
    if Judge(e.c, e.known, e.legacy, s) == Due {
      forall id | id in tasks' ensures tasks'[id].key == Key(e.c, s) <==> CarriesSighting(e.c, s, tasks'[id], rows') {
        CarriesExactlyWhen(e.c, s, tasks'[id], rows');
      }
      var id :| id in tasks' && tasks'[id].key == Key(e.c, s);
    }
  }

  lemma OldTaskCarriesTheSame(
      e: Env, items: seq<Item>, rows: Rows, rows': Rows, t: TaskTable.Task, at: int, s: Sighting)
    requires RowsOutcome(e, items, rows, rows', at) && Loaded(e, rows) && t.fileId in rows
    ensures CarriesSighting(e.c, s, t, rows') <==> CarriesSighting(e.c, s, t, rows)
  {
    assert RowOutcome(e, items, rows[t.fileId], rows'[t.fileId], at);
    KeepsPath(e, items, rows[t.fileId], rows'[t.fileId], at);
  }

  /**
   * A new version is uploaded anew: when no task of the table is for a due file's version and target at its place, the
   * scan inserts one, and it is open.
   */
  lemma NewVersionIsQueued(
      e: Env, tree: Entry, rows: Rows, rows': Rows, tasks: TaskTable.Table, tasks': TaskTable.Table, at: int,
      stats: ScanStats, i: Item) returns (id: TaskTable.Id)
    requires NamesOk(tree) && ScanOutcome(e, tree, rows, rows', tasks, tasks', at, stats, true) && Loaded(e, rows)
    requires TaskRepository.UniqueKeys(tasks') && KeysDescribe(tasks, rows)
    requires AllPlain(e.c, WalkAfter(e, Walk(tree, "", e.c.filter)).sights)
    requires i in All(tree, "") && Passes(i, e.c.filter) && Sighted(e.c, i)
    requires Judge(e.c, e.known, e.legacy, SightingOf(e, i)) == Due
    requires forall t | t in tasks :: !CarriesSighting(e.c, SightingOf(e, i), tasks[t], rows)
    ensures id in tasks' && id !in tasks && tasks'[id].status == TaskTable.Pending
    ensures CarriesSighting(e.c, SightingOf(e, i), tasks'[id], rows')
  {
    DueFileHasItsTask(e, tree, rows, rows', tasks, tasks', at, stats, i);
    var items, s := Walk(tree, "", e.c.filter), SightingOf(e, i);
    id :| id in tasks' && CarriesSighting(e.c, s, tasks'[id], rows');
    if id in tasks {
      OldTaskCarriesTheSame(e, items, rows, rows', tasks[id], at, s);
      assert false;
    }
    assert IsScanned(e, WalkAfter(e, items).sights, rows', tasks'[id]);
  }
}
