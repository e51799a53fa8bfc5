/** What a successful scan guarantees, in terms of the tree it scanned. */
module ScanTheorems {
  import opened Wrappers
  import opened FolderWalk
  import opened FileRecords
  import opened FolderScan
  import opened ScanFacts
  import opened ScanRows
  import opened FolderScanner
  import TaskTable
  import TaskProtocol
  import TaskRepository

  /**
   * Every file seen is accounted for exactly once, and the files seen are the files of the tree that pass the filter.
   */
  lemma FilesAreConserved(
      e: Env, tree: Entry, rows: Rows, rows': Rows, tasks: TaskTable.Table, tasks': TaskTable.Table, at: int,
      stats: ScanStats)
    requires NamesOk(tree) && ScanOutcome(e, tree, rows, rows', tasks, tasks', at, stats, true)
    ensures |Select(All(tree, ""), i => Passes(i, e.c.filter))| == stats.filesSeen
    ensures stats.filesSeen == stats.stableSkipped + stats.filesUnchanged + stats.tasksCreated
  {
    SeenCount(e, Walk(tree, "", e.c.filter));
    WalkIsFilter(tree, "", e.c.filter);
  }

  ghost predicate ExactlyOneTask(tasks: TaskTable.Table, key: string) {
    TaskTable.HasKey(tasks, key) && forall a, b | a in tasks && b in tasks && tasks[a].key == key
      && tasks[b].key == key :: a == b
  }

  /** Every file that passes the filter has a remote path, and if it is due it has exactly one task row with its key. */
  lemma ScanIsComplete(
      e: Env, tree: Entry, rows: Rows, rows': Rows, tasks: TaskTable.Table, tasks': TaskTable.Table, at: int,
      stats: ScanStats, i: Item)
    requires NamesOk(tree) && ScanOutcome(e, tree, rows, rows', tasks, tasks', at, stats, true)
    requires TaskRepository.UniqueKeys(tasks')
    requires i in All(tree, "") && Passes(i, e.c.filter)
    ensures Sighted(e.c, i)
    ensures var s := SightingOf(e, i);
      Judge(e.c, e.known, e.legacy, s) == Due ==> ExactlyOneTask(tasks', Key(e.c, s))
  {
    var items := Walk(tree, "", e.c.filter);
    PassesIffAdmitted(tree, e.c.filter, i);
    ErrorsMean(e, items);
    assert !Troubled(e.c, i);
    SightedBy(e, items, i);
  }

  ghost predicate HasOpenTask(tasks: TaskTable.Table, key: string) {
    exists id | id in tasks :: tasks[id].key == key && TaskTable.Open(tasks[id])
  }

  /** A finished task of the key: its row still takes the key. */
  ghost predicate HasFinishedTask(tasks: TaskTable.Table, key: string) {
    exists id | id in tasks ::
      tasks[id].key == key && (tasks[id].status == TaskTable.Success || tasks[id].status == TaskTable.Canceled)
  }

  /**
   * After a successful scan a due file has an open task exactly when no successful or canceled one had its key before.
   */
  lemma OpenTaskExactlyWhen(
      e: Env, tree: Entry, rows: Rows, rows': Rows, tasks: TaskTable.Table, tasks': TaskTable.Table, at: int,
      stats: ScanStats, i: Item)
    requires NamesOk(tree) && ScanOutcome(e, tree, rows, rows', tasks, tasks', at, stats, true)
    requires TaskRepository.UniqueKeys(tasks') && i in All(tree, "") && Passes(i, e.c.filter)
    ensures Sighted(e.c, i)
    ensures var s := SightingOf(e, i);
      Judge(e.c, e.known, e.legacy, s) == Due ==>
        (HasOpenTask(tasks', Key(e.c, s)) <==> !HasFinishedTask(tasks, Key(e.c, s)))
  {
    ScanIsComplete(e, tree, rows, rows', tasks, tasks', at, stats, i);
    var sights, s := WalkAfter(e, Walk(tree, "", e.c.filter)).sights, SightingOf(e, i);
    if Judge(e.c, e.known, e.legacy, s) == Due {
      TheTaskIsOpenExactlyWhen(e, sights, rows', tasks, tasks', Key(e.c, s));
    }
  }

  lemma TheTaskIsOpenExactlyWhen(
      e: Env, sights: seq<Sighting>, files: Rows, tasks: TaskTable.Table, tasks': TaskTable.Table, key: string)
    requires TasksOutcome(e, sights, files, tasks, tasks') && ExactlyOneTask(tasks', key)
    ensures HasOpenTask(tasks', key) <==> !HasFinishedTask(tasks, key)
  {
    var id :| id in tasks' && tasks'[id].key == key;
    if id in tasks {
      assert tasks'[id] == tasks[id];
    } else {
      assert IsScanned(e, sights, files, tasks'[id]);
      assert TaskTable.Open(tasks'[id]);
    }
  }

  /**
   * A row becomes missing exactly when the scan met no error, the row was loaded and not missing before, and its path
   * is neither an admitted file, nor a filtered entry, nor inside an excluded directory of the tree.
   */
  lemma MissingMeansGone(e: Env, tree: Entry, rows: Rows, rows': Rows, tasks: TaskTable.Table, tasks': TaskTable.Table,
      at: int, stats: ScanStats, ok: bool, id: nat)
    requires NamesOk(tree) && ScanOutcome(e, tree, rows, rows', tasks, tasks', at, stats, ok) && id in rows
    ensures id in rows' && (rows'[id].missingAt != rows[id].missingAt <==>
      && (forall i | i in Walk(tree, "", e.c.filter) :: !Troubled(e.c, i))
      && IsKnown(e, rows[id]) && rows[id].missingAt.None?
      && !ProtectedByWalk(All(tree, ""), e.c.filter, e.c.root, rows[id].localPath))
  {
    var items := Walk(tree, "", e.c.filter);
    ErrorsMean(e, items);
    ProtectionIsThatOfTheTree(tree, e.c.filter, e.c.root, rows[id].localPath);
    assert RowOutcome(e, items, rows[id], rows'[id], at);
  }

  /** A file sighted again keeps its row marked missing: only the one-row form of the update resets the mark. */
  lemma ReappearedStaysMissing(e: Env, tree: Entry, rows: Rows, rows': Rows, tasks: TaskTable.Table,
    tasks': TaskTable.Table,
      at: int, stats: ScanStats, ok: bool, id: nat, s: Sighting, now: int)
    requires ScanOutcome(e, tree, rows, rows', tasks, tasks', at, stats, ok) && id in rows && rows[id].missingAt.Some?
    requires IsKnown(e, rows[id]) && rows[id] == e.known[rows[id].localPath] && rows[id].id == id
    requires Place(e.c, s) == rows[id].localPath
    ensures id in rows' && rows'[id].missingAt == rows[id].missingAt
    ensures UpdateSnapshot(rows, Observed(e.c, e.known, s), IsCleared(e, s), now)[id].missingAt.None?
  {
    assert RowOutcome(e, Walk(tree, "", e.c.filter), rows[id], rows'[id], at);
  }

  /**
   * A file dated in the future is measured from its first observation, so it settles after the stable period -
   * exactly unless its row is marked missing, because such a row is observed anew at every scan.
   */
  lemma FutureFileSettlesExactlyWhen(c: Settings, known: Known, legacy: set<string>, s: Sighting, seen: int)
    requires Place(c, s) in known && s.info.modTime > s.now && c.stablePeriod > 0
    requires var row := known[Place(c, s)];
      row.fingerprint == s.info.fingerprint && !TargetChanged(c, row, s) && row.relativePath == s.rel
        && row.lastSeenAt == Some(seen)
    ensures Judge(c, known, legacy, s) != Unstable <==>
      known[Place(c, s)].missingAt.None? && s.now - seen >= c.stablePeriod
  {}

  /** A missing row whose file is sighted is rewritten by every scan, and with it the time of observation. */
  lemma MissingRowIsRewritten(
      e: Env, tree: Entry, rows: Rows, rows': Rows, tasks: TaskTable.Table, tasks': TaskTable.Table,
      at: int, stats: ScanStats, ok: bool, i: Item)
    requires NamesOk(tree) && ScanOutcome(e, tree, rows, rows', tasks, tasks', at, stats, ok) && Loaded(e, rows)
    requires i in Walk(tree, "", e.c.filter) && Sighted(e.c, i) && Local(e.c.root, i.rel) in e.known
    requires e.known[Local(e.c.root, i.rel)].missingAt.Some?
    ensures var row := e.known[Local(e.c.root, i.rel)];
      && IsRewritten(e, SightingOf(e, i)) && row.id in rows'
      && rows'[row.id].lastSeenAt == Some(e.clock(i.rel)) && rows'[row.id].missingAt == row.missingAt
      && rows'[row.id].localPath == row.localPath && Listed(e.c, rows'[row.id])
  {
    var items, s := Walk(tree, "", e.c.filter), SightingOf(e, i);
    var row := e.known[Local(e.c.root, i.rel)];
    WalkIsDistinct(tree, "", e.c.filter);
    SightedBy(e, items, i);
    SightsAreDistinct(e, items);
    SightAtFinds(e.c, WalkAfter(e, items).sights, s);
    assert RowOutcome(e, items, row, rows'[row.id], at);
    KeepsObserved(rows'[row.id], Observed(e.c, e.known, s));
  }

  lemma KeepsObserved(a: FileRecord, b: FileRecord)
    requires a.(missingAt := None, updatedAt := 0) == b.(missingAt := None, updatedAt := 0)
    ensures a.lastSeenAt == b.lastSeenAt && a.localPath == b.localPath && a.watchFolderId == b.watchFolderId
  {
    assert a == b.(missingAt := a.missingAt, updatedAt := a.updatedAt);
  }

  // ---- between two scans

  predicate OnlyMarked(a: FileRecord, b: FileRecord) {
    b == a.(uploadedAt := b.uploadedAt) && (a.uploadedAt.Some? ==> b.uploadedAt.Some?)
  }

  /** Workers may set marks and other rows may appear; nothing else changes. */
  ghost predicate MarksOnly(before: Rows, after: Rows) {
    before.Keys <= after.Keys && forall id | id in before :: OnlyMarked(before[id], after[id])
  }

  ghost predicate KeysKept(before: TaskTable.Table, after: TaskTable.Table) {
    forall key :: TaskTable.HasKey(before, key) ==> TaskTable.HasKey(after, key)
  }

  predicate Removes(op: TaskTable.Op) {
    op.Delete? || op.Purge?
  }

  /** Every queue run without deletions keeps all keys: claims, results, retries, cancellations, new tasks. */
  lemma {:induction false} QueueKeepsKeys(db: TaskTable.Db, ops: seq<TaskTable.Op>, maxAttempts: int)
    requires maxAttempts >= 1 && TaskProtocol.ValidOps(ops) && TaskProtocol.TableInv(db, maxAttempts)
    requires forall op | op in ops :: !Removes(op)
    ensures KeysKept(db.tasks, TaskProtocol.Run(db, ops, maxAttempts).tasks)
  {
    if ops != [] {
      var init, op := ops[..|ops| - 1], ops[|ops| - 1];
      assert forall x | x in init :: x in ops;
      QueueKeepsKeys(db, init, maxAttempts);
      TaskProtocol.RunKeepsInv(db, init, maxAttempts);
      OneOpKeepsKeys(TaskProtocol.Run(db, init, maxAttempts), op, maxAttempts);
    }
  }

  lemma OneOpKeepsKeys(db: TaskTable.Db, op: TaskTable.Op, maxAttempts: int)
    requires !Removes(op) && db.nextId !in db.tasks
    ensures KeysKept(db.tasks, TaskTable.Apply(db, op, maxAttempts).tasks)
  {
    var after := TaskTable.Apply(db, op, maxAttempts).tasks;
    forall key | TaskTable.HasKey(db.tasks, key) ensures TaskTable.HasKey(after, key) {
      var id :| id in db.tasks && db.tasks[id].key == key;
      TaskTable.RowOf(db, op, maxAttempts, id);
      assert after[id].key == key;
    }
  }

  // ---- scanning again

  /** A file uploaded or under a legacy task in the first scan is not due in the second. */
  lemma SecondVerdict(e: Env, e': Env, items: seq<Item>, rows: Rows, rows': Rows, mid: Rows, at: int, i: Item)
    requires e'.c == e.c && e.legacy <= e'.legacy && DistinctRels(items)
    requires Loaded(e, rows) && RowsOutcome(e, items, rows, rows', at) && MarksOnly(rows', mid)
    requires LoadedFrom(e.c, mid, e'.known) && i in items && Sighted(e.c, i)
    requires var v := Judge(e.c, e.known, e.legacy, SightingOf(e, i)); v.Uploaded? || v.Legacy?
    ensures Judge(e.c, e'.known, e'.legacy, SightingOf(e', i)) != Due
  {
    var s, s' := SightingOf(e, i), SightingOf(e', i);
    var sights, path := WalkAfter(e, items).sights, Place(e.c, s);
    if Judge(e.c, e.known, e.legacy, s).Uploaded? {
      var row := e.known[path];
      SightedBy(e, items, i);
      SightsAreDistinct(e, items);
      SightAtFinds(e.c, sights, s);
      assert RowOutcome(e, items, row, rows'[row.id], at);
      StillDescribes(e.c, rows'[row.id], Observed(e.c, e.known, s), s);
      assert OnlyMarked(rows'[row.id], mid[row.id]);
      StillUploaded(e.c, mid[row.id], s, e'.known, s');
    }
  }

  lemma StillDescribes(c: Settings, row: FileRecord, first: FileRecord, s: Sighting)
    requires row.(missingAt := None, updatedAt := 0) == first.(missingAt := None, updatedAt := 0)
    requires Describes(c, first, s) && first.uploadedAt.Some?
    ensures Describes(c, row, s) && row.uploadedAt.Some?
  {
    assert row == first.(missingAt := row.missingAt, updatedAt := row.updatedAt);
  }

  /** A marked row that describes the file keeps its mark through the second scan. */
  lemma StillUploaded(c: Settings, row: FileRecord, s: Sighting, known: Known, s': Sighting)
    requires Describes(c, row, s) && row.uploadedAt.Some? && s' == s.(now := s'.now)
    requires Listed(c, row) ==> Lookup(known, row.localPath) == Some(row)
    ensures Observed(c, known, s').uploadedAt.Some?
  {}

  /**
   * Scanning the same tree again, at any later or earlier time and after anything workers and users have done that
   * removes no task row, inserts tasks only for files the first scan had found unstable: whatever was uploaded, queued,
   * finished or pending under a legacy task is left alone.
   */
  lemma RescanCreatesOnlyForUnstable(
      e: Env, e': Env, tree: Entry, rows: Rows, rows': Rows, mid: Rows, rows'': Rows,
      tasks: TaskTable.Table, tasks': TaskTable.Table, queue: TaskTable.Table, tasks'': TaskTable.Table,
      at: int, at': int, stats: ScanStats, stats': ScanStats, ok': bool, id: nat) returns (i: Item)
    requires NamesOk(tree) && e'.c == e.c && e.legacy <= e'.legacy
    requires ScanOutcome(e, tree, rows, rows', tasks, tasks', at, stats, true) && Loaded(e, rows)
    requires MarksOnly(rows', mid) && KeysKept(tasks', queue)
    requires ScanOutcome(e', tree, mid, rows'', queue, tasks'', at', stats', ok') && LoadedFrom(e.c, mid, e'.known)
    requires id in tasks'' && id !in queue
    ensures i in All(tree, "") && Passes(i, e.c.filter) && Sighted(e.c, i)
    ensures tasks''[id].key == Key(e.c, SightingOf(e, i))
    ensures Judge(e.c, e.known, e.legacy, SightingOf(e, i)) == Unstable
  {
    var items := Walk(tree, "", e.c.filter);
    i := SourceOfTask(e', items, rows'', queue, tasks'', id);
    PassesIffAdmitted(tree, e.c.filter, i);
    SightedBy(e, items, i);
    WalkIsDistinct(tree, "", e.c.filter);
    FirstVerdict(e, e', items, rows, rows', mid, tasks', at, i);
  }

  lemma SourceOfTask(
      e: Env, items: seq<Item>, files: Rows, tasks: TaskTable.Table, tasks': TaskTable.Table, id: nat) returns (i: Item)
    requires TasksOutcome(e, WalkAfter(e, items).sights, files, tasks, tasks') && id in tasks' && id !in tasks
    ensures i in items && Sighted(e.c, i)
    ensures var s := SightingOf(e, i);
      && tasks'[id].key == Key(e.c, s) && Judge(e.c, e.known, e.legacy, s) == Due
      && !TaskTable.HasKey(tasks, Key(e.c, s))
  {
    assert IsScanned(e, WalkAfter(e, items).sights, files, tasks'[id]);
    var s :| s in WalkAfter(e, items).sights && IsTaskFor(e, s, files, tasks'[id]);
    i := SightedFrom(e, items, s);
  }

  /** A file due in the second scan and still without a task was unstable in the first. */
  lemma FirstVerdict(
      e: Env, e': Env, items: seq<Item>, rows: Rows, rows': Rows, mid: Rows, tasks': TaskTable.Table, at: int, i: Item)
    requires e'.c == e.c && e.legacy <= e'.legacy && DistinctRels(items)
    requires Loaded(e, rows) && RowsOutcome(e, items, rows, rows', at) && MarksOnly(rows', mid)
    requires LoadedFrom(e.c, mid, e'.known)
    requires DueHaveTasks(e, WalkAfter(e, items).sights, tasks') && i in items && Sighted(e.c, i)
    requires Judge(e.c, e'.known, e'.legacy, SightingOf(e', i)) == Due
    requires !TaskTable.HasKey(tasks', Key(e.c, SightingOf(e', i)))
    ensures Key(e.c, SightingOf(e, i)) == Key(e.c, SightingOf(e', i))
    ensures Judge(e.c, e.known, e.legacy, SightingOf(e, i)) == Unstable
  {
    var s := SightingOf(e, i);
    SightedBy(e, items, i);
    NotDueTwice(e, WalkAfter(e, items).sights, tasks', s, SightingOf(e', i));
    if Judge(e.c, e.known, e.legacy, s).Uploaded? || Judge(e.c, e.known, e.legacy, s).Legacy? {
      SecondVerdict(e, e', items, rows, rows', mid, at, i);
    }
  }

  /** A due file of the first scan has its task already. */
  lemma NotDueTwice(e: Env, sights: seq<Sighting>, tasks': TaskTable.Table, s: Sighting, s': Sighting)
    requires DueHaveTasks(e, sights, tasks') && s in sights && s' == s.(now := s'.now)
    requires !TaskTable.HasKey(tasks', Key(e.c, s'))
    ensures Key(e.c, s) == Key(e.c, s') && Judge(e.c, e.known, e.legacy, s) != Due
  {}

  /** In particular, when every file was stable the first time, the second scan creates nothing. */
  lemma RescanOfStableTreeIsQuiet(
      e: Env, e': Env, tree: Entry, rows: Rows, rows': Rows, mid: Rows, rows'': Rows,
      tasks: TaskTable.Table, tasks': TaskTable.Table, queue: TaskTable.Table, tasks'': TaskTable.Table,
      at: int, at': int, stats: ScanStats, stats': ScanStats, ok': bool)
    requires NamesOk(tree) && e'.c == e.c && e.legacy <= e'.legacy
    requires ScanOutcome(e, tree, rows, rows', tasks, tasks', at, stats, true) && Loaded(e, rows)
    requires MarksOnly(rows', mid) && KeysKept(tasks', queue)
    requires ScanOutcome(e', tree, mid, rows'', queue, tasks'', at', stats', ok') && LoadedFrom(e.c, mid, e'.known)
    requires forall i | i in All(tree, "") && Passes(i, e.c.filter) && Sighted(e.c, i) ::
      Judge(e.c, e.known, e.legacy, SightingOf(e, i)) != Unstable
    ensures tasks'' == queue && stats'.tasksCreated == 0
  {
    if id :| id in tasks'' && id !in queue {
      var i := RescanCreatesOnlyForUnstable(
        e, e', tree, rows, rows', mid, rows'', tasks, tasks', queue, tasks'', at, at', stats, stats', ok', id);
    } else {
      SameRows(queue, tasks'');
    }
  }

  lemma SameRows(before: TaskTable.Table, after: TaskTable.Table)
    requires before.Keys <= after.Keys && (forall id | id in before :: after[id] == before[id])
    requires forall id | id in after :: id in before
    ensures after == before
  {
    assert after.Keys == before.Keys;
  }

  // ---- a history of scans

  /** One scan: what it loaded, the tree it walked, the item of one file in it, and the rows before and after. */
  datatype Pass = Pass(
    e: Env, tree: Entry, i: Item, rows: Rows, rows': Rows, tasks: TaskTable.Table, tasks': TaskTable.Table,
    at: int, stats: ScanStats, ok: bool)

  /** A scan that sights the file at path `rel` while its modification time is still in the future. */
  ghost predicate SeesFuture(p: Pass, c: Settings, rel: string) {
    && p.e.c == c && NamesOk(p.tree) && Loaded(p.e, p.rows) && LoadedFrom(c, p.rows, p.e.known)
    && ScanOutcome(p.e, p.tree, p.rows, p.rows', p.tasks, p.tasks', p.at, p.stats, p.ok)
    && p.i in Walk(p.tree, "", c.filter) && p.i.rel == rel && Sighted(c, p.i)
    && p.i.entry.info.value.modTime > p.e.clock(rel)
  }

  /** Scans of one folder in sequence; between them only marks are set. */
  ghost predicate History(passes: seq<Pass>, c: Settings, rel: string) {
    && (forall k | 0 <= k < |passes| :: SeesFuture(passes[k], c, rel))
    && (forall k | 0 <= k < |passes| - 1 :: MarksOnly(passes[k].rows', passes[k + 1].rows))
  }

  predicate MissingAt(c: Settings, rows: Rows, id: nat, rel: string) {
    id in rows && rows[id].id == id && rows[id].localPath == Local(c.root, rel) && Listed(c, rows[id])
    && rows[id].missingAt.Some?
  }

  /**
   * A row marked missing stays so, and its future-dated file unstable, through every scan until the clock catches up.
   */
  lemma {:induction false} ReappearedFileNeverSettles(passes: seq<Pass>, c: Settings, rel: string, id: nat, k: nat)
    requires c.stablePeriod > 0 && History(passes, c, rel) && k < |passes| && MissingAt(c, passes[0].rows, id, rel)
    ensures MissingAt(c, passes[k].rows, id, rel)
    ensures Judge(c, passes[k].e.known, passes[k].e.legacy, SightingOf(passes[k].e, passes[k].i)) == Unstable
  {
    if k > 0 {
      ReappearedFileNeverSettles(passes, c, rel, id, k - 1);
      assert SeesFuture(passes[k - 1], c, rel) && MarksOnly(passes[k - 1].rows', passes[k].rows);
      MissingKept(passes[k - 1], c, rel, id);
      assert OnlyMarked(passes[k - 1].rows'[id], passes[k].rows[id]);
    }
    assert SeesFuture(passes[k], c, rel);
    MissingIsUnstable(passes[k], c, rel, id);
  }

  lemma MissingKept(p: Pass, c: Settings, rel: string, id: nat)
    requires SeesFuture(p, c, rel) && MissingAt(c, p.rows, id, rel)
    ensures id in p.rows' && p.rows'[id].id == id && p.rows'[id].localPath == Local(c.root, rel)
    ensures Listed(c, p.rows'[id]) && p.rows'[id].missingAt.Some?
  {
    assert Lookup(p.e.known, Local(c.root, rel)) == Some(p.rows[id]);
    MissingRowIsRewritten(p.e, p.tree, p.rows, p.rows', p.tasks, p.tasks', p.at, p.stats, p.ok, p.i);
    KeepsId(p.e, Walk(p.tree, "", c.filter), p.rows[id], p.rows'[id], p.at);
  }

  lemma KeepsId(e: Env, items: seq<Item>, before: FileRecord, after: FileRecord, at: int)
    requires RowOutcome(e, items, before, after, at) && IsKnown(e, before) && KnownOk(e.known)
    ensures after.id == before.id
  {
    var row := Rescanned(e, WalkAfter(e, items).sights, before);
    SightAtIsSeen(e.c, WalkAfter(e, items).sights, before.localPath);
    assert after == row.(missingAt := after.missingAt, updatedAt := after.updatedAt);
  }

  lemma MissingIsUnstable(p: Pass, c: Settings, rel: string, id: nat)
    requires c.stablePeriod > 0 && SeesFuture(p, c, rel) && MissingAt(c, p.rows, id, rel)
    ensures Judge(c, p.e.known, p.e.legacy, SightingOf(p.e, p.i)) == Unstable
  {
    assert Lookup(p.e.known, Local(c.root, rel)) == Some(p.rows[id]);
  }

  // ---- a blocked file

  const BLOCKED_SETTINGS := Settings(1, "/r", "remote", "d", Filter([], 0), _ => NoMatch, 0)
  const BLOCKED_INFO := Info(1, 0, "v")
  const BLOCKED_FILE := File("f", Some(BLOCKED_INFO))
  const BLOCKED_TREE := Dir("", true, [BLOCKED_FILE])
  const BLOCKED_SIGHTING := Sighting("f", BLOCKED_INFO, "d/f", 0)
  const BLOCKED_ROW :=
    FileRecord(1, 1, "/r/f", "f", "remote", "d/f", 1, 0, "v", Some(0), None, None, 0)

  /** The task as a change of the folder's destination, away and back, leaves it: canceled, with its key. */
  function BlockedTask(): TaskTable.Task {
    TaskTable.FolderCanceled(TaskTable.FreshTask(CandidateFor(BLOCKED_SETTINGS, BLOCKED_SIGHTING, 1).task), 5)
  }

  function BlockedEnv(): Env {
    Env(BLOCKED_SETTINGS, map["/r/f" := BLOCKED_ROW], {}, OpenKeys(map[1 := BlockedTask()], 1), _ => 0)
  }

  lemma BlockedWalk()
    ensures Walk(BLOCKED_TREE, "", BLOCKED_SETTINGS.filter) == [Item("", BLOCKED_TREE), Item("f", BLOCKED_FILE)]
    ensures NamesOk(BLOCKED_TREE)
  {
    var f, es := BLOCKED_SETTINGS.filter, [BLOCKED_FILE];
    assert es[1..] == [] && WalkOf(es[1..], "", f) == [];
    assert Walk(BLOCKED_FILE, "f", f) == [Item("f", BLOCKED_FILE)];
    assert WalkOf(es, "", f) == Walk(es[0], Rel("", "f"), f) + WalkOf(es[1..], "", f);
    assert !Excluded("", f) && Walk(BLOCKED_TREE, "", f) == [Item("", BLOCKED_TREE)] + WalkOf(es, "", f);
  }

  lemma BlockedTarget()
    ensures Target(BLOCKED_SETTINGS, "f", "f") == Some("d/f")
  {
    assert TrimSuffix("d") == "d" && TrimPrefix("f") == "f" && JoinRemote("d", "f") == "d" + "/" + "f" == "d/f";
    assert BLOCKED_SETTINGS.pipeline("f") == NoMatch;
  }

  lemma BlockedFileStep()
    ensures NextWalk(BlockedEnv(), WalkState(0, 0, {}, [], []), Item("f", BLOCKED_FILE))
      == WalkState(1, 0, {"/r/f"}, [], [BLOCKED_SIGHTING])
  {
    BlockedTarget();
    var i := Item("f", BLOCKED_FILE);
    assert !Matches("f", BLOCKED_SETTINGS.filter.keywords);
    assert Local("/r", "f") == "/r/f";
    assert SightingOf(BlockedEnv(), i) == BLOCKED_SIGHTING;
  }

  lemma BlockedState()
    ensures WalkAfter(BlockedEnv(), [Item("", BLOCKED_TREE), Item("f", BLOCKED_FILE)])
      == WalkState(1, 0, {"/r/f"}, [], [BLOCKED_SIGHTING])
    ensures Judge(BLOCKED_SETTINGS, BlockedEnv().known, {}, BLOCKED_SIGHTING) == Due
  {
    var e, dir, file := BlockedEnv(), Item("", BLOCKED_TREE), Item("f", BLOCKED_FILE);
    var items, start := [dir, file], WalkState(0, 0, {}, [], []);
    assert items[..1] == [dir] && [dir][..0] == [];
    assert NextWalk(e, start, dir) == start;
    assert WalkAfter(e, [dir]) == NextWalk(e, WalkAfter(e, []), dir);
    assert WalkAfter(e, items) == NextWalk(e, WalkAfter(e, [dir]), file);
    BlockedFileStep();
  }

  const BLOCKED_ROWS: Rows := map[1 := BLOCKED_ROW]

  function BlockedTasks(): TaskTable.Table {
    map[1 := BlockedTask()]
  }

  /** The file is in the tree, passes the filter and is due; its canceled task has its key. */
  lemma BlockedFileIsDue()
    ensures var i, e := Item("f", BLOCKED_FILE), BlockedEnv();
      && NamesOk(BLOCKED_TREE) && i in All(BLOCKED_TREE, "") && Passes(i, e.c.filter) && Sighted(e.c, i)
      && SightingOf(e, i) == BLOCKED_SIGHTING && Judge(e.c, e.known, e.legacy, BLOCKED_SIGHTING) == Due
      && HasFinishedTask(BlockedTasks(), Key(e.c, BLOCKED_SIGHTING))
  {
    var i := Item("f", BLOCKED_FILE);
    BlockedWalk();
    BlockedState();
    BlockedTarget();
    assert i in Walk(BLOCKED_TREE, "", BLOCKED_SETTINGS.filter) && Admitted(i, BLOCKED_SETTINGS.filter);
    PassesIffAdmitted(BLOCKED_TREE, BLOCKED_SETTINGS.filter, i);
    assert BlockedTasks()[1].key == Key(BLOCKED_SETTINGS, BLOCKED_SIGHTING);
  }

  /** Whatever a scan of this folder returns, it adds no task, and the due file has no open one. */
  lemma BlockedFileIsNotQueued(rows': Rows, tasks': TaskTable.Table, at: int, stats: ScanStats, ok: bool)
    requires ScanOutcome(BlockedEnv(), BLOCKED_TREE, BLOCKED_ROWS, rows', BlockedTasks(), tasks', at, stats, ok)
    ensures tasks' == BlockedTasks() && !HasOpenTask(tasks', Key(BLOCKED_SETTINGS, BLOCKED_SIGHTING))
  {
    BlockedTasksKept(rows', tasks', at, stats, ok);
    NoneIsOpen(Key(BLOCKED_SETTINGS, BLOCKED_SIGHTING));
  }

  lemma BlockedTasksKept(rows': Rows, tasks': TaskTable.Table, at: int, stats: ScanStats, ok: bool)
    requires ScanOutcome(BlockedEnv(), BLOCKED_TREE, BLOCKED_ROWS, rows', BlockedTasks(), tasks', at, stats, ok)
    ensures tasks' == BlockedTasks()
  {
    BlockedWalk();
    BlockedState();
    assert BlockedTasks()[1].key == Key(BLOCKED_SETTINGS, BLOCKED_SIGHTING);
    NothingNew(BlockedEnv(), rows', BlockedTasks(), tasks');
  }

  lemma NoneIsOpen(key: string)
    ensures !HasOpenTask(BlockedTasks(), key)
  {}

  lemma InsertedForBlocked(e: Env, rows': Rows, tasks: TaskTable.Table, tasks': TaskTable.Table, id: nat)
    requires TasksOutcome(e, [BLOCKED_SIGHTING], rows', tasks, tasks') && id in tasks' && id !in tasks
    ensures !TaskTable.HasKey(tasks, Key(e.c, BLOCKED_SIGHTING))
  {
    assert IsScanned(e, [BLOCKED_SIGHTING], rows', tasks'[id]);
  }

  lemma NothingNew(e: Env, rows': Rows, tasks: TaskTable.Table, tasks': TaskTable.Table)
    requires TasksOutcome(e, [BLOCKED_SIGHTING], rows', tasks, tasks')
    requires TaskTable.HasKey(tasks, Key(e.c, BLOCKED_SIGHTING))
    ensures tasks' == tasks
  {
    forall id | id in tasks' ensures id in tasks {
      if id !in tasks {
        InsertedForBlocked(e, rows', tasks, tasks', id);
        assert false;
      }
    }
    SameRows(tasks, tasks');
  }

  /** The stored state is as the database keeps it. */
  lemma BlockedStateIsStored()
    ensures WellFormed(Store(BLOCKED_ROWS, 2)) && Loaded(BlockedEnv(), BLOCKED_ROWS)
    ensures LoadedFrom(BLOCKED_SETTINGS, BLOCKED_ROWS, BlockedEnv().known) && TaskRepository.UniqueKeys(BlockedTasks())
  {}

  /** The scan can succeed, with one file seen and unchanged. */
  lemma BlockedScanSucceeds(at: int)
    ensures ScanOutcome(BlockedEnv(), BLOCKED_TREE, BLOCKED_ROWS, BLOCKED_ROWS, BlockedTasks(), BlockedTasks(), at,
      ScanStats(1, 1, 0, 0, 0), true)
  {
    var e, items := BlockedEnv(), [Item("", BLOCKED_TREE), Item("f", BLOCKED_FILE)];
    BlockedWalk();
    BlockedState();
    BlockedFileIsDue();
    BlockedRowKept(at);
    assert UnstableSights(e, [BLOCKED_SIGHTING]) == {};
    assert NewlyMissingRows(e, items, BLOCKED_ROWS) == {};
    assert BlockedTasks()[1].key == Key(e.c, BLOCKED_SIGHTING);
  }

  lemma BlockedRowKept(at: int)
    ensures var items := [Item("", BLOCKED_TREE), Item("f", BLOCKED_FILE)];
      RowOutcome(BlockedEnv(), items, BLOCKED_ROW, BLOCKED_ROW, at) && !NewlyMissing(BlockedEnv(), items, BLOCKED_ROW)
  {
    var e, items := BlockedEnv(), [Item("", BLOCKED_TREE), Item("f", BLOCKED_FILE)];
    BlockedState();
    SparedIsProtected(e, items, "/r/f");
    SightAtFinds(e.c, [BLOCKED_SIGHTING], BLOCKED_SIGHTING);
    assert !NeedsWrite(e.c, BLOCKED_ROW, BLOCKED_SIGHTING);
  }
}
