/**
 * `scanFolder`: load the stored snapshots and open tasks, walk the tree, write the snapshots, mark what is missing and
 * create the tasks.  Nothing else writes the two tables meanwhile.
 */
module FolderScanner {
  import opened Wrappers
  import opened FolderWalk
  import opened FileRecords
  import opened FolderScan
  import opened ScanFacts
  import opened ScanRows
  import TaskTable
  import opened TaskRepository

  datatype ScanStats = ScanStats(filesSeen: nat, filesUnchanged: nat, stableSkipped: nat, filesMissing: nat,
    tasksCreated: nat)

  // ---- reading

  /** Load the folder's snapshots, in whatever order the database returns them, and index them by local path. */
  method LoadSnapshots(rows: Rows, c: Settings, ghost nextId: nat) returns (records: seq<FileRecord>, known: Known)
    requires WellFormed(Store(rows, nextId))
    ensures LoadedFrom(c, rows, known) && KnownOk(known)
    ensures Distinct(records) && forall id :: id in Ids(records) <==> id in rows && Listed(c, rows[id])
    ensures forall r | r in records :: r.id in rows && rows[r.id] == r
  {
    ghost var listed := set id | id in rows && Listed(c, rows[id]);
    var todo := set id | id in rows && Listed(c, rows[id]);
    records, known := [], map[];
    while todo != {}
      invariant todo <= listed
      invariant forall p | p in known :: IsRowAt(rows, known[p], p) && Listed(c, known[p])
      invariant forall id | id in listed - todo :: Lookup(known, rows[id].localPath) == Some(rows[id])
      invariant Distinct(records) && (forall r | r in records :: r.id in listed - todo && rows[r.id] == r)
      invariant forall id | id in listed - todo :: rows[id] in records
      decreases todo
    {
      var id :| id in todo;
      todo := todo - {id};
      records := records + [rows[id]];
      known := known[rows[id].localPath := rows[id]];
    }
    forall id ensures id in Ids(records) <==> id in listed {
      if id in listed {
        assert rows[id] in records;
      }
    }
  }

  /** The keys of the folder's tasks that still block a duplicate. */
  function OpenKeys(tasks: TaskTable.Table, folder: nat): set<string> {
    set id | id in tasks && tasks[id].folder == folder && tasks[id].key != "" &&
             (TaskTable.Queued(tasks[id]) || tasks[id].status == TaskTable.Running) :: tasks[id].key
  }

  // ---- the missing sweep

  method PathWithinAny(candidate: string, roots: seq<string>) returns (within: bool)
    ensures within <==> WithinSome(candidate, roots)
  {
    for i := 0 to |roots|
      invariant !WithinSome(candidate, roots[..i])
    {
      if Within(candidate, roots[i]) {
        return true;
      }
      assert roots[..i + 1] == roots[..i] + [roots[i]];
    }
    assert roots[..|roots|] == roots;
    return false;
  }

  predicate Spared(r: FileRecord, seen: set<string>, excluded: seq<string>) {
    r.localPath in seen || r.missingAt.Some? || WithinSome(r.localPath, excluded)
  }

  method MissingIds(records: seq<FileRecord>, seen: set<string>, excluded: seq<string>) returns (ids: seq<nat>)
    requires Distinct(records)
    ensures forall id :: id in ids <==> exists r | r in records :: r.id == id && !Spared(r, seen, excluded)
    ensures |ids| == |Elements(ids)|
  {
    ids := [];
    for i := 0 to |records|
      invariant forall id | id in ids :: exists k | 0 <= k < i ::
        records[k].id == id && !Spared(records[k], seen, excluded)
      invariant forall k | 0 <= k < i && !Spared(records[k], seen, excluded) :: records[k].id in ids
      invariant |ids| == |Elements(ids)|
    {
      var excludedHere := PathWithinAny(records[i].localPath, excluded);
      if !(records[i].localPath in seen || records[i].missingAt.Some? || excludedHere) {
        assert records[i].id !in Elements(ids);
        assert Elements(ids + [records[i].id]) == Elements(ids) + {records[i].id};
        ids := ids + [records[i].id];
      }
    }
  }

  // ---- writing the snapshots

  /** The row is the current description of the sighted file. */
  predicate Describes(c: Settings, row: FileRecord, s: Sighting) {
    && row.localPath == Place(c, s) && row.watchFolderId == c.folder && row.relativePath == s.rel
    && row.remoteName == c.remoteName && row.remotePath == s.target && row.fingerprint == s.info.fingerprint
  }

  /** The path is taken by a row the folder does not load. */
  predicate StoredElsewhere(c: Settings, rows: Rows, path: string) {
    exists id | id in rows :: rows[id].localPath == path && !Listed(c, rows[id])
  }

  /** Every sighted path resolves to a stored row describing it, or to no identifier because another folder has it. */
  ghost predicate Resolves(c: Settings, sights: seq<Sighting>, rows: Rows, byPath: Known) {
    forall s | s in sights :: ResolvesOne(c, s, rows, byPath)
  }

  ghost predicate ResolvesOne(c: Settings, s: Sighting, rows: Rows, byPath: Known) {
    var path := Place(c, s);
    path in byPath &&
      if byPath[path].id > 0 then byPath[path].id in rows && Describes(c, rows[byPath[path].id], s)
        else StoredElsewhere(c, rows, path)
  }

  lemma KnownStays(e: Env, items: seq<Item>, rows: Rows, after: Rows, s: Sighting, at: int)
    requires Loaded(e, rows) && DistinctRels(items) && s in WalkAfter(e, items).sights && Place(e.c, s) in e.known
    requires RowsOutcome(e, items, rows, after, at)
    ensures var id := e.known[Place(e.c, s)].id; id in after && Describes(e.c, after[id], s)
  {
    var sights, path := WalkAfter(e, items).sights, Place(e.c, s);
    var row := e.known[path];
    SightsAreDistinct(e, items);
    SightAtFinds(e.c, sights, s);
    assert RowOutcome(e, items, row, after[row.id], at);
    SameDescription(e.c, after[row.id], Observed(e.c, e.known, s), s);
  }

  lemma SameDescription(c: Settings, a: FileRecord, b: FileRecord, s: Sighting)
    requires a.(missingAt := None, updatedAt := 0) == b.(missingAt := None, updatedAt := 0)
    ensures Describes(c, a, s) <==> Describes(c, b, s)
    ensures Listed(c, a) <==> Listed(c, b)
  {
    assert a == b.(missingAt := a.missingAt, updatedAt := a.updatedAt);
  }

  /** A row the reload finds under a sighted path describes that file. */
  lemma ReloadFinds(e: Env, items: seq<Item>, rows: Rows, after: Store, known: Known, s: Sighting, at: int)
    requires Loaded(e, rows) && LoadedFrom(e.c, rows, e.known) && DistinctRels(items) && s in WalkAfter(e, items).sights
    requires RowsOutcome(e, items, rows, after.rows, at) && WellFormed(after) && LoadedFrom(e.c, after.rows, known)
    ensures Place(e.c, s) in known ==> Describes(e.c, known[Place(e.c, s)], s)
    ensures Place(e.c, s) in e.known ==> Place(e.c, s) in known
  {
    var path := Place(e.c, s);
    if path in e.known {
      KnownStays(e, items, rows, after.rows, s, at);
      assert Listed(e.c, after.rows[e.known[path].id]);
    } else if path in known {
      NewlyListed(e, items, rows, after.rows, known[path], at);
      SightsAreDistinct(e, items);
      NewDescribes(e, WalkAfter(e, items).sights, known[path], s);
    }
  }

  /** A listed row at a path the scan had not loaded is one it inserted. */
  lemma NewlyListed(e: Env, items: seq<Item>, rows: Rows, after: Rows, row: FileRecord, at: int)
    requires LoadedFrom(e.c, rows, e.known) && RowsOutcome(e, items, rows, after, at)
    requires row.id in after && after[row.id] == row && Listed(e.c, row) && row.localPath !in e.known
    ensures IsNewFile(e, WalkAfter(e, items).sights, row)
  {
    if row.id in rows {
      assert RowOutcome(e, items, rows[row.id], row, at);
      KeepsPath(e, items, rows[row.id], row, at);
      UnsightedRow(e, items, rows[row.id], row, at);
      assert false;
    }
  }

  lemma KeepsPath(e: Env, items: seq<Item>, before: FileRecord, after: FileRecord, at: int)
    requires RowOutcome(e, items, before, after, at) && forall p | p in e.known :: e.known[p].localPath == p
    ensures after.localPath == before.localPath
  {
    var row := Rescanned(e, WalkAfter(e, items).sights, before);
    SightAtIsSeen(e.c, WalkAfter(e, items).sights, before.localPath);
    assert after == row.(missingAt := after.missingAt, updatedAt := after.updatedAt);
  }

  lemma NewDescribes(e: Env, sights: seq<Sighting>, row: FileRecord, s: Sighting)
    requires DistinctPlaces(sights) && s in sights && IsNewFile(e, sights, row) && row.localPath == Place(e.c, s)
    ensures Describes(e.c, row, s)
  {
    var t :| t in sights && Place(e.c, t) !in e.known && row == Observed(e.c, e.known, t).(id := row.id);
    SightAtFinds(e.c, sights, s);
    SightAtFinds(e.c, sights, t);
  }

  /** A stored row whose path the scan did not load is left as it was. */
  lemma UnsightedRow(e: Env, items: seq<Item>, before: FileRecord, after: FileRecord, at: int)
    requires RowOutcome(e, items, before, after, at) && !IsKnown(e, before)
    ensures after.localPath == before.localPath && (Listed(e.c, after) <==> Listed(e.c, before))
  {
    assert after == before.(missingAt := after.missingAt, updatedAt := after.updatedAt);
  }

  /** Update changed rows, mark missing ones, insert new ones and look every sighted path up again. */
  method WriteSnapshots(
      scan: Scan, records: seq<FileRecord>, files: FileRecordRepository, batchSize: int, batchClock: nat -> int,
      at: int)
    returns (filesMissing: nat, byPath: Known)
    requires scan.Valid() && DistinctRels(scan.visited)
    requires WellFormed(Store(files.rows, files.nextId)) && Loaded(scan.env, files.rows)
    requires LoadedFrom(scan.env.c, files.rows, scan.env.known)
    requires Distinct(records) && (forall r | r in records :: r.id in files.rows && files.rows[r.id] == r)
    requires forall id :: id in Ids(records) <==> id in files.rows && Listed(scan.env.c, files.rows[id])
    modifies files`rows, files`nextId
    ensures RowsOutcome(scan.env, scan.visited, old(files.rows), files.rows, at)
    ensures WellFormed(Store(files.rows, files.nextId))
    ensures Resolves(scan.env.c, scan.sights, files.rows, byPath)
    ensures filesMissing == |NewlyMissingRows(scan.env, scan.visited, old(files.rows))|
  {
    ghost var before := files.rows;
    ghost var size: nat := if batchSize <= 0 then 500 else batchSize;
    var missing := UpdateAndSweep(scan, records, files, batchSize, batchClock, at);
    filesMissing := |missing|;
    MissingCounted(scan.env, scan.visited, before, missing);
    WritesMean(scan.env, scan.visited, before, files.nextId, size, batchClock, Elements(missing), at);
    byPath := InsertAndReload(scan, files, before, at);
  }

  /** Update the changed rows; if the walk met no error, mark the missing ones. */
  method UpdateAndSweep(
      scan: Scan, records: seq<FileRecord>, files: FileRecordRepository, batchSize: int, batchClock: nat -> int,
      at: int)
    returns (missing: seq<nat>)
    requires Keyed(files.rows) && Loaded(scan.env, files.rows) && LoadedFrom(scan.env.c, files.rows, scan.env.known)
    requires Distinct(records) && (forall r | r in records :: r.id in files.rows && files.rows[r.id] == r)
    requires forall id :: id in Ids(records) <==> id in files.rows && Listed(scan.env.c, files.rows[id])
    modifies files`rows
    ensures var size: nat := if batchSize <= 0 then 500 else batchSize;
      files.rows ==
        MarkedMissing(Updated(scan.env, scan.Files(), old(files.rows), size, batchClock), Elements(missing), at)
    ensures if scan.scanErrors == 0 then MissingAre(scan.env, scan.Walked(), old(files.rows), Elements(missing))
      else missing == []
    ensures |missing| == |Elements(missing)| && Elements(missing) <= old(files.rows).Keys
  {
    ghost var before := files.rows;
    var ok := files.UpdateSnapshots(scan.changed, scan.clearIds, batchSize, batchClock, None);
    ghost var chunks := Chunks(scan.changed, if batchSize <= 0 then 500 else batchSize);
    assert chunks[..|chunks|] == chunks;
    missing := [];
    if scan.scanErrors == 0 {
      missing := MissingIds(records, scan.seenPaths, scan.excludedPrefixes);
      files.MarkMissing(missing, at, batchSize);
      MissingFound(scan.env, scan.Walked(), before, records, missing);
    } else {
      assert MarkedMissing(files.rows, {}, at) == files.rows;
    }
  }

  /** Insert the new rows and, if there were any, look all paths up again. */
  method InsertAndReload(scan: Scan, files: FileRecordRepository, ghost before: Rows, at: int) returns (byPath: Known)
    requires scan.Valid() && DistinctRels(scan.visited)
    requires Loaded(scan.env, before) && LoadedFrom(scan.env.c, before, scan.env.known)
    requires var after := InsertAll(Store(files.rows, files.nextId), scan.added);
      && RowsOutcome(scan.env, scan.visited, before, after.rows, at) && WellFormed(after)
      && AllStored(scan.env.c, scan.sights, after.rows)
    modifies files`rows, files`nextId
    ensures RowsOutcome(scan.env, scan.visited, before, files.rows, at) && WellFormed(Store(files.rows, files.nextId))
    ensures Resolves(scan.env.c, scan.sights, files.rows, byPath)
  {
    byPath := scan.recordByPath;
    if |scan.added| > 0 {
      files.CreateSnapshots(scan.added);
      byPath := Reload(scan.env, scan.visited, files.rows, files.nextId, byPath, before, at);
    } else {
      AllInMemory(scan.env, scan.visited, before, files.rows, at);
    }
  }

  /** Look the paths up in the stored rows; what is found replaces what is in memory. */
  method Reload(
      e: Env, ghost items: seq<Item>, rows: Rows, ghost nextId: nat, memory: Known, ghost before: Rows, ghost at: int)
    returns (byPath: Known)
    requires Loaded(e, before) && LoadedFrom(e.c, before, e.known) && DistinctRels(items)
    requires RowsOutcome(e, items, before, rows, at) && WellFormed(Store(rows, nextId))
    requires AllStored(e.c, WalkAfter(e, items).sights, rows)
    requires memory == FilesAfter(e, WalkAfter(e, items).sights).recordByPath
    ensures Resolves(e.c, WalkAfter(e, items).sights, rows, byPath)
  {
    var persisted, reloaded := LoadSnapshots(rows, e.c, nextId);
    byPath := memory + reloaded;
    AllReloaded(e, items, before, Store(rows, nextId), reloaded, byPath, at);
  }

  lemma AllInMemory(e: Env, items: seq<Item>, rows: Rows, after: Rows, at: int)
    requires Loaded(e, rows) && DistinctRels(items) && RowsOutcome(e, items, rows, after, at)
    requires FilesAfter(e, WalkAfter(e, items).sights).added == []
    ensures Resolves(e.c, WalkAfter(e, items).sights, after, FilesAfter(e, WalkAfter(e, items).sights).recordByPath)
  {
    forall s | s in WalkAfter(e, items).sights
      ensures ResolvesOne(e.c, s, after, FilesAfter(e, WalkAfter(e, items).sights).recordByPath)
    {
      MemoryResolves(e, items, rows, after, s, at);
    }
  }

  lemma AllReloaded(e: Env, items: seq<Item>, rows: Rows, after: Store, reloaded: Known, byPath: Known, at: int)
    requires Loaded(e, rows) && LoadedFrom(e.c, rows, e.known) && DistinctRels(items)
    requires RowsOutcome(e, items, rows, after.rows, at) && WellFormed(after) && LoadedFrom(e.c, after.rows, reloaded)
    requires AllStored(e.c, WalkAfter(e, items).sights, after.rows) && KnownOk(reloaded)
    requires byPath == FilesAfter(e, WalkAfter(e, items).sights).recordByPath + reloaded
    ensures Resolves(e.c, WalkAfter(e, items).sights, after.rows, byPath)
  {
    forall s | s in WalkAfter(e, items).sights ensures ResolvesOne(e.c, s, after.rows, byPath) {
      ReloadResolves(e, items, rows, after, reloaded, s, at);
    }
  }

  lemma MissingFound(e: Env, w: WalkState, rows: Rows, records: seq<FileRecord>, missing: seq<nat>)
    requires Loaded(e, rows) && LoadedFrom(e.c, rows, e.known) && Keyed(rows)
    requires (forall r | r in records :: r.id in rows && rows[r.id] == r)
    requires forall id :: id in Ids(records) <==> id in rows && Listed(e.c, rows[id])
    requires forall id :: id in missing <==> exists r | r in records ::
      r.id == id && !Spared(r, w.seenPaths, w.excludedPrefixes)
    ensures MissingAre(e, w, rows, Elements(missing)) && Elements(missing) <= rows.Keys
  {
    forall id | id in rows ensures id in missing <==>
        IsKnown(e, rows[id]) && rows[id].missingAt.None? && rows[id].localPath !in w.seenPaths
          && !WithinSome(rows[id].localPath, w.excludedPrefixes) {
      assert IsKnown(e, rows[id]) <==> Listed(e.c, rows[id]);
      if Listed(e.c, rows[id]) {
        assert id in Ids(records);
        assert rows[id] in records;
      }
    }
  }

  lemma MissingCounted(e: Env, items: seq<Item>, rows: Rows, missing: seq<nat>)
    requires |missing| == |Elements(missing)| && Elements(missing) <= rows.Keys
    requires if WalkAfter(e, items).scanErrors == 0 then MissingAre(e, WalkAfter(e, items), rows, Elements(missing))
      else missing == []
    ensures |missing| == |NewlyMissingRows(e, items, rows)|
  {
    var marked := NewlyMissingRows(e, items, rows);
    forall id | id in rows ensures id in marked <==> id in Elements(missing) {
      SparedIsProtected(e, items, rows[id].localPath);
    }
    assert marked == Elements(missing);
  }

  lemma ReloadResolves(e: Env, items: seq<Item>, rows: Rows, after: Store, reloaded: Known, s: Sighting, at: int)
    requires Loaded(e, rows) && LoadedFrom(e.c, rows, e.known) && DistinctRels(items) && s in WalkAfter(e, items).sights
    requires RowsOutcome(e, items, rows, after.rows, at) && WellFormed(after) && LoadedFrom(e.c, after.rows, reloaded)
    requires HasPath(after.rows, Place(e.c, s))
    ensures var path, memory := Place(e.c, s), FilesAfter(e, WalkAfter(e, items).sights).recordByPath;
      if path in reloaded then reloaded[path].id in after.rows && Describes(e.c, after.rows[reloaded[path].id], s)
      else path in memory && memory[path].id == 0 && StoredElsewhere(e.c, after.rows, path)
  {
    ReloadFinds(e, items, rows, after, reloaded, s, at);
    NotReloaded(e, after.rows, reloaded, Place(e.c, s));
    SightsAreDistinct(e, items);
    RecordSeen(e, WalkAfter(e, items).sights, s);
    ObservedId(e, s);
  }

  lemma NotReloaded(e: Env, rows: Rows, reloaded: Known, path: string)
    requires LoadedFrom(e.c, rows, reloaded) && HasPath(rows, path)
    ensures path !in reloaded ==> StoredElsewhere(e.c, rows, path)
  {
    var id :| id in rows && rows[id].localPath == path;
    assert Listed(e.c, rows[id]) ==> Lookup(reloaded, path) == Some(rows[id]);
  }

  lemma MemoryResolves(e: Env, items: seq<Item>, rows: Rows, after: Rows, s: Sighting, at: int)
    requires Loaded(e, rows) && DistinctRels(items) && s in WalkAfter(e, items).sights
    requires RowsOutcome(e, items, rows, after, at) && FilesAfter(e, WalkAfter(e, items).sights).added == []
    ensures ResolvesOne(e.c, s, after, FilesAfter(e, WalkAfter(e, items).sights).recordByPath)
  {
    var sights := WalkAfter(e, items).sights;
    if Place(e.c, s) !in e.known {
      AddedHas(e, sights, s);
      assert false;
    }
    KnownStays(e, items, rows, after, s, at);
    SightsAreDistinct(e, items);
    RecordSeen(e, sights, s);
    ObservedId(e, s);
  }

  // ---- creating the tasks

  predicate IsAssigned(d: Candidate, byPath: Known, n: TaskTable.NewTask) {
    d.localPath in byPath && byPath[d.localPath].id > 0 && n == d.task.(fileId := byPath[d.localPath].id)
  }

  predicate Unresolved(d: Candidate, byPath: Known) {
    d.localPath !in byPath || byPath[d.localPath].id == 0
  }

  ghost predicate IsAssignedFrom(candidates: seq<Candidate>, byPath: Known, n: TaskTable.NewTask) {
    exists d | d in candidates :: IsAssigned(d, byPath, n)
  }

  ghost predicate AllAssigned(candidates: seq<Candidate>, byPath: Known, valid: seq<TaskTable.NewTask>) {
    |valid| == |candidates| && forall k | 0 <= k < |candidates| :: IsAssigned(candidates[k], byPath, valid[k])
  }

  /** Give every candidate the identifier of its snapshot row; one without is dropped and reported. */
  method AssignIds(candidates: seq<Candidate>, byPath: Known) returns (valid: seq<TaskTable.NewTask>, problems: nat)
    ensures forall n | n in valid :: IsAssignedFrom(candidates, byPath, n)
    ensures problems == 0 ==> AllAssigned(candidates, byPath, valid)
    ensures |valid| + problems == |candidates|
    ensures problems > 0 ==> exists d | d in candidates :: Unresolved(d, byPath)
  {
    valid, problems := [], 0;
    for k := 0 to |candidates|
      invariant forall n | n in valid :: IsAssignedFrom(candidates, byPath, n)
      invariant problems == 0 ==> AllAssigned(candidates[..k], byPath, valid)
      invariant |valid| + problems == k
      invariant problems > 0 ==> exists d | d in candidates :: Unresolved(d, byPath)
    {
      var d := candidates[k];
      if d.localPath !in byPath || byPath[d.localPath].id == 0 {
        assert Unresolved(d, byPath);
        problems := problems + 1;
      } else {
        valid := valid + [d.task.(fileId := byPath[d.localPath].id)];
        assert IsAssigned(d, byPath, valid[|valid| - 1]);
      }
    }
    assert candidates[..|candidates|] == candidates;
  }

  /** The task uploads a due file and its snapshot row describes that very version and target. */
  ghost predicate IsTaskFor(e: Env, s: Sighting, files: Rows, t: TaskTable.Task) {
    && Judge(e.c, e.known, e.legacy, s) == Due && t == TaskTable.FreshTask(CandidateFor(e.c, s, t.fileId).task)
    && t.fileId in files && Describes(e.c, files[t.fileId], s)
  }

  ghost predicate IsScanned(e: Env, sights: seq<Sighting>, files: Rows, t: TaskTable.Task) {
    exists s | s in sights :: IsTaskFor(e, s, files, t)
  }

  ghost predicate TasksOutcome(
      e: Env, sights: seq<Sighting>, files: Rows, before: TaskTable.Table, after: TaskTable.Table) {
    && before.Keys <= after.Keys && (forall id | id in before :: after[id] == before[id])
    && forall id | id in after && id !in before ::
      !TaskTable.HasKey(before, after[id].key) && IsScanned(e, sights, files, after[id])
  }

  ghost predicate DueHaveTasks(e: Env, sights: seq<Sighting>, tasks: TaskTable.Table) {
    forall s | s in sights && Judge(e.c, e.known, e.legacy, s) == Due :: TaskTable.HasKey(tasks, Key(e.c, s))
  }

  lemma InsertedAreScanned(
      e: Env, sights: seq<Sighting>, files: Rows, byPath: Known, before: TaskTable.Table, after: TaskTable.Table,
      valid: seq<TaskTable.NewTask>)
    requires Resolves(e.c, sights, files, byPath) && Extends(before, after, valid)
    requires forall n | n in valid :: IsAssignedFrom(FilesAfter(e, sights).candidates, byPath, n)
    ensures TasksOutcome(e, sights, files, before, after)
  {
    forall id | id in after && id !in before ensures IsScanned(e, sights, files, after[id]) {
      var n :| n in valid && after[id] == TaskTable.FreshTask(n);
      var d :| d in FilesAfter(e, sights).candidates && IsAssigned(d, byPath, n);
      var s := CandidateFrom(e, sights, d);
      assert ResolvesOne(e.c, s, files, byPath);
      assert IsTaskFor(e, s, files, after[id]);
    }
  }

  lemma DueAreCreated(
      e: Env, sights: seq<Sighting>, byPath: Known, before: TaskTable.Table, after: TaskTable.Table,
      valid: seq<TaskTable.NewTask>)
    requires Extends(before, after, valid) && (forall n | n in valid :: TaskTable.HasKey(after, n.key))
    requires AllAssigned(FilesAfter(e, sights).candidates, byPath, valid) && e.open == OpenKeys(before, e.c.folder)
    ensures DueHaveTasks(e, sights, after)
  {
    forall s | s in sights && Judge(e.c, e.known, e.legacy, s) == Due ensures TaskTable.HasKey(after, Key(e.c, s)) {
      var candidates, key := FilesAfter(e, sights).candidates, Key(e.c, s);
      DueIsActive(e, sights, s);
      ActiveMeans(e, sights, key);
      if HasCandidate(candidates, key) {
        var d :| d in candidates && d.task.key == key;
        var k :| 0 <= k < |candidates| && candidates[k] == d;
        assert IsAssigned(d, byPath, valid[k]) && valid[k] in valid;
      } else {
        var id :| id in before && before[id].key == key;
        assert after[id].key == key;
      }
    }
  }

  /** A due file whose path belongs to a row the folder does not load, so that no task can be created. */
  ghost predicate SomeBlocked(e: Env, sights: seq<Sighting>, rows: Rows) {
    exists s | s in sights :: Judge(e.c, e.known, e.legacy, s) == Due && StoredElsewhere(e.c, rows, Place(e.c, s))
  }

  lemma UnresolvedIsBlocked(e: Env, sights: seq<Sighting>, rows: Rows, byPath: Known, d: Candidate)
    requires d in FilesAfter(e, sights).candidates && Unresolved(d, byPath) && Resolves(e.c, sights, rows, byPath)
    ensures SomeBlocked(e, sights, rows)
  {
    var s := CandidateFrom(e, sights, d);
    assert ResolvesOne(e.c, s, rows, byPath);
  }

  // ---- the whole scan

  /** What a scan promises, with `e` what it loaded when it started. */
  ghost predicate ScanOutcome(
      e: Env, tree: Entry, rows: Rows, rows': Rows, tasks: TaskTable.Table, tasks': TaskTable.Table, at: int,
      stats: ScanStats, ok: bool) {
    var items := Walk(tree, "", e.c.filter);
    var sights := WalkAfter(e, items).sights;
    && RowsOutcome(e, items, rows, rows', at)
    && TasksOutcome(e, sights, rows', tasks, tasks')
    && stats.filesSeen == WalkAfter(e, items).filesSeen
    && stats.filesMissing == |NewlyMissingRows(e, items, rows)|
    && stats.tasksCreated == |tasks'| - |tasks|
    && stats.stableSkipped == |UnstableSights(e, sights)|
    && (ok ==> WalkAfter(e, items).scanErrors == 0 && DueHaveTasks(e, sights, tasks'))
    && (!ok ==> WalkAfter(e, items).scanErrors > 0 || SomeBlocked(e, sights, rows'))
    && (ok ==> stats.filesSeen == stats.stableSkipped + stats.filesUnchanged + stats.tasksCreated)
  }

  /** Create the tasks of the candidates that have a row; `skipped` counts those whose key was taken. */
  method CreateTasks(scan: Scan, ghost rows: Rows, taskRepo: TaskRepository, byPath: Known, at: int)
    returns (inserted: nat, skipped: nat, problems: nat)
    requires scan.Valid() && taskRepo.Valid() && Resolves(scan.env.c, scan.sights, rows, byPath)
    requires scan.env.open == OpenKeys(taskRepo.tasks, scan.env.c.folder)
    modifies taskRepo`tasks, taskRepo`nextId
    ensures taskRepo.Valid() && TasksOutcome(scan.env, scan.sights, rows, old(taskRepo.tasks), taskRepo.tasks)
    ensures UniqueKeys(old(taskRepo.tasks)) ==> UniqueKeys(taskRepo.tasks)
    ensures inserted == |taskRepo.tasks| - |old(taskRepo.tasks)| && inserted + skipped + problems == |scan.candidates|
    ensures if problems == 0 then DueHaveTasks(scan.env, scan.sights, taskRepo.tasks)
      else SomeBlocked(scan.env, scan.sights, rows)
  {
    var valid;
    valid, problems := AssignIds(scan.candidates, byPath);
    ghost var before := taskRepo.State();
    inserted := taskRepo.CreateManyIfAbsent(valid, at);
    skipped := |valid| - inserted;
    CreateAllExtends(before, valid);
    InsertedAreScanned(scan.env, scan.sights, rows, byPath, before.tasks, taskRepo.tasks, valid);
    if problems == 0 {
      DueAreCreated(scan.env, scan.sights, byPath, before.tasks, taskRepo.tasks, valid);
    } else {
      ghost var d :| d in scan.candidates && Unresolved(d, byPath);
      UnresolvedIsBlocked(scan.env, scan.sights, rows, byPath, d);
    }
  }

  /** Everything after the walk: the writes, the tasks and the statistics. */
  method Finish(
      scan: Scan, ghost tree: Entry, records: seq<FileRecord>, files: FileRecordRepository, taskRepo: TaskRepository,
      batchSize: int, batchClock: nat -> int, at: int)
    returns (stats: ScanStats, ok: bool)
    requires scan.Valid() && scan.visited == Walk(tree, "", scan.env.c.filter) && DistinctRels(scan.visited)
    requires WellFormed(Store(files.rows, files.nextId)) && taskRepo.Valid()
    requires Loaded(scan.env, files.rows) && LoadedFrom(scan.env.c, files.rows, scan.env.known)
    requires Distinct(records) && (forall r | r in records :: r.id in files.rows && files.rows[r.id] == r)
    requires forall id :: id in Ids(records) <==> id in files.rows && Listed(scan.env.c, files.rows[id])
    requires scan.env.open == OpenKeys(taskRepo.tasks, scan.env.c.folder)
    modifies files`rows, files`nextId, taskRepo`tasks, taskRepo`nextId
    ensures WellFormed(Store(files.rows, files.nextId)) && taskRepo.Valid()
    ensures ScanOutcome(
      scan.env, tree, old(files.rows), files.rows, old(taskRepo.tasks), taskRepo.tasks, at, stats, ok)
    ensures UniqueKeys(old(taskRepo.tasks)) ==> UniqueKeys(taskRepo.tasks)
  {
    var filesMissing, byPath := WriteSnapshots(scan, records, files, batchSize, batchClock, at);
    var inserted, skipped, problems := CreateTasks(scan, files.rows, taskRepo, byPath, at);
    ok := scan.scanErrors + problems == 0;
    ErrorsMean(scan.env, scan.visited);
    Accounted(scan.env, scan.sights);
    SightsAreDistinct(scan.env, scan.visited);
    SkippedMeans(scan.env, scan.sights);
    stats :=
      ScanStats(scan.filesSeen, scan.filesUnchanged + skipped, scan.stableSkipped, filesMissing, inserted);
  }

  method ScanFolder(
      c: Settings, tree: Entry, legacy: set<string>, clock: string -> int, files: FileRecordRepository,
      taskRepo: TaskRepository, batchSize: int, batchClock: nat -> int, at: int)
    returns (stats: ScanStats, ok: bool, ghost e: Env)
    requires tree.Dir? && NamesOk(tree) && WellFormed(Store(files.rows, files.nextId)) && taskRepo.Valid()
    modifies files`rows, files`nextId, taskRepo`tasks, taskRepo`nextId
    ensures e.c == c && e.legacy == legacy && e.clock == clock && e.open == OpenKeys(old(taskRepo.tasks), c.folder)
    ensures Loaded(e, old(files.rows)) && LoadedFrom(c, old(files.rows), e.known)
    ensures WellFormed(Store(files.rows, files.nextId)) && taskRepo.Valid()
    ensures ScanOutcome(e, tree, old(files.rows), files.rows, old(taskRepo.tasks), taskRepo.tasks, at, stats, ok)
    ensures UniqueKeys(old(taskRepo.tasks)) ==> UniqueKeys(taskRepo.tasks)
  {
    var records, known := LoadSnapshots(files.rows, c, files.nextId);
    var env := Env(c, known, legacy, OpenKeys(taskRepo.tasks, c.folder), clock);
    e := env;
    var scan := new Scan(env);
    WalkIsDistinct(tree, "", c.filter);
    assert [] + Walk(tree, "", c.filter) == Walk(tree, "", c.filter);
    scan.WalkDir(tree, "");
    stats, ok := Finish(scan, tree, records, files, taskRepo, batchSize, batchClock, at);
  }
}
