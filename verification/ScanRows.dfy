/** What the writes at the end of a scan make of the stored snapshots, row by row. */
module ScanRows {
  import opened Wrappers
  import opened FolderWalk
  import opened FileRecords
  import opened FolderScan
  import opened ScanFacts

  /** The rows a scan loads: the folder's own, and unowned ones below its root. */
  predicate Listed(c: Settings, row: FileRecord) {
    row.watchFolderId == c.folder || (row.watchFolderId == 0 && Within(row.localPath, c.root))
  }

  ghost predicate LoadedFrom(c: Settings, rows: Rows, known: Known) {
    && (forall p | p in known :: IsRowAt(rows, known[p], p) && Listed(c, known[p]))
    && (forall id | id in rows && Listed(c, rows[id]) :: Lookup(known, rows[id].localPath) == Some(rows[id]))
  }

  predicate IsRowAt(rows: Rows, row: FileRecord, p: string) {
    row.localPath == p && row.id in rows && rows[row.id] == row
  }

  /**
   * Marked by this scan: the walk was clean, the row was loaded and not yet missing, and the walk does not protect its
   * path.
   */
  ghost predicate NewlyMissing(e: Env, items: seq<Item>, row: FileRecord) {
    && WalkAfter(e, items).scanErrors == 0 && IsKnown(e, row) && row.missingAt.None?
    && !ProtectedByWalk(items, e.c.filter, e.c.root, row.localPath)
  }

  /** A row that existed before the scan: its snapshot is refreshed if sighted; `missing_at` is set but never reset. */
  ghost predicate RowOutcome(e: Env, items: seq<Item>, before: FileRecord, after: FileRecord, at: int) {
    && after.(missingAt := None, updatedAt := 0)
       == Rescanned(e, WalkAfter(e, items).sights, before).(missingAt := None, updatedAt := 0)
    && after.missingAt == (if NewlyMissing(e, items, before) then Some(at) else before.missingAt)
  }

  ghost function NewlyMissingRows(e: Env, items: seq<Item>, rows: Rows): set<nat> {
    set id | id in rows && NewlyMissing(e, items, rows[id])
  }

  ghost predicate IsNewFile(e: Env, sights: seq<Sighting>, row: FileRecord) {
    exists s | s in sights :: Place(e.c, s) !in e.known && row == Observed(e.c, e.known, s).(id := row.id)
  }

  ghost predicate RowsOutcome(e: Env, items: seq<Item>, before: Rows, after: Rows, at: int) {
    && before.Keys <= after.Keys
    && (forall id | id in before :: RowOutcome(e, items, before[id], after[id], at))
    && (forall id | id in after && id !in before :: IsNewFile(e, WalkAfter(e, items).sights, after[id]))
  }

  /** Every sighted file is stored, under this folder or another. */
  ghost predicate AllStored(c: Settings, sights: seq<Sighting>, rows: Rows) {
    forall s | s in sights :: HasPath(rows, Place(c, s))
  }

  /** The three writes in order. */
  function Updated(e: Env, f: FileState, rows: Rows, size: nat, clock: nat -> int): Rows
    requires size > 0
  {
    RunBatches(rows, Chunks(f.changed, size), f.clearIds, clock)
  }

  ghost predicate MissingAre(e: Env, w: WalkState, rows: Rows, ids: set<nat>) {
    forall id | id in rows :: id in ids <==>
      IsKnown(e, rows[id]) && rows[id].missingAt.None? && rows[id].localPath !in w.seenPaths
        && !WithinSome(rows[id].localPath, w.excludedPrefixes)
  }

  lemma UpdatedKeys(e: Env, sights: seq<Sighting>, rows: Rows, size: nat, clock: nat -> int)
    requires size > 0 && Loaded(e, rows)
    ensures Updated(e, FilesAfter(e, sights), rows, size, clock).Keys == rows.Keys
  {
    var f := FilesAfter(e, sights);
    forall id | id in Ids(f.changed) ensures id in rows {
      var r :| r in f.changed && r.id == id;
      var s := ChangedFrom(e, sights, r);
      ObservedId(e, s);
    }
    ChunksFlatten(f.changed, size);
    RunBatchesKeys(rows, Chunks(f.changed, size), f.clearIds, clock);
  }

  /** One stored row through the batched update and the missing sweep. */
  lemma SweptRow(e: Env, items: seq<Item>, rows: Rows, size: nat, clock: nat -> int, ids: set<nat>, at: int, id: nat)
    requires size > 0 && Loaded(e, rows) && DistinctRels(items) && id in rows && rows[id].id == id
    requires if WalkAfter(e, items).scanErrors == 0 then MissingAre(e, WalkAfter(e, items), rows, ids) else ids == {}
    ensures var mid := Updated(e, FilesAfter(e, WalkAfter(e, items).sights), rows, size, clock);
      var after := MarkedMissing(mid, ids, at);
      && id in after && after[id].id == id && after[id].localPath == rows[id].localPath
      && RowOutcome(e, items, rows[id], after[id], at)
  {
    var w := WalkAfter(e, items);
    SightsAreDistinct(e, items);
    UpdatedSnapshot(e, w.sights, rows, size, clock, id);
    SparedIsProtected(e, items, rows[id].localPath);
    var row := Updated(e, FilesAfter(e, w.sights), rows, size, clock)[id];
    SightAtIsSeen(e.c, w.sights, rows[id].localPath);
    SameSnapshot(row, Rescanned(e, w.sights, rows[id]));
    assert id in ids <==> NewlyMissing(e, items, rows[id]);
  }

  lemma SameSnapshot(a: FileRecord, b: FileRecord)
    requires a.(updatedAt := 0) == b.(updatedAt := 0)
    ensures forall m, n ::
      a.(missingAt := m).(missingAt := None, updatedAt := 0) == b.(missingAt := n).(missingAt := None, updatedAt := 0)
    ensures a.(missingAt := None, updatedAt := 0) == b.(missingAt := None, updatedAt := 0)
    ensures a.localPath == b.localPath
  {
    assert a == b.(updatedAt := a.updatedAt);
    assert a.localPath == a.(updatedAt := 0).localPath;
  }

  /** The table after the update and the sweep. */
  lemma SweepMeans(
      e: Env, items: seq<Item>, rows: Rows, nextId: nat, size: nat, clock: nat -> int, ids: set<nat>, at: int)
    requires size > 0 && Loaded(e, rows) && DistinctRels(items) && WellFormed(Store(rows, nextId))
    requires if WalkAfter(e, items).scanErrors == 0 then MissingAre(e, WalkAfter(e, items), rows, ids) else ids == {}
    ensures var mid := MarkedMissing(Updated(e, FilesAfter(e, WalkAfter(e, items).sights), rows, size, clock), ids, at);
      && mid.Keys == rows.Keys && WellFormed(Store(mid, nextId))
      && forall id | id in rows ::
        mid[id].localPath == rows[id].localPath && RowOutcome(e, items, rows[id], mid[id], at)
  {
    var mid := MarkedMissing(Updated(e, FilesAfter(e, WalkAfter(e, items).sights), rows, size, clock), ids, at);
    UpdatedKeys(e, WalkAfter(e, items).sights, rows, size, clock);
    forall id | id in rows
      ensures mid[id].id == id && mid[id].localPath == rows[id].localPath && RowOutcome(e, items, rows[id], mid[id], at)
    {
      SweptRow(e, items, rows, size, clock, ids, at, id);
    }
  }

  /** The stored snapshots after all three writes. */
  lemma WritesMean(
      e: Env, items: seq<Item>, rows: Rows, nextId: nat, size: nat, clock: nat -> int, ids: set<nat>, at: int)
    requires size > 0 && Loaded(e, rows) && DistinctRels(items) && WellFormed(Store(rows, nextId))
    requires if WalkAfter(e, items).scanErrors == 0 then MissingAre(e, WalkAfter(e, items), rows, ids) else ids == {}
    ensures var f := FilesAfter(e, WalkAfter(e, items).sights);
      var after := InsertAll(Store(MarkedMissing(Updated(e, f, rows, size, clock), ids, at), nextId), f.added);
      WellFormed(after) && RowsOutcome(e, items, rows, after.rows, at)
        && AllStored(e.c, WalkAfter(e, items).sights, after.rows)
  {
    var sights := WalkAfter(e, items).sights;
    var mid := MarkedMissing(Updated(e, FilesAfter(e, sights), rows, size, clock), ids, at);
    SweepMeans(e, items, rows, nextId, size, clock, ids, at);
    InsertAllEffect(Store(mid, nextId), FilesAfter(e, sights).added);
    InsertsMean(e, items, rows, mid, InsertAll(Store(mid, nextId), FilesAfter(e, sights).added).rows, at);
  }

  lemma InsertsMean(e: Env, items: seq<Item>, rows: Rows, mid: Rows, after: Rows, at: int)
    requires Loaded(e, rows) && mid.Keys == rows.Keys <= after.Keys
    requires forall id | id in rows :: after[id] == mid[id]
    requires forall id | id in rows ::
      mid[id].localPath == rows[id].localPath && RowOutcome(e, items, rows[id], mid[id], at)
    requires forall id | id in after && id !in rows ::
      IsInsertOf(after[id], FilesAfter(e, WalkAfter(e, items).sights).added)
    requires forall r | r in FilesAfter(e, WalkAfter(e, items).sights).added :: HasPath(after, r.localPath)
    ensures RowsOutcome(e, items, rows, after, at) && AllStored(e.c, WalkAfter(e, items).sights, after)
  {
    var sights := WalkAfter(e, items).sights;
    forall id | id in after && id !in rows ensures IsNewFile(e, sights, after[id]) {
      var r :| r in FilesAfter(e, sights).added && after[id] == r.(id := after[id].id);
      var s := AddedFrom(e, sights, r);
    }
    forall s | s in sights ensures HasPath(after, Place(e.c, s)) {
      StoredAfter(e, sights, rows, after, s);
    }
  }

  lemma StoredAfter(e: Env, sights: seq<Sighting>, rows: Rows, after: Rows, s: Sighting)
    requires Loaded(e, rows) && s in sights && rows.Keys <= after.Keys
    requires forall id | id in rows :: after[id].localPath == rows[id].localPath
    requires forall r | r in FilesAfter(e, sights).added :: HasPath(after, r.localPath)
    ensures HasPath(after, Place(e.c, s))
  {
    if Place(e.c, s) in e.known {
      assert after[e.known[Place(e.c, s)].id].localPath == Place(e.c, s);
    } else {
      AddedHas(e, sights, s);
      ObservedId(e, s);
    }
  }
}
