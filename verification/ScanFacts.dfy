/** What a finished walk has gathered, stated in terms of the visited entries and the stored snapshots. */
module ScanFacts {
  import opened Wrappers
  import opened FolderWalk
  import opened FileRecords
  import opened FolderScan

  // ---- the walk's own part

  lemma {:induction false} SeenCount(e: Env, items: seq<Item>)
    ensures WalkAfter(e, items).filesSeen == |Select(items, i => Admitted(i, e.c.filter))|
  {
    if items != [] {
      var n := |items| - 1;
      SeenCount(e, items[..n]);
      assert items == items[..n] + [items[n]];
      SelectConcat(items[..n], [items[n]], i => Admitted(i, e.c.filter));
    }
  }

  /** The error counter is zero exactly when nothing visited is troubled; then every admitted file was sighted. */
  lemma {:induction false} ErrorsMean(e: Env, items: seq<Item>)
    ensures var w := WalkAfter(e, items);
      && (w.scanErrors == 0 <==> forall i | i in items :: !Troubled(e.c, i))
      && (w.scanErrors == 0 ==> w.filesSeen == |w.sights|)
  {
    if items != [] {
      var n := |items| - 1;
      ErrorsMean(e, items[..n]);
      assert items == items[..n] + [items[n]];
    }
  }

  ghost predicate SeenIn(e: Env, items: seq<Item>, p: string) {
    exists i | i in items :: RecordsPath(i, e.c.filter) && Local(e.c.root, i.rel) == p
  }

  lemma {:induction false} SeenMeans(e: Env, items: seq<Item>, p: string)
    ensures p in WalkAfter(e, items).seenPaths <==> SeenIn(e, items, p)
  {
    if items != [] {
      var n := |items| - 1;
      SeenMeans(e, items[..n], p);
      assert items == items[..n] + [items[n]];
    }
  }

  predicate WithinSome(p: string, roots: seq<string>) {
    exists r | r in roots :: Within(p, r)
  }

  ghost predicate InsideExcluded(e: Env, items: seq<Item>, p: string) {
    exists i | i in items :: ExcludedDir(e.c, i) && Within(p, Local(e.c.root, i.rel))
  }

  lemma {:induction false} ExcludedMeans(e: Env, items: seq<Item>, p: string)
    ensures WithinSome(p, WalkAfter(e, items).excludedPrefixes) <==> InsideExcluded(e, items, p)
  {
    if items != [] {
      var n := |items| - 1;
      ExcludedMeans(e, items[..n], p);
      assert items == items[..n] + [items[n]];
      var a, b := WalkAfter(e, items[..n]).excludedPrefixes, WalkAfter(e, items).excludedPrefixes;
      var here := Local(e.c.root, items[n].rel);
      assert b == if ExcludedDir(e.c, items[n]) then a + [here] else a;
      if ExcludedDir(e.c, items[n]) {
        assert forall r :: r in b <==> r in a || r == here;
      }
    }
  }

  /** The two tests of the missing sweep spare exactly the paths the walk protects. */
  lemma SparedIsProtected(e: Env, items: seq<Item>, p: string)
    ensures var w := WalkAfter(e, items);
      p in w.seenPaths || WithinSome(p, w.excludedPrefixes) <==> ProtectedByWalk(items, e.c.filter, e.c.root, p)
  {
    SeenMeans(e, items, p);
    ExcludedMeans(e, items, p);
    if i :| i in items && ExcludedDir(e.c, i) && Within(p, Local(e.c.root, i.rel)) {
      assert ExcludedIn(i, items, e.c.filter);
    }
  }

  lemma {:induction false} SightedBy(e: Env, items: seq<Item>, i: Item)
    requires i in items && Sighted(e.c, i)
    ensures SightingOf(e, i) in WalkAfter(e, items).sights
  {
    var n := |items| - 1;
    assert items == items[..n] + [items[n]];
    if i in items[..n] {
      SightedBy(e, items[..n], i);
    }
  }

  ghost predicate DistinctPlaces(sights: seq<Sighting>) {
    forall a, b | 0 <= a < b < |sights| :: sights[a].rel != sights[b].rel
  }

  lemma {:induction false} SightsAreDistinct(e: Env, items: seq<Item>)
    requires DistinctRels(items)
    ensures DistinctPlaces(WalkAfter(e, items).sights)
  {
    if items != [] {
      var n := |items| - 1;
      SightsAreDistinct(e, items[..n]);
      forall s | s in WalkAfter(e, items[..n]).sights ensures s.rel != items[n].rel {
        var i := SightedFrom(e, items[..n], s);
        var k :| 0 <= k < n && items[k] == i;
      }
    }
  }

  // ---- the part about files

  lemma {:induction false} Accounted(e: Env, sights: seq<Sighting>)
    ensures var f := FilesAfter(e, sights); f.stableSkipped + f.filesUnchanged + |f.candidates| == |sights|
  {
    if sights != [] {
      Accounted(e, sights[..|sights| - 1]);
    }
  }

  function UnstableSights(e: Env, sights: seq<Sighting>): set<Sighting> {
    set s | s in sights && Judge(e.c, e.known, e.legacy, s) == Unstable
  }

  lemma UnstableSnoc(e: Env, sights: seq<Sighting>, s: Sighting)
    ensures UnstableSights(e, sights + [s]) ==
      UnstableSights(e, sights) + if Judge(e.c, e.known, e.legacy, s) == Unstable then {s} else {}
  {
    assert forall t :: t in sights + [s] <==> t in sights || t == s;
  }

  lemma SkippedSnoc(e: Env, sights: seq<Sighting>)
    requires sights != []
    ensures var n := |sights| - 1;
      FilesAfter(e, sights).stableSkipped ==
        FilesAfter(e, sights[..n]).stableSkipped + if Judge(e.c, e.known, e.legacy, sights[n]) == Unstable then 1 else 0
  {}

  /** The files skipped as unstable are those the scan judges unstable. */
  lemma {:induction false} SkippedMeans(e: Env, sights: seq<Sighting>)
    requires DistinctPlaces(sights)
    ensures FilesAfter(e, sights).stableSkipped == |UnstableSights(e, sights)|
  {
    if sights != [] {
      var n := |sights| - 1;
      SkippedMeans(e, sights[..n]);
      SkippedSnoc(e, sights);
      LastIsNew(e.c, sights);
      assert sights == sights[..n] + [sights[n]];
      UnstableSnoc(e, sights[..n], sights[n]);
    }
  }

  /** The stored snapshots are keyed by their local path and carry distinct identifiers. */
  ghost predicate KnownOk(known: Known) {
    && (forall p | p in known :: known[p].localPath == p && known[p].id > 0)
    && (forall p, q | p in known && q in known && known[p].id == known[q].id :: p == q)
  }

  function SightAt(c: Settings, sights: seq<Sighting>, path: string): Option<Sighting> {
    if sights == [] then None
    else
      var n := |sights| - 1;
      if Place(c, sights[n]) == path then Some(sights[n]) else SightAt(c, sights[..n], path)
  }

  lemma LastIsNew(c: Settings, sights: seq<Sighting>)
    requires sights != [] && DistinctPlaces(sights)
    ensures var n := |sights| - 1;
      DistinctPlaces(sights[..n]) && forall s | s in sights[..n] :: Place(c, s) != Place(c, sights[n])
  {
    var n := |sights| - 1;
    forall k | 0 <= k < n ensures Place(c, sights[k]) != Place(c, sights[n]) {
      if Place(c, sights[k]) == Place(c, sights[n]) {
        PlaceIsInjective(c, sights[k].rel, sights[n].rel);
      }
    }
  }

  lemma {:induction false} SightAtFinds(c: Settings, sights: seq<Sighting>, s: Sighting)
    requires DistinctPlaces(sights) && s in sights
    ensures SightAt(c, sights, Place(c, s)) == Some(s)
  {
    var n := |sights| - 1;
    LastIsNew(c, sights);
    if s != sights[n] {
      assert s in sights[..n];
      SightAtFinds(c, sights[..n], s);
    }
  }

  lemma {:induction false} SightAtIsSeen(c: Settings, sights: seq<Sighting>, path: string)
    ensures var s := SightAt(c, sights, path); s.Some? ==> s.value in sights && Place(c, s.value) == path
    ensures SightAt(c, sights, path).None? ==> forall s | s in sights :: Place(c, s) != path
  {
    if sights != [] {
      var n := |sights| - 1;
      assert sights == sights[..n] + [sights[n]];
      if Place(c, sights[n]) != path {
        SightAtIsSeen(c, sights[..n], path);
      }
    }
  }

  lemma ObservedId(e: Env, s: Sighting)
    requires KnownOk(e.known)
    ensures var fr := Observed(e.c, e.known, s);
      && fr.localPath == Place(e.c, s)
      && fr.id == if Place(e.c, s) in e.known then e.known[Place(e.c, s)].id else 0
  {}

  /** The queued write for the file at a stored path. */
  function WriteFor(e: Env, sights: seq<Sighting>, path: string): Option<FileRecord> {
    var s := SightAt(e.c, sights, path);
    if s.Some? && IsRewritten(e, s.value) then Some(Observed(e.c, e.known, s.value)) else None
  }

  lemma {:induction false} ChangedFrom(e: Env, sights: seq<Sighting>, r: FileRecord) returns (s: Sighting)
    requires r in FilesAfter(e, sights).changed
    ensures s in sights && IsRewritten(e, s) && r == Observed(e.c, e.known, s)
  {
    var n := |sights| - 1;
    if r in FilesAfter(e, sights[..n]).changed {
      s := ChangedFrom(e, sights[..n], r);
    } else {
      s := sights[n];
    }
  }

  lemma NewIdIsUnused(e: Env, sights: seq<Sighting>)
    requires KnownOk(e.known) && DistinctPlaces(sights) && sights != [] && IsRewritten(e, sights[|sights| - 1])
    ensures var n := |sights| - 1;
      forall r | r in FilesAfter(e, sights[..n]).changed :: r.id != Observed(e.c, e.known, sights[n]).id
  {
    var n := |sights| - 1;
    LastIsNew(e.c, sights);
    ObservedId(e, sights[n]);
    forall r | r in FilesAfter(e, sights[..n]).changed ensures r.id != Observed(e.c, e.known, sights[n]).id {
      var t := ChangedFrom(e, sights[..n], r);
      ObservedId(e, t);
    }
  }

  /** Each stored row is addressed by at most one queued write, the one its own sighting asks for. */
  lemma {:induction false} ChangedMeans(e: Env, sights: seq<Sighting>, path: string)
    requires KnownOk(e.known) && DistinctPlaces(sights) && path in e.known
    ensures var changed := FilesAfter(e, sights).changed;
      Distinct(changed) && Find(changed, e.known[path].id) == WriteFor(e, sights, path)
  {
    if sights != [] {
      var n := |sights| - 1;
      var init, s := sights[..n], sights[n];
      LastIsNew(e.c, sights);
      ChangedMeans(e, init, path);
      if IsRewritten(e, s) {
        var fr := Observed(e.c, e.known, s);
        var before := FilesAfter(e, init).changed;
        ObservedId(e, s);
        NewIdIsUnused(e, sights);
        assert Distinct(before + [fr]);
        FindConcat(before, [fr], e.known[path].id);
        if Place(e.c, s) == path {
          assert Find([fr], fr.id) == Some(fr);
        } else {
          assert Find([fr], e.known[path].id).None?;
        }
      } else if Place(e.c, s) == path {
        SightAtIsSeen(e.c, init, path);
      }
    }
  }

  lemma {:induction false} ClearedMeans(e: Env, sights: seq<Sighting>, id: nat)
    requires KnownOk(e.known)
    ensures id in FilesAfter(e, sights).clearIds <==> exists s | s in sights ::
      IsCleared(e, s) && e.known[Place(e.c, s)].id == id
  {
    if sights != [] {
      var n := |sights| - 1;
      ClearedMeans(e, sights[..n], id);
      assert sights == sights[..n] + [sights[n]];
      ObservedId(e, sights[n]);
    }
  }

  lemma {:induction false} AddedFrom(e: Env, sights: seq<Sighting>, r: FileRecord) returns (s: Sighting)
    requires r in FilesAfter(e, sights).added
    ensures s in sights && Place(e.c, s) !in e.known && r == Observed(e.c, e.known, s)
  {
    var n := |sights| - 1;
    if r in FilesAfter(e, sights[..n]).added {
      s := AddedFrom(e, sights[..n], r);
    } else {
      s := sights[n];
    }
  }

  lemma {:induction false} AddedHas(e: Env, sights: seq<Sighting>, s: Sighting)
    requires s in sights && Place(e.c, s) !in e.known
    ensures Observed(e.c, e.known, s) in FilesAfter(e, sights).added
  {
    var n := |sights| - 1;
    if s in sights[..n] {
      AddedHas(e, sights[..n], s);
    }
  }

  lemma {:induction false} CandidateFrom(e: Env, sights: seq<Sighting>, d: Candidate) returns (s: Sighting)
    requires d in FilesAfter(e, sights).candidates
    ensures s in sights && Judge(e.c, e.known, e.legacy, s) == Due
    ensures d == CandidateFor(e.c, s, Observed(e.c, e.known, s).id)
  {
    var n := |sights| - 1;
    if d in FilesAfter(e, sights[..n]).candidates {
      s := CandidateFrom(e, sights[..n], d);
    } else {
      s := sights[n];
    }
  }

  ghost predicate HasCandidate(candidates: seq<Candidate>, key: string) {
    exists d | d in candidates :: d.task.key == key
  }

  /** A due file's key belongs to an open task or to a candidate. */
  lemma {:induction false} ActiveMeans(e: Env, sights: seq<Sighting>, key: string)
    ensures var f := FilesAfter(e, sights); key in f.activeKeys <==> key in e.open || HasCandidate(f.candidates, key)
  {
    if sights != [] {
      var n := |sights| - 1;
      var f, g := FilesAfter(e, sights[..n]), FilesAfter(e, sights);
      ActiveMeans(e, sights[..n], key);
      var last := CandidateFor(e.c, sights[n], Observed(e.c, e.known, sights[n]).id);
      assert forall d :: d in g.candidates <==> (d in f.candidates || (IsNew(e, f, sights[n]) && d == last));
    }
  }

  lemma ActiveGrows(e: Env, sights: seq<Sighting>)
    requires sights != []
    ensures var n := |sights| - 1;
      && FilesAfter(e, sights[..n]).activeKeys <= FilesAfter(e, sights).activeKeys
      && (Judge(e.c, e.known, e.legacy, sights[n]) == Due ==> Key(e.c, sights[n]) in FilesAfter(e, sights).activeKeys)
  {}

  lemma {:induction false} DueIsActive(e: Env, sights: seq<Sighting>, s: Sighting)
    requires s in sights && Judge(e.c, e.known, e.legacy, s) == Due
    ensures Key(e.c, s) in FilesAfter(e, sights).activeKeys
  {
    var n := |sights| - 1;
    ActiveGrows(e, sights);
    if s in sights[..n] {
      DueIsActive(e, sights[..n], s);
    }
  }

  /** In memory every sighted path maps to its refreshed snapshot. */
  lemma {:induction false} RecordSeen(e: Env, sights: seq<Sighting>, s: Sighting)
    requires s in sights && DistinctPlaces(sights)
    ensures Lookup(FilesAfter(e, sights).recordByPath, Place(e.c, s)) == Some(Observed(e.c, e.known, s))
  {
    var n := |sights| - 1;
    LastIsNew(e.c, sights);
    if s != sights[n] {
      assert s in sights[..n];
      RecordSeen(e, sights[..n], s);
    }
  }

  // ---- what the batched update makes of a stored row

  ghost predicate Loaded(e: Env, rows: Rows) {
    && KnownOk(e.known)
    && (forall p | p in e.known :: e.known[p].id in rows && rows[e.known[p].id] == e.known[p])
  }

  predicate IsKnown(e: Env, row: FileRecord) {
    row.localPath in e.known && e.known[row.localPath].id == row.id
  }

  /** The row after the scan, apart from `missing_at`: refreshed if its path was sighted, untouched otherwise. */
  function Rescanned(e: Env, sights: seq<Sighting>, row: FileRecord): FileRecord {
    var s := SightAt(e.c, sights, row.localPath);
    if IsKnown(e, row) && s.Some? then Observed(e.c, e.known, s.value) else row
  }

  lemma ClearedExactly(e: Env, sights: seq<Sighting>, path: string)
    requires KnownOk(e.known) && DistinctPlaces(sights) && path in e.known
    ensures var s := SightAt(e.c, sights, path);
      e.known[path].id in FilesAfter(e, sights).clearIds <==> s.Some? && IsCleared(e, s.value)
  {
    ClearedMeans(e, sights, e.known[path].id);
    SightAtIsSeen(e.c, sights, path);
    if s :| s in sights && IsCleared(e, s) && e.known[Place(e.c, s)].id == e.known[path].id {
      SightAtFinds(e.c, sights, s);
    }
  }

  /**
   * A record carrying the stored one's own identifier, path and missing mark, written with its clear flag, is that
   * record.
   */
  lemma WrittenBack(e: Env, s: Sighting, row: FileRecord)
    requires Lookup(e.known, Place(e.c, s)) == Some(row) && row.localPath == Place(e.c, s)
    ensures var fr := Observed(e.c, e.known, s);
      && fr.missingAt == row.missingAt
      && (IsRewritten(e, s) ==>
        UpdatedRow(row, fr, IsCleared(e, s), 0).(missingAt := fr.missingAt) == fr.(updatedAt := 0))
      && (!IsRewritten(e, s) ==> fr == row)
  {}

  lemma UpdatedSnapshot(e: Env, sights: seq<Sighting>, rows: Rows, size: nat, clock: nat -> int, id: nat)
    requires size > 0 && Loaded(e, rows) && DistinctPlaces(sights) && id in rows && rows[id].id == id
    ensures var f := FilesAfter(e, sights);
      var after := RunBatches(rows, Chunks(f.changed, size), f.clearIds, clock);
      && Distinct(f.changed) && id in after && after[id].id == id
      && after[id].(updatedAt := 0) == Rescanned(e, sights, rows[id]).(updatedAt := 0)
      && after[id].missingAt == rows[id].missingAt
  {
    var f := FilesAfter(e, sights);
    ChangedAreDistinct(e, sights);
    ChunksFlatten(f.changed, size);
    CommittedRow(rows, Chunks(f.changed, size), f.clearIds, clock, id);
    var after := RunBatches(rows, Chunks(f.changed, size), f.clearIds, clock);
    var row := rows[id];
    if IsKnown(e, row) {
      var path := row.localPath;
      ChangedMeans(e, sights, path);
      ClearedExactly(e, sights, path);
      SightAtIsSeen(e.c, sights, path);
      if SightAt(e.c, sights, path).Some? {
        WrittenBack(e, SightAt(e.c, sights, path).value, row);
      }
    } else if Find(f.changed, id).Some? {
      var s := ChangedFrom(e, sights, Find(f.changed, id).value);
      ObservedId(e, s);
      assert false;
    }
    assert after[id].missingAt == after[id].(updatedAt := 0).missingAt;
    assert Rescanned(e, sights, row).missingAt == row.missingAt;
  }

  lemma ChangedAreDistinct(e: Env, sights: seq<Sighting>)
    requires KnownOk(e.known) && DistinctPlaces(sights)
    ensures Distinct(FilesAfter(e, sights).changed)
  {
    var changed := FilesAfter(e, sights).changed;
    if changed != [] {
      var s := ChangedFrom(e, sights, changed[0]);
      ChangedMeans(e, sights, Place(e.c, s));
    }
  }
}
