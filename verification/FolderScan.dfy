/**
 * One scan of a watched folder, up to the database writes: what each visited file contributes to the statistics,
 * the snapshot batches and the task candidates.  `clock` is the time at which the walk reaches each path.
 */
module FolderScan {
  import opened Wrappers
  import opened PathText
  import opened FolderWalk
  import opened FileRecords
  import TaskTable
  import IdempotencyKey

  /** What the folder's path pipeline says about a file name. */
  datatype Upload = NoMatch | Directory(path: string) | PipelineError

  /** `root` is the scan root without a trailing slash. */
  datatype Settings = Settings(
    folder: nat, root: string, remoteName: string, remotePath: string, filter: Filter, pipeline: string -> Upload,
      stablePeriod: int)

  type Known = map<string, FileRecord>

  /** One admitted file with a usable remote path, as seen at time `now`. */
  datatype Sighting = Sighting(rel: string, info: Info, target: string, now: int)

  datatype Candidate = Candidate(localPath: string, task: TaskTable.NewTask)

  // ---- remote paths

  function TrimSuffix(s: string): string {
    if s != "" && s[|s| - 1] == '/' then s[..|s| - 1] else s
  }

  function TrimPrefix(s: string): string {
    if s != "" && s[0] == '/' then s[1..] else s
  }

  function JoinRemote(prefix: string, relative: string): string {
    if TrimSuffix(prefix) == "" then TrimPrefix(relative) else TrimSuffix(prefix) + "/" + TrimPrefix(relative)
  }

  /** Where a file goes, or nothing when the pipeline fails or the path is too long. */
  function Target(c: Settings, rel: string, name: string): Option<string> {
    var upload := c.pipeline(name);
    if upload.PipelineError? then None
    else
      var target :=
        JoinRemote(TrimSuffix(c.remotePath), if upload.Directory? then JoinRemote(upload.path, rel) else rel);
      if |target| > 768 then None else Some(target)
  }

  // ---- snapshots

  function Place(c: Settings, s: Sighting): string {
    Local(c.root, s.rel)
  }

  function Lookup(known: Known, path: string): Option<FileRecord> {
    if path in known then Some(known[path]) else None
  }

  predicate TargetChanged(c: Settings, fr: FileRecord, s: Sighting) {
    fr.watchFolderId != c.folder || fr.remoteName != c.remoteName || fr.remotePath != s.target
  }

  predicate NeedsWrite(c: Settings, fr: FileRecord, s: Sighting) {
    fr.fingerprint != s.info.fingerprint || TargetChanged(c, fr, s) || fr.relativePath != s.rel || fr.missingAt.Some?
  }

  /** A known version or target is being replaced; a record without a fingerprint keeps its mark. */
  predicate ClearsMark(c: Settings, fr: FileRecord, s: Sighting) {
    fr.fingerprint != "" && (fr.fingerprint != s.info.fingerprint || TargetChanged(c, fr, s))
  }

  function Written(c: Settings, fr: FileRecord, s: Sighting): FileRecord {
    fr.(watchFolderId := c.folder, relativePath := s.rel, remoteName := c.remoteName, remotePath := s.target,
        fileSize := s.info.size, modTime := s.info.modTime, fingerprint := s.info.fingerprint,
          lastSeenAt := Some(s.now))
  }

  function Blank(path: string): FileRecord {
    FileRecord(0, 0, path, "", "", "", 0, 0, "", None, None, None, 0)
  }

  /** The snapshot after the visit. */
  function Observed(c: Settings, known: Known, s: Sighting): FileRecord {
    var path := Place(c, s);
    if path !in known then Written(c, Blank(path), s)
    else if NeedsWrite(c, known[path], s) then
      Written(c, known[path].(uploadedAt := if ClearsMark(c, known[path], s) then None else known[path].uploadedAt), s)
    else known[path]
  }

  /** `fileVersionStable`: a modification time in the future falls back to the first observation. */
  predicate Stable(now: int, modTime: int, observedAt: Option<int>, period: int) {
    period <= 0
    || (if modTime > now then observedAt.Some? && now - observedAt.value >= period else now - modTime >= period)
  }

  datatype Verdict = Unstable | Uploaded | Legacy | Due

  /** What the scan decides about a file. */
  function Judge(c: Settings, known: Known, legacy: set<string>, s: Sighting): Verdict {
    var fr := Observed(c, known, s);
    if !Stable(s.now, s.info.modTime, fr.lastSeenAt, c.stablePeriod) then Unstable
    else if fr.uploadedAt.Some? then Uploaded
    else if Place(c, s) in legacy then Legacy
    else Due
  }

  /** The task key of a file version and target; the hash is injective, so the payload stands for it. */
  function Key(c: Settings, s: Sighting): string {
    IdempotencyKey.Payload(c.folder, Place(c, s), s.info.fingerprint, c.remoteName, s.target)
  }

  function CandidateFor(c: Settings, s: Sighting, fileId: nat): Candidate {
    Candidate(Place(c, s),
      TaskTable.NewTask(fileId, c.folder, s.info.fingerprint, c.remoteName, s.target, Key(c, s), 0))
  }

  // ---- what a walk adds up to

  /** What is fixed while a scan runs: the stored snapshots, the keys and legacy paths of open tasks, and the clock. */
  datatype Env = Env(c: Settings, known: Known, legacy: set<string>, open: set<string>, clock: string -> int)

  /** Anything that makes the scan report an error. */
  predicate Troubled(c: Settings, i: Item) {
    match i.entry
    case Dir(_, readable, _) => !readable && !Excluded(i.rel, c.filter)
    case Special(_) => false
    case File(name, info) => !Filtered(c, i) && (info.None? || Target(c, i.rel, name).None?)
  }

  predicate Filtered(c: Settings, i: Item) {
    i.rel != "" && Matches(i.rel, c.filter.keywords)
  }

  predicate ExcludedDir(c: Settings, i: Item) {
    i.entry.Dir? && Excluded(i.rel, c.filter)
  }

  predicate Sighted(c: Settings, i: Item) {
    Admitted(i, c.filter) && Target(c, i.rel, i.entry.name).Some?
  }

  function SightingOf(e: Env, i: Item): Sighting
    requires Sighted(e.c, i)
  {
    Sighting(i.rel, i.entry.info.value, Target(e.c, i.rel, i.entry.name).value, e.clock(i.rel))
  }

  datatype WalkState = WalkState(
    filesSeen: nat, scanErrors: nat, seenPaths: set<string>, excludedPrefixes: seq<string>, sights: seq<Sighting>)

  datatype FileState = FileState(
    stableSkipped: nat, filesUnchanged: nat, recordByPath: Known, added: seq<FileRecord>, changed: seq<FileRecord>,
    clearIds: set<nat>, candidates: seq<Candidate>, activeKeys: set<string>)

  function NextWalk(e: Env, w: WalkState, i: Item): WalkState {
    WalkState(
      if Admitted(i, e.c.filter) then w.filesSeen + 1 else w.filesSeen,
      if Troubled(e.c, i) then w.scanErrors + 1 else w.scanErrors,
      if RecordsPath(i, e.c.filter) then w.seenPaths + {Local(e.c.root, i.rel)} else w.seenPaths,
      if ExcludedDir(e.c, i) then w.excludedPrefixes + [Local(e.c.root, i.rel)] else w.excludedPrefixes,
      if Sighted(e.c, i) then w.sights + [SightingOf(e, i)] else w.sights)
  }

  function WalkAfter(e: Env, items: seq<Item>): WalkState {
    if items == [] then WalkState(0, 0, {}, [], [])
    else NextWalk(e, WalkAfter(e, items[..|items| - 1]), items[|items| - 1])
  }

  /** A due file becomes a candidate unless an open task or an earlier candidate has its key. */
  predicate IsNew(e: Env, f: FileState, s: Sighting) {
    Judge(e.c, e.known, e.legacy, s) == Due && Key(e.c, s) !in f.activeKeys
  }

  predicate IsRewritten(e: Env, s: Sighting) {
    Place(e.c, s) in e.known && NeedsWrite(e.c, e.known[Place(e.c, s)], s)
  }

  predicate IsCleared(e: Env, s: Sighting) {
    Place(e.c, s) in e.known && ClearsMark(e.c, e.known[Place(e.c, s)], s)
  }

  function NextFile(e: Env, f: FileState, s: Sighting): FileState {
    var fr, v := Observed(e.c, e.known, s), Judge(e.c, e.known, e.legacy, s);
    FileState(
      if v == Unstable then f.stableSkipped + 1 else f.stableSkipped,
      if v == Unstable || IsNew(e, f, s) then f.filesUnchanged else f.filesUnchanged + 1,
      f.recordByPath[Place(e.c, s) := fr],
      if Place(e.c, s) !in e.known then f.added + [fr] else f.added,
      if IsRewritten(e, s) then f.changed + [fr] else f.changed,
      if IsCleared(e, s) then f.clearIds + {fr.id} else f.clearIds,
      if IsNew(e, f, s) then f.candidates + [CandidateFor(e.c, s, fr.id)] else f.candidates,
      if IsNew(e, f, s) then f.activeKeys + {Key(e.c, s)} else f.activeKeys)
  }

  function FilesAfter(e: Env, sights: seq<Sighting>): FileState {
    if sights == [] then FileState(0, 0, e.known, [], [], {}, [], e.open)
    else NextFile(e, FilesAfter(e, sights[..|sights| - 1]), sights[|sights| - 1])
  }

  /** The same step, from the answers to the three questions about the path. */
  function Decided(e: Env, w: WalkState, i: Item, filtered: bool, deep: bool, target: Option<string>): WalkState {
    var path := Local(e.c.root, i.rel);
    match i.entry
    case Special(_) => if filtered then w.(seenPaths := w.seenPaths + {path}) else w
    case Dir(_, readable, _) =>
      if filtered || deep then w.(excludedPrefixes := w.excludedPrefixes + [path])
      else if !readable then w.(scanErrors := w.scanErrors + 1)
      else w
    case File(_, info) =>
      if filtered then w.(seenPaths := w.seenPaths + {path})
      else if info.None? then w.(scanErrors := w.scanErrors + 1)
      else
        var seen := w.(filesSeen := w.filesSeen + 1, seenPaths := w.seenPaths + {path});
        if target.None? then seen.(scanErrors := w.scanErrors + 1)
        else seen.(sights := w.sights + [Sighting(i.rel, info.value, target.value, e.clock(i.rel))])
  }

  lemma DecidedIsNext(e: Env, w: WalkState, i: Item)
    ensures var deep, target := i.rel != "" && TooDeep(i.rel, e.c.filter), Target(e.c, i.rel, i.entry.name);
      Decided(e, w, i, Filtered(e.c, i), deep, target) == NextWalk(e, w, i)
  {}

  // ---- the scan itself

  class Scan {
    const env: Env

    var filesSeen: nat
    var stableSkipped: nat
    var filesUnchanged: nat
    var scanErrors: nat
    var seenPaths: set<string>
    var excludedPrefixes: seq<string>
    var recordByPath: Known
    var added: seq<FileRecord>
    var changed: seq<FileRecord>
    var clearIds: set<nat>
    var candidates: seq<Candidate>
    var activeKeys: set<string>

    ghost var visited: seq<Item>
    ghost var sights: seq<Sighting>

    ghost function Walked(): WalkState
      reads this
    {
      WalkState(filesSeen, scanErrors, seenPaths, excludedPrefixes, sights)
    }

    ghost function Files(): FileState
      reads this
    {
      FileState(stableSkipped, filesUnchanged, recordByPath, added, changed, clearIds, candidates, activeKeys)
    }

    ghost predicate Valid()
      reads this
    {
      Walked() == WalkAfter(env, visited) && Files() == FilesAfter(env, sights)
    }

    constructor (env: Env)
      ensures Valid() && visited == [] && this.env == env
    {
      this.env := env;
      filesSeen, stableSkipped, filesUnchanged, scanErrors := 0, 0, 0, 0;
      seenPaths, excludedPrefixes, recordByPath, added, changed, clearIds := {}, [], env.known, [], [], {};
      candidates, activeKeys := [], env.open;
      visited, sights := [], [];
    }

    /** The walk: the callback decides which directories are entered. */
    method WalkDir(e: Entry, rel: string)
      requires Valid() && NamesOk(e) && DistinctRels(visited + Walk(e, rel, env.c.filter))
      modifies this
      ensures Valid() && visited == old(visited) + Walk(e, rel, env.c.filter)
      decreases e
    {
      var item := Item(rel, e);
      FirstVisit(env, visited, e, rel);
      var skip := Visit(item);
      if e.Dir? && !skip {
        WalkChildren(e.children, 0, rel);
      }
    }

    /** The children of an entered directory, in order. */
    method WalkChildren(es: seq<Entry>, from: nat, rel: string)
      requires Valid() && from <= |es|
      requires forall c | c in es :: Normal(c.name) && NamesOk(c)
      requires DistinctRels(visited + WalkOf(es[from..], rel, env.c.filter))
      modifies this
      ensures Valid() && visited == old(visited) + WalkOf(es[from..], rel, env.c.filter)
      decreases es, |es| - from
    {
      if from < |es| {
        var child := es[from];
        NextChild(env, visited, es, from, rel);
        WalkDir(child, Rel(rel, child.name));
        WalkChildren(es, from + 1, rel);
      }
    }

    /**
     * The callback on one entry: filters, depth, special files, unreadable entries and ordinary files.  An unreadable
     * directory is reported by a second call, merged with the first here.
     */
    method Visit(i: Item) returns (skip: bool)
      requires Valid() && Lookup(recordByPath, Local(env.c.root, i.rel)) == Lookup(env.known, Local(env.c.root, i.rel))
      modifies this
      ensures Valid() && visited == old(visited) + [i]
      ensures i.entry.Dir? ==> (skip <==> !i.entry.readable || Excluded(i.rel, env.c.filter))
    {
      var filtered := i.rel != "" && Matches(i.rel, env.c.filter.keywords);
      var deep := i.rel != "" && env.c.filter.maxDepth > 0 && Depth(i.rel) > env.c.filter.maxDepth;
      DecidedIsNext(env, Walked(), i);
      assert (visited + [i])[..|visited|] == visited;
      skip := Decide(i, Local(env.c.root, i.rel), filtered, deep, Target(env.c, i.rel, i.entry.name));
      visited := visited + [i];
    }

    /** The callback's branches, given what the path's keywords, depth and remote path amount to. */
    method Decide(i: Item, path: string, filtered: bool, deep: bool, target: Option<string>) returns (skip: bool)
      requires path == Local(env.c.root, i.rel)
      requires Files() == FilesAfter(env, sights) && Lookup(recordByPath, path) == Lookup(env.known, path)
      modifies this`filesSeen, this`scanErrors, this`seenPaths, this`excludedPrefixes, this`sights
      modifies this`stableSkipped, this`filesUnchanged, this`recordByPath, this`added, this`changed, this`clearIds
      modifies this`candidates, this`activeKeys
      ensures Walked() == Decided(env, old(Walked()), i, filtered, deep, target) && Files() == FilesAfter(env, sights)
      ensures i.entry.Dir? ==> (skip <==> !i.entry.readable || filtered || deep)
    {
      skip := false;
      if filtered {
        if i.entry.Dir? {
          excludedPrefixes := excludedPrefixes + [path];
          skip := true;
        } else {
          seenPaths := seenPaths + {path};
        }
      } else if i.entry.Dir? {
        if deep {
          excludedPrefixes := excludedPrefixes + [path];
          skip := true;
        } else if !i.entry.readable {
          scanErrors := scanErrors + 1;
          skip := true;
        }
      } else if i.entry.File? {
        if i.entry.info.None? {
          scanErrors := scanErrors + 1;
        } else {
          RegularFile(i.rel, i.entry.info.value, path, target);
        }
      }
    }

    /** Count a regular file, record its path, and go on if it has a usable remote path. */
    method RegularFile(rel: string, info: Info, path: string, target: Option<string>)
      requires path == Local(env.c.root, rel)
      requires Files() == FilesAfter(env, sights) && Lookup(recordByPath, path) == Lookup(env.known, path)
      modifies this`filesSeen, this`scanErrors, this`seenPaths, this`sights
      modifies this`stableSkipped, this`filesUnchanged, this`recordByPath, this`added, this`changed, this`clearIds
      modifies this`candidates, this`activeKeys
      ensures filesSeen == old(filesSeen) + 1 && seenPaths == old(seenPaths) + {path}
      ensures scanErrors == if target.None? then old(scanErrors) + 1 else old(scanErrors)
      ensures sights == if target.None? then old(sights)
        else old(sights) + [Sighting(rel, info, target.value, env.clock(rel))]
      ensures Files() == FilesAfter(env, sights)
    {
      filesSeen := filesSeen + 1;
      seenPaths := seenPaths + {path};
      if target.None? {
        scanErrors := scanErrors + 1;
      } else {
        VisitFile(Sighting(rel, info, target.value, env.clock(rel)), path);
      }
    }

    /** A file with a usable remote path. */
    method VisitFile(s: Sighting, path: string)
      requires path == Place(env.c, s)
      requires Files() == FilesAfter(env, sights) && Lookup(recordByPath, path) == Lookup(env.known, path)
      modifies this`stableSkipped, this`filesUnchanged, this`recordByPath, this`added, this`changed, this`clearIds
      modifies this`candidates, this`activeKeys, this`sights
      ensures sights == old(sights) + [s] && Files() == FilesAfter(env, sights)
    {
      var fr := NoteSnapshot(s, path);
      NoteTask(s, fr);
      sights := sights + [s];
      assert sights[..|sights| - 1] == old(sights);
      assert Files() == NextFile(env, old(Files()), s);
    }

    /** Bring the snapshot up to date in memory and queue the write. */
    method NoteSnapshot(s: Sighting, path: string) returns (fr: FileRecord)
      requires path == Place(env.c, s) && Lookup(recordByPath, path) == Lookup(env.known, path)
      modifies this`recordByPath, this`added, this`changed, this`clearIds
      ensures fr == Observed(env.c, env.known, s)
      ensures recordByPath == old(recordByPath)[path := fr]
      ensures added == if path !in env.known then old(added) + [fr] else old(added)
      ensures changed == if IsRewritten(env, s) then old(changed) + [fr] else old(changed)
      ensures clearIds == if IsCleared(env, s) then old(clearIds) + {fr.id} else old(clearIds)
    {
      var write, clear;
      fr, write, clear := Compare(env.c, Lookup(recordByPath, path), s);
      if write {
        if path !in recordByPath {
          added := added + [fr];
        } else {
          changed := changed + [fr];
          if clear {
            clearIds := clearIds + {fr.id};
          }
        }
        recordByPath := recordByPath[path := fr];
      }
    }

    /** Skip the file, or make it a task candidate. */
    method NoteTask(s: Sighting, fr: FileRecord)
      requires fr == Observed(env.c, env.known, s)
      modifies this`stableSkipped, this`filesUnchanged, this`candidates, this`activeKeys
      ensures var after := NextFile(env, old(Files()), s);
        && stableSkipped == after.stableSkipped && filesUnchanged == after.filesUnchanged
        && candidates == after.candidates && activeKeys == after.activeKeys
    {
      if !Stable(s.now, s.info.modTime, fr.lastSeenAt, env.c.stablePeriod) {
        stableSkipped := stableSkipped + 1;
        return;
      }
      if fr.uploadedAt.Some? {
        filesUnchanged := filesUnchanged + 1;
        return;
      }
      var key := Key(env.c, s);
      if key in activeKeys || Place(env.c, s) in env.legacy {
        filesUnchanged := filesUnchanged + 1;
        return;
      }
      candidates := candidates + [CandidateFor(env.c, s, fr.id)];
      activeKeys := activeKeys + {key};
    }
  }

  /** What changed since the last snapshot, and what that means for the record and its upload mark. */
  method Compare(
      c: Settings, stored: Option<FileRecord>, s: Sighting)
    returns (fr: FileRecord, write: bool, clear: bool)
    ensures write <==> stored.None? || NeedsWrite(c, stored.value, s)
    ensures clear <==> stored.Some? && ClearsMark(c, stored.value, s)
    ensures fr == Observed(c, if stored.Some? then map[Place(c, s) := stored.value] else map[], s)
  {
    var previous, versionChanged, targetChanged := "", false, false;
    fr := Blank(Place(c, s));
    if stored.Some? {
      fr := stored.value;
      previous := fr.fingerprint;
      versionChanged := previous != "" && previous != s.info.fingerprint;
      targetChanged := fr.watchFolderId != c.folder || fr.remoteName != c.remoteName || fr.remotePath != s.target;
    }
    var legacySnapshot := stored.Some? && previous == "";
    write := stored.None? || previous != s.info.fingerprint || targetChanged || fr.relativePath != s.rel
      || fr.missingAt.Some?;
    clear := write && !legacySnapshot && (versionChanged || targetChanged);
    if write {
      fr := Written(c, fr, s);
      if clear {
        fr := fr.(uploadedAt := None);
      }
    }
  }

  lemma DistinctPrefix(a: seq<Item>, b: seq<Item>)
    requires DistinctRels(a + b)
    ensures DistinctRels(a)
  {
    forall i, j | 0 <= i < j < |a| ensures a[i].rel != a[j].rel {
      assert (a + b)[i] == a[i] && (a + b)[j] == a[j];
    }
  }

  // ---- the walk never meets a path twice

  /** Every sighting comes from an item it describes. */
  lemma {:induction false} SightedFrom(e: Env, items: seq<Item>, s: Sighting) returns (i: Item)
    requires s in WalkAfter(e, items).sights
    ensures i in items && Sighted(e.c, i) && s == SightingOf(e, i)
  {
    var n := |items| - 1;
    if s in WalkAfter(e, items[..n]).sights {
      i := SightedFrom(e, items[..n], s);
    } else {
      i := items[n];
    }
  }

  lemma {:induction false} RecordsUnseen(e: Env, sights: seq<Sighting>, path: string)
    requires forall s | s in sights :: Place(e.c, s) != path
    ensures Lookup(FilesAfter(e, sights).recordByPath, path) == Lookup(e.known, path)
  {
    if sights != [] {
      var n := |sights| - 1;
      assert forall s | s in sights[..n] :: s in sights;
      RecordsUnseen(e, sights[..n], path);
      assert sights[n] in sights;
    }
  }

  /** Distinct relative paths are distinct local paths. */
  lemma PlaceIsInjective(c: Settings, a: string, b: string)
    requires Local(c.root, a) == Local(c.root, b)
    ensures a == b
  {
    var n := |c.root| + 1;
    assert Local(c.root, a)[n..] == a && Local(c.root, b)[n..] == b;
  }

  lemma Unvisited(e: Env, items: seq<Item>, i: Item)
    requires DistinctRels(items + [i])
    ensures var path := Local(e.c.root, i.rel);
      Lookup(FilesAfter(e, WalkAfter(e, items).sights).recordByPath, path) == Lookup(e.known, path)
  {
    var sights := WalkAfter(e, items).sights;
    forall s | s in sights ensures Place(e.c, s) != Local(e.c.root, i.rel) {
      var j := SightedFrom(e, items, s);
      var k :| 0 <= k < |items| && items[k] == j;
      assert (items + [i])[k].rel != (items + [i])[|items|].rel;
      if Place(e.c, s) == Local(e.c.root, i.rel) {
        PlaceIsInjective(e.c, j.rel, i.rel);
      }
    }
    RecordsUnseen(e, sights, Local(e.c.root, i.rel));
  }

  lemma NextChild(e: Env, visited: seq<Item>, es: seq<Entry>, from: nat, rel: string)
    requires from < |es| && DistinctRels(visited + WalkOf(es[from..], rel, e.c.filter))
    ensures var below, rest := Walk(es[from], Rel(rel, es[from].name), e.c.filter),
      WalkOf(es[from + 1..], rel, e.c.filter);
      visited + WalkOf(es[from..], rel, e.c.filter) == (visited + below) + rest && DistinctRels(visited + below)
  {
    var below, rest := Walk(es[from], Rel(rel, es[from].name), e.c.filter), WalkOf(es[from + 1..], rel, e.c.filter);
    assert es[from..][0] == es[from] && es[from..][1..] == es[from + 1..];
    assert visited + WalkOf(es[from..], rel, e.c.filter) == (visited + below) + rest;
    DistinctPrefix(visited + below, rest);
  }

  /** Entering an entry: its own path is new, and so are those below. */
  lemma FirstVisit(e: Env, visited: seq<Item>, entry: Entry, rel: string)
    requires DistinctRels(visited + Walk(entry, rel, e.c.filter))
    ensures var all := Walk(entry, rel, e.c.filter);
      visited + all == (visited + [Item(rel, entry)]) + all[1..]
    ensures var path := Local(e.c.root, rel);
      Lookup(FilesAfter(e, WalkAfter(e, visited).sights).recordByPath, path) == Lookup(e.known, path)
  {
    var all := Walk(entry, rel, e.c.filter);
    assert visited + all == (visited + [Item(rel, entry)]) + all[1..];
    DistinctPrefix(visited + [Item(rel, entry)], all[1..]);
    Unvisited(e, visited, Item(rel, entry));
  }
}
