/**
 * The persisted index of a remote route: rows of `remote_file_records`, filled from a streamed listing in batches and
 * then cleared of what the listing did not mention.  Rows are addressed by route and path; the path hash is injective.
 */
module RemoteIndex {
  import opened Wrappers
  import opened PathText

  type Time = int

  datatype Object = Object(path: string, name: string, isDir: bool, size: int, modTime: Option<Time>, mimeType: string)

  datatype Slot = Slot(route: nat, path: string)

  datatype Row = Row(
    parentPath: string, name: string, isDir: bool, size: int, modTime: Option<Time>, mimeType: string,
    lastSeenAt: Option<Time>, missingAt: Option<Time>)

  type Index = map<Slot, Row>

  datatype Entry = Entry(path: string, row: Row)

  // ---- paths

  /** `cleanRemoteObjectPath`; an object that is the root itself cleans to "". */
  function CleanObject(value: string): Result<string, PathError> {
    var v := Trim(Slashes(value), c => c == '/');
    if v == "" then Ok("")
    else
      var cleaned := Clean(v);
      if Escapes(cleaned) then Err(Traversal) else if |cleaned| > 2048 then Err(TooLong) else Ok(cleaned)
  }

  lemma CleanedShape(value: string)
    ensures var r := CleanObject(value); r.Ok? && r.value != "" ==> r.value == "." || NormalPath(r.value)
  {
    var v := Trim(Slashes(value), c => c == '/');
    TrimKeeps(Slashes(value), c => c == '/');
    if v != "" {
      CleanIsNormal(v);
    }
  }

  /** A path in normal form is stored as it is listed, with or without slashes around it. */
  lemma NormalObjectIsKept(s: string)
    requires NormalPath(s) && |s| <= 2048 && '\\' !in s
    ensures CleanObject(s) == Ok(s) && CleanObject("/" + s) == Ok(s) && CleanObject(s + "/") == Ok(s)
  {
    var slash := c => c == '/';
    NormalPathIsClean(s);
    NotEscaping(s);
    LastChar(s);
    assert Slashes(s) == s && Slashes("/" + s) == "/" + s && Slashes(s + "/") == s + "/";
    TrimIsIdentity(s, slash);
    assert ("/" + s)[1..] == s && TrimLeft("/" + s, slash) == TrimLeft(s, slash);
    assert TrimLeft(s, slash) == s && TrimLeft(s + "/", slash) == s + "/";
    assert (s + "/")[..|s|] == s && TrimRight(s + "/", slash) == TrimRight(s, slash);
  }

  /** A listed path that climbs out of the root or is too long breaks the walk off; the root itself is no object. */
  lemma ObjectIsRefused(s: string)
    requires NormalPath(s) && '\\' !in s
    ensures CleanObject("../" + s) == Err(Traversal) && (|s| > 2048 ==> CleanObject(s) == Err(TooLong))
    ensures CleanObject("") == CleanObject("/") == Ok("")
  {
    var slash, up := c => c == '/', "../" + s;
    NormalPathIsClean(s);
    NotEscaping(s);
    LastChar(s);
    ClimbingIsClean(s);
    assert Slashes(s) == s && Slashes(up) == up && Slashes("") == "" && Slashes("/") == "/";
    TrimIsIdentity(s, slash);
    TrimIsIdentity(up, slash);
    assert "/"[1..] == "" && TrimLeft("/", slash) == TrimLeft("", slash) == "" && TrimRight("", slash) == "";
  }

  /** Strictly above `q` in the tree of paths. */
  predicate Above(p: string, q: string) {
    p != "" && p + "/" <= q
  }

  /** `path` joins some of the first `n` segments. */
  predicate Leads(parts: seq<string>, n: nat, path: string)
    requires n <= |parts|
  {
    n > 0 && (path == Join(parts[..n], '/') || Leads(parts, n - 1, path))
  }

  lemma {:induction false} LeadsPrefix(a: seq<string>, b: seq<string>, n: nat, path: string)
    requires n <= |a| && n <= |b| && a[..n] == b[..n]
    ensures Leads(a, n, path) <==> Leads(b, n, path)
  {
    if n > 0 {
      assert a[..n - 1] == a[..n][..n - 1] == b[..n - 1];
      LeadsPrefix(a, b, n - 1, path);
    }
  }

  /** The ancestors of a normal path are the joins of its leading segments. */
  lemma {:induction false} AboveIsLeading(parts: seq<string>, p: string)
    requires parts != [] && AllNormal(parts)
    ensures Above(p, Join(parts, '/')) <==> Leads(parts, |parts| - 1, p)
  {
    var init, last := parts[..|parts| - 1], parts[|parts| - 1];
    assert last in parts;
    if 1 < |parts| {
      assert parts == init + [last];
      JoinAppend(init, last, '/');
      var d := Join(init, '/');
      NormalFromParts(init);
      NormalPathIsClean(d);
      AboveIsLeading(init, p);
      AboveAppend(p, d, last);
      assert init[..|init| - 1] == parts[..|init| - 1];
      LeadsPrefix(init, parts, |init| - 1, p);
    } else {
      assert |p| < |last| ==> last[|p|] != '/';
    }
  }

  lemma AboveAppend(p: string, d: string, last: string)
    requires '/' !in last && d != ""
    ensures Above(p, d + ['/'] + last) <==> Above(p, d) || p == d
  {
    var q := d + ['/'] + last;
    assert |d| < |p| < |q| ==> q[|p|] == last[|p| - |d| - 1];
    if Above(p, q) {
      assert q[|p|] == '/' && p == q[..|p|];
      if |p| < |d| {
        assert p + "/" == q[..|p| + 1] == d[..|p| + 1];
      } else {
        assert p == d;
      }
    }
  }

  // ---- single rows

  function DirRow(path: string, marker: Time): Row {
    Row(Parent(path), Base(path), true, 0, None, "", Some(marker), None)
  }

  function FileRow(path: string, o: Object, marker: Time): Row {
    var name := if Trim(o.name, c => Blank(c)) == "" then Base(path) else o.name;
    Row(Parent(path), name, false, o.size, o.modTime, o.mimeType, Some(marker), None)
  }

  predicate Stale(row: Row, marker: Time) {
    row.missingAt.Some? || row.lastSeenAt.None? || row.lastSeenAt.value < marker
  }

  function Upsert(rows: Index, route: nat, e: Entry): Index {
    rows[Slot(route, e.path) := e.row]
  }

  /** `UpsertFileRecords`: one row after the other. */
  function UpsertAll(rows: Index, route: nat, batch: seq<Entry>): Index {
    if batch == [] then rows else Upsert(UpsertAll(rows, route, batch[..|batch| - 1]), route, batch[|batch| - 1])
  }

  lemma {:induction false} UpsertsGrow(rows: Index, route: nat, batch: seq<Entry>)
    ensures rows.Keys <= UpsertAll(rows, route, batch).Keys
  {
    if batch != [] {
      UpsertsGrow(rows, route, batch[..|batch| - 1]);
    }
  }

  /** `DeleteUnseenFileRecords`. */
  function Purged(rows: Index, route: nat, marker: Time): Index {
    map s | s in rows && !(s.route == route && Stale(rows[s], marker)) :: rows[s]
  }

  // ---- the meaning of a listing, object by object

  datatype Progress = Progress(rows: Index, seen: set<string>, files: nat, bytes: nat)

  function AddDirectory(p: Progress, route: nat, path: string, marker: Time): Progress {
    if path in p.seen then p
    else p.(rows := Upsert(p.rows, route, Entry(path, DirRow(path, marker))), seen := p.seen + {path})
  }

  function AddDirectories(p: Progress, route: nat, parts: seq<string>, n: nat, marker: Time): Progress
    requires n <= |parts|
  {
    if n == 0 then p
      else AddDirectory(AddDirectories(p, route, parts, n - 1, marker), route, Join(parts[..n], '/'), marker)
  }

  function AddChain(p: Progress, route: nat, directory: string, marker: Time): Progress {
    if directory == "." || directory == "" then p
    else AddDirectories(p, route, Split(directory, '/'), |Split(directory, '/')|, marker)
  }

  function AddFile(p: Progress, route: nat, path: string, o: Object, marker: Time): Progress {
    Progress(Upsert(p.rows, route, Entry(path, FileRow(path, o, marker))), p.seen, p.files + 1,
      p.bytes + if o.size > 0 then o.size else 0)
  }

  function AddObject(p: Progress, route: nat, o: Object, marker: Time): Progress {
    var c := CleanObject(o.path);
    if c.Err? || c.value == "" then p
    else if o.isDir then AddChain(p, route, c.value, marker)
    else AddFile(AddChain(p, route, Parent(c.value), marker), route, c.value, o, marker)
  }

  function AddAll(p: Progress, route: nat, objects: seq<Object>, marker: Time): Progress {
    if objects == [] then p
    else AddObject(AddAll(p, route, objects[..|objects| - 1], marker), route, objects[|objects| - 1], marker)
  }

  // ---- the indexer

  class RouteIndexer {
    const route: nat
    const batchSize: int
    const marker: Time

    var rows: Index
    var batch: seq<Entry>
    var seenDirectories: set<string>
    var files: nat
    var bytes: nat

    /** What the index will hold once the batch is flushed: the batch size does not show. */
    ghost function State(): Progress
      reads this
    {
      Progress(UpsertAll(rows, route, batch), seenDirectories, files, bytes)
    }

    constructor (route: nat, batchSize: int, marker: Time, rows: Index)
      ensures this.route == route && this.batchSize == batchSize && this.marker == marker && this.rows == rows
      ensures batch == [] && State() == Progress(rows, {}, 0, 0)
    {
      this.route, this.batchSize, this.marker, this.rows := route, batchSize, marker, rows;
      batch, seenDirectories, files, bytes := [], {}, 0, 0;
    }

    method Flush()
      modifies this`rows, this`batch
      ensures State() == old(State()) && batch == [] && rows == State().rows
      ensures old(rows.Keys) <= rows.Keys
    {
      UpsertsGrow(rows, route, batch);
      rows := UpsertAll(rows, route, batch);
      batch := [];
    }

    method Queue(e: Entry)
      modifies this`rows, this`batch
      ensures State() == old(State()).(rows := Upsert(old(State()).rows, route, e))
      ensures old(rows.Keys) <= rows.Keys
    {
      assert (batch + [e])[..|batch|] == batch;
      batch := batch + [e];
      if |batch| >= batchSize {
        Flush();
      }
    }

    method EnsureDirectories(path: string, includeSelf: bool)
      modifies this`rows, this`batch, this`seenDirectories
      ensures State() == AddChain(old(State()), route, if includeSelf then path else Parent(path), marker)
      ensures old(rows.Keys) <= rows.Keys
    {
      var directory := if includeSelf then path else Parent(path);
      if directory == "." || directory == "" {
        return;
      }
      var parts := Split(directory, '/');
      for i := 0 to |parts|
        invariant State() == AddDirectories(old(State()), route, parts, i, marker)
        invariant old(rows.Keys) <= rows.Keys
      {
        var current := Join(parts[..i + 1], '/');
        if current !in seenDirectories {
          seenDirectories := seenDirectories + {current};
          Queue(Entry(current, DirRow(current, marker)));
        }
      }
    }

    /** The walk's callback. */
    method Visit(o: Object) returns (ok: bool)
      modifies this`rows, this`batch, this`seenDirectories, this`files, this`bytes
      ensures ok <==> CleanObject(o.path).Ok?
      ensures State() == AddObject(old(State()), route, o, marker)
      ensures old(rows.Keys) <= rows.Keys
    {
      var cleaned := CleanObject(o.path);
      if cleaned.Err? {
        return false;
      }
      ok := true;
      if cleaned.value == "" {
        return;
      }
      EnsureDirectories(cleaned.value, o.isDir);
      if o.isDir {
        return;
      }
      Queue(Entry(cleaned.value, FileRow(cleaned.value, o, marker)));
      files := files + 1;
      if o.size > 0 {
        bytes := bytes + o.size;
      }
    }

    /**
     * Index what the walk delivers; `walkFails` says whether the listing breaks off after `objects`. Rows that were not
     * seen are deleted only after a complete walk.
     */
    method IndexRoute(objects: seq<Object>, walkFails: bool) returns (ok: bool)
      requires batch == [] && seenDirectories == {} && files == 0 && bytes == 0
      modifies this`rows, this`batch, this`seenDirectories, this`files, this`bytes
      ensures ok <==> !walkFails && AllClean(objects)
      ensures ok ==> var p := AddAll(Progress(old(rows), {}, 0, 0), route, objects, marker);
        rows == Purged(p.rows, route, marker) && files == p.files && bytes == p.bytes
      ensures !ok ==> old(rows.Keys) <= rows.Keys
    {
      for k := 0 to |objects|
        invariant State() == AddAll(Progress(old(rows), {}, 0, 0), route, objects[..k], marker)
        invariant AllClean(objects[..k])
        invariant old(rows.Keys) <= rows.Keys
      {
        assert objects[..k + 1][..k] == objects[..k];
        var visited := Visit(objects[k]);
        if !visited {
          CleanPrefix(objects, k + 1);
          return false;
        }
      }
      assert objects[..|objects|] == objects;
      if walkFails {
        return false;
      }
      Flush();
      rows := Purged(rows, route, marker);
      return true;
    }
  }

  // ---- the index equals the listing

  predicate Listed(o: Object, q: string) {
    CleanObject(o.path) == Ok(q) && q != ""
  }

  /** The listing shows `p` as a directory: as an object of its own, or above one. */
  predicate ShowsDirectory(o: Object, p: string) {
    var c := CleanObject(o.path);
    c.Ok? && c.value != "" && (Above(p, c.value) || (o.isDir && p == c.value && p != "."))
  }

  predicate ShowsFile(o: Object, p: string) {
    Listed(o, p) && !o.isDir
  }

  ghost predicate IsDirectory(objects: seq<Object>, p: string) {
    exists o | o in objects :: ShowsDirectory(o, p)
  }

  ghost predicate IsFile(objects: seq<Object>, p: string) {
    exists o | o in objects :: ShowsFile(o, p)
  }

  ghost predicate InListing(objects: seq<Object>, p: string) {
    IsDirectory(objects, p) || IsFile(objects, p)
  }

  predicate AllClean(objects: seq<Object>) {
    objects == [] || (AllClean(objects[..|objects| - 1]) && CleanObject(objects[|objects| - 1].path).Ok?)
  }

  lemma {:induction false} CleanPrefix(objects: seq<Object>, n: nat)
    requires n <= |objects|
    ensures AllClean(objects) ==> AllClean(objects[..n])
  {
    if n < |objects| {
      CleanPrefix(objects[..|objects| - 1], n);
      assert objects[..|objects| - 1][..n] == objects[..n];
    } else {
      assert objects[..n] == objects;
    }
  }

  /**
   * The effect of `q` on one path, `p` being the state before: shown as a directory (first time), as a file, or not at
   * all.
   */
  ghost predicate Effect(p: Progress, q: Progress, slot: Slot, dir: bool, dirRow: Row, file: bool, fileRow: Row) {
    && (slot.path in q.seen <==> slot.path in p.seen || dir)
    && (slot in q.rows <==> slot in p.rows || file || (dir && slot.path !in p.seen))
    && (file ==> q.rows[slot] == fileRow)
    && (!file && dir && slot.path !in p.seen ==> q.rows[slot] == dirRow)
    && (!file && !(dir && slot.path !in p.seen) && slot in p.rows ==> q.rows[slot] == p.rows[slot])
  }

  lemma {:induction false} DirectoriesAdded(
      p: Progress, route: nat, parts: seq<string>, n: nat, marker: Time, path: string)
    requires n <= |parts|
    ensures var dirRow := DirRow(path, marker);
      Effect(p, AddDirectories(p, route, parts, n, marker), Slot(route, path), Leads(parts, n, path), dirRow, false,
        dirRow)
  {
    if n > 0 {
      DirectoriesAdded(p, route, parts, n - 1, marker, path);
    }
  }

  /** A chain of directories shows its last element and everything above it. */
  lemma ChainAdded(p: Progress, route: nat, directory: string, marker: Time, path: string)
    requires directory == "" || directory == "." || NormalPath(directory)
    ensures var dirRow := DirRow(path, marker);
      var here := directory != "" && directory != "." && (path == directory || Above(path, directory));
      Effect(p, AddChain(p, route, directory, marker), Slot(route, path), here, dirRow, false, dirRow)
  {
    if directory != "" && directory != "." {
      var parts := Split(directory, '/');
      JoinOfSplit(directory, '/');
      assert parts[..|parts|] == parts;
      AboveIsLeading(parts, path);
      DirectoriesAdded(p, route, parts, |parts|, marker, path);
    }
  }

  /** Above a path means at or above its parent. */
  lemma AboveParent(p: string, q: string)
    requires q == "." || NormalPath(q)
    ensures Above(p, q) <==> Parent(q) != "" && (p == Parent(q) || Above(p, Parent(q)))
    ensures Parent(q) == "" || NormalPath(Parent(q))
  {
    if q == "." {
      SplitOfPart(q, '/');
    } else {
      NormalBase(q);
      JoinNormal(Parent(q), Base(q));
      if Parent(q) != "" {
        AboveAppend(p, Parent(q), Base(q));
        assert q == Parent(q) + ['/'] + Base(q);
      } else {
        assert |p| < |q| ==> q[|p|] != '/';
      }
    }
  }

  lemma ObjectAdded(p: Progress, route: nat, o: Object, marker: Time, path: string)
    requires CleanObject(o.path).Ok?
    ensures Effect(p, AddObject(p, route, o, marker), Slot(route, path),
      ShowsDirectory(o, path), DirRow(path, marker), ShowsFile(o, path), FileRow(path, o, marker))
  {
    var c := CleanObject(o.path).value;
    CleanedShape(o.path);
    if c != "" {
      if o.isDir {
        ChainAdded(p, route, c, marker, path);
        if c == "." {
          AboveParent(path, c);
        }
      } else {
        AboveParent(path, c);
        ParentIsNotDot(c);
        ChainAdded(p, route, Parent(c), marker, path);
      }
    }
  }

  lemma ParentIsNotDot(c: string)
    requires c == "." || NormalPath(c)
    ensures Parent(c) != "."
  {
    if c == "." {
      SplitOfPart(c, '/');
    } else {
      NormalBase(c);
      if Parent(c) != "" {
        NormalPathIsClean(Parent(c));
      }
    }
  }

  ghost predicate IsShown(objects: seq<Object>, path: string, row: Row, marker: Time) {
    (row == DirRow(path, marker) && IsDirectory(objects, path)) || exists o | o in objects ::
      ShowsFile(o, path) && row == FileRow(path, o, marker)
  }

  ghost predicate Reflects(p: Progress, q: Progress, slot: Slot, objects: seq<Object>, marker: Time) {
    && (slot.path in q.seen <==> IsDirectory(objects, slot.path))
    && (slot in q.rows <==> slot in p.rows || InListing(objects, slot.path))
    && (InListing(objects, slot.path) ==> IsShown(objects, slot.path, q.rows[slot], marker))
    && (slot in p.rows && !InListing(objects, slot.path) ==> q.rows[slot] == p.rows[slot])
  }

  lemma ReflectsNext(p: Progress, q: Progress, r: Progress, slot: Slot, objects: seq<Object>, o: Object, marker: Time)
    requires Reflects(p, q, slot, objects, marker)
    requires Effect(q, r, slot, ShowsDirectory(o, slot.path), DirRow(slot.path, marker), ShowsFile(o, slot.path),
      FileRow(slot.path, o, marker))
    ensures Reflects(p, r, slot, objects + [o], marker)
  {
    var path, more := slot.path, objects + [o];
    assert o in more && forall x | x in objects :: x in more;
    assert forall x | x in more :: x in objects || x == o;
    assert IsDirectory(more, path) <==> IsDirectory(objects, path) || ShowsDirectory(o, path);
    assert IsFile(more, path) <==> IsFile(objects, path) || ShowsFile(o, path);
    if InListing(objects, path) && !ShowsFile(o, path) {
      assert r.rows[slot] == q.rows[slot] || r.rows[slot] == DirRow(path, marker);
    }
  }

  lemma {:induction false} AllAdded(p: Progress, route: nat, objects: seq<Object>, marker: Time, path: string)
    requires p.seen == {} && AllClean(objects)
    ensures Reflects(p, AddAll(p, route, objects, marker), Slot(route, path), objects, marker)
  {
    if objects != [] {
      var n := |objects| - 1;
      AllAdded(p, route, objects[..n], marker, path);
      OneAdded(p, AddAll(p, route, objects[..n], marker), route, objects[..n], objects[n], marker, path);
      assert objects == objects[..n] + [objects[n]];
    }
  }

  lemma OneAdded(p: Progress, q: Progress, route: nat, objects: seq<Object>, o: Object, marker: Time, path: string)
    requires Reflects(p, q, Slot(route, path), objects, marker) && CleanObject(o.path).Ok?
    ensures Reflects(p, AddObject(q, route, o, marker), Slot(route, path), objects + [o], marker)
  {
    ObjectAdded(q, route, o, marker, path);
    ReflectsNext(p, q, AddObject(q, route, o, marker), Slot(route, path), objects, o, marker);
  }

  /** The row was last seen at the time `t` or later, and has not been missed. */
  predicate SeenSince(row: Row, t: Time) {
    row.missingAt == None && row.lastSeenAt != None && row.lastSeenAt.value >= t
  }

  /** The index after a complete walk. */
  function Indexed(rows: Index, route: nat, objects: seq<Object>, marker: Time): Index {
    Purged(AddAll(Progress(rows, {}, 0, 0), route, objects, marker).rows, route, marker)
  }

  /**
   * After a complete walk a path of the route is indexed exactly when the listing shows it - or when it already was,
   * not missing and last seen no earlier than the marker; and a shown path has the row the listing gives it.
   */
  lemma IndexEqualsListing(rows: Index, route: nat, objects: seq<Object>, marker: Time, path: string)
    requires AllClean(objects)
    ensures var slot, after := Slot(route, path), Indexed(rows, route, objects, marker);
      && (slot in after <==> InListing(objects, path) || (slot in rows && SeenSince(rows[slot], marker)))
      && (InListing(objects, path) ==> IsShown(objects, path, after[slot], marker))
      && (slot in after && !InListing(objects, path) ==> after[slot] == rows[slot])
  {
    AllAdded(Progress(rows, {}, 0, 0), route, objects, marker, path);
  }

  /** The markers of earlier runs are below this one. */
  ghost predicate OlderThan(rows: Index, route: nat, marker: Time) {
    forall s | s in rows && s.route == route && rows[s].lastSeenAt.Some? :: rows[s].lastSeenAt.value < marker
  }

  /** What the remote no longer lists is removed from the index, and nothing that another run has seen since. */
  lemma UnlistedIsRemovedExactlyWhen(rows: Index, route: nat, objects: seq<Object>, marker: Time, path: string)
    requires AllClean(objects) && Slot(route, path) in rows && !InListing(objects, path)
    ensures var row, after := rows[Slot(route, path)], Indexed(rows, route, objects, marker);
      && (Slot(route, path) !in after <==>
            row.missingAt.Some? || row.lastSeenAt.None? || row.lastSeenAt.value < marker)
      && (Slot(route, path) in after ==> after[Slot(route, path)] == row)
  {
    IndexEqualsListing(rows, route, objects, marker, path);
  }

  /**
   * Column by column, what a listed path's row says: a directory's comes from its path alone, a file's from an object
   * listed there, whose blank name is replaced by the last segment of the path.
   */
  lemma IndexedRowMeans(rows: Index, route: nat, objects: seq<Object>, marker: Time, path: string)
    requires AllClean(objects) && InListing(objects, path)
    ensures var slot, after := Slot(route, path), Indexed(rows, route, objects, marker);
      && slot in after && var row := after[slot];
      && row.parentPath == Parent(path) && row.lastSeenAt == Some(marker) && row.missingAt.None?
      && (row.isDir ==> IsDirectory(objects, path) && row.name == Base(path) && row.size == 0 && row.modTime.None?)
      && (!row.isDir ==> exists o :: o in objects && IsRowOf(row, o, path))
  {
    IndexEqualsListing(rows, route, objects, marker, path);
    var row := Indexed(rows, route, objects, marker)[Slot(route, path)];
    if !row.isDir {
      var o :| o in objects && ShowsFile(o, path) && row == FileRow(path, o, marker);
      BlankMeans(o.name);
      assert IsRowOf(row, o, path);
    }
  }

  predicate AllBlank(s: string) {
    forall c | c in s :: Blank(c)
  }

  predicate IsRowOf(row: Row, o: Object, path: string) {
    && !o.isDir && CleanObject(o.path) == Ok(path)
    && row.size == o.size && row.modTime == o.modTime && row.mimeType == o.mimeType
    && row.name == if AllBlank(o.name) then Base(path) else o.name
  }

  lemma {:induction false} TrimmedLeft(s: string)
    ensures TrimLeft(s, c => Blank(c)) == "" <==> AllBlank(s)
  {
    if s != "" {
      TrimmedLeft(s[1..]);
    }
  }

  lemma {:induction false} TrimmedRight(s: string)
    ensures TrimRight(s, c => Blank(c)) == "" <==> AllBlank(s)
  {
    if s != "" {
      TrimmedRight(s[..|s| - 1]);
      assert s == s[..|s| - 1] + [s[|s| - 1]];
    }
  }

  lemma BlankMeans(s: string)
    ensures Trim(s, c => Blank(c)) == "" <==> AllBlank(s)
  {
    TrimmedLeft(s);
    TrimmedRight(TrimLeft(s, c => Blank(c)));
    TrimLeftKeeps(s, c => Blank(c));
  }

  ghost predicate NoClash(objects: seq<Object>) {
    forall p: string :: !(IsDirectory(objects, p) && IsFile(objects, p))
  }

  /**
   * With strictly increasing markers and no path both file and directory, the index is the listing and nothing else.
   */
  lemma IndexIsExactlyTheListing(rows: Index, route: nat, objects: seq<Object>, marker: Time, path: string)
    requires AllClean(objects) && OlderThan(rows, route, marker) && NoClash(objects)
    ensures var slot, after := Slot(route, path), Indexed(rows, route, objects, marker);
      && (slot in after <==> InListing(objects, path))
      && (slot in after && after[slot].isDir <==> IsDirectory(objects, path))
      && (slot in after && !after[slot].isDir <==> IsFile(objects, path))
  {
    IndexEqualsListing(rows, route, objects, marker, path);
  }

  /** Every indexed path below the top level has its parent in the index, as a directory. */
  lemma ParentsAreIndexed(rows: Index, route: nat, objects: seq<Object>, marker: Time, path: string)
    requires AllClean(objects) && OlderThan(rows, route, marker) && NoClash(objects)
    requires Slot(route, path) in Indexed(rows, route, objects, marker) && Parent(path) != ""
    ensures var after := Indexed(rows, route, objects, marker);
      && after[Slot(route, path)].parentPath == Parent(path)
      && Slot(route, Parent(path)) in after && after[Slot(route, Parent(path))].isDir
  {
    IndexEqualsListing(rows, route, objects, marker, path);
    var o :| o in objects && (ShowsDirectory(o, path) || ShowsFile(o, path));
    var c := CleanObject(o.path).value;
    CleanedShape(o.path);
    ParentIsAbove(path, c);
    assert ShowsDirectory(o, Parent(path));
    IndexIsExactlyTheListing(rows, route, objects, marker, Parent(path));
  }

  lemma ParentIsAbove(p: string, c: string)
    requires (p == c || Above(p, c)) && (c == "." || NormalPath(c)) && Parent(p) != ""
    ensures Above(Parent(p), c)
    decreases |c|
  {
    AboveParent(p, c);
    if p == c {
      AboveParent(Parent(p), c);
    } else {
      NormalBase(c);
      assert c != ".";
      ParentIsShorter(c);
      ParentIsAbove(p, Parent(c));
      AboveParent(Parent(p), c);
    }
  }

  lemma ParentIsShorter(c: string)
    requires NormalPath(c) && Parent(c) != ""
    ensures |Parent(c)| < |c|
  {
    NormalBase(c);
    JoinNormal(Parent(c), Base(c));
  }

  // ---- the reported number of files

  function FilePaths(objects: seq<Object>): set<string> {
    if objects == [] then {}
    else
      var o := objects[|objects| - 1];
      FilePaths(objects[..|objects| - 1]) + if IsFileObject(o) then {CleanObject(o.path).value} else {}
  }

  predicate IsFileObject(o: Object) {
    !o.isDir && CleanObject(o.path).Ok? && CleanObject(o.path).value != ""
  }

  lemma {:induction false} FilePathsAreFiles(objects: seq<Object>, p: string)
    ensures p in FilePaths(objects) <==> IsFile(objects, p)
  {
    if objects != [] {
      var n := |objects| - 1;
      FilePathsAreFiles(objects[..n], p);
      assert objects == objects[..n] + [objects[n]];
      assert IsFile(objects, p) <==> IsFile(objects[..n], p) || ShowsFile(objects[n], p);
    }
  }

  /** No file path is listed twice. */
  predicate NoRepeat(objects: seq<Object>) {
    if objects == [] then true
    else
      var n := |objects| - 1;
      NoRepeat(objects[..n])
        && !(IsFileObject(objects[n]) && CleanObject(objects[n].path).value in FilePaths(objects[..n]))
  }

  /** The paths of a route's rows that are not directories. */
  function IndexedFiles(index: Index, route: nat): set<string> {
    set s | s in index && s.route == route && !index[s].isDir :: s.path
  }

  /** The indexed files are the files of the listing. */
  lemma IndexedFilesAreListed(rows: Index, route: nat, objects: seq<Object>, marker: Time)
    requires AllClean(objects) && OlderThan(rows, route, marker) && NoClash(objects)
    ensures IndexedFiles(Indexed(rows, route, objects, marker), route) == FilePaths(objects)
  {
    var index := Indexed(rows, route, objects, marker);
    forall p: string ensures p in IndexedFiles(index, route) <==> p in FilePaths(objects) {
      IndexIsExactlyTheListing(rows, route, objects, marker, p);
      FilePathsAreFiles(objects, p);
      assert p in IndexedFiles(index, route) <==> Slot(route, p) in index && !index[Slot(route, p)].isDir;
    }
  }

  /** The reported count is the number of indexed files exactly when no file is listed twice; it is never less. */
  lemma FilesAreCounted(rows: Index, route: nat, objects: seq<Object>, marker: Time)
    requires AllClean(objects) && OlderThan(rows, route, marker) && NoClash(objects)
    ensures var files := AddAll(Progress(rows, {}, 0, 0), route, objects, marker).files;
      var indexed := |IndexedFiles(Indexed(rows, route, objects, marker), route)|;
      indexed <= files && (files == indexed <==> NoRepeat(objects))
  {
    IndexedFilesAreListed(rows, route, objects, marker);
    ListedFilesAreCounted(rows, route, objects, marker);
  }

  lemma {:induction false} ListedFilesAreCounted(rows: Index, route: nat, objects: seq<Object>, marker: Time)
    ensures var files := AddAll(Progress(rows, {}, 0, 0), route, objects, marker).files;
      |FilePaths(objects)| <= files && (files == |FilePaths(objects)| <==> NoRepeat(objects))
  {
    if objects != [] {
      var n := |objects| - 1;
      ListedFilesAreCounted(rows, route, objects[..n], marker);
      var q := AddAll(Progress(rows, {}, 0, 0), route, objects[..n], marker);
      var c := CleanObject(objects[n].path);
      if c.Ok? && c.value != "" {
        var d := if objects[n].isDir then c.value else Parent(c.value);
        DirectoriesAreNotCounted(q, route, Split(d, '/'), |Split(d, '/')|, marker);
      }
    }
  }

  lemma {:induction false} DirectoriesAreNotCounted(p: Progress, route: nat, parts: seq<string>, n: nat, marker: Time)
    requires n <= |parts|
    ensures var q := AddDirectories(p, route, parts, n, marker); q.files == p.files && q.bytes == p.bytes
  {
    if n > 0 {
      DirectoriesAreNotCounted(p, route, parts, n - 1, marker);
    }
  }

  /** The sizes of the listed files, each object counted, negative sizes as nothing. */
  function ListedBytes(objects: seq<Object>): nat {
    if objects == [] then 0
    else
      var o := objects[|objects| - 1];
      ListedBytes(objects[..|objects| - 1]) + if IsFileObject(o) && o.size >= 0 then o.size else 0
  }

  lemma {:induction false} BytesAreCounted(rows: Index, route: nat, objects: seq<Object>, marker: Time)
    ensures AddAll(Progress(rows, {}, 0, 0), route, objects, marker).bytes == ListedBytes(objects)
  {
    if objects != [] {
      var n := |objects| - 1;
      BytesAreCounted(rows, route, objects[..n], marker);
      var q := AddAll(Progress(rows, {}, 0, 0), route, objects[..n], marker);
      var c := CleanObject(objects[n].path);
      if c.Ok? && c.value != "" {
        var d := if objects[n].isDir then c.value else Parent(c.value);
        DirectoriesAreNotCounted(q, route, Split(d, '/'), |Split(d, '/')|, marker);
      }
    }
  }

  // ---- objects whose path cleans to "."

  /** Such an object is a row under "." if it is a file, and leaves no trace if it is a directory. */
  lemma DotIsIndexedExactlyForFiles(objects: seq<Object>)
    ensures InListing(objects, ".") <==> exists o | o in objects :: CleanObject(o.path) == Ok(".") && !o.isDir
  {
    forall o | o in objects ensures !ShowsDirectory(o, ".") {
      CleanedShape(o.path);
      if CleanObject(o.path).Ok? && Above(".", CleanObject(o.path).value) {
        NothingBelowDot(CleanObject(o.path).value);
      }
    }
    if o :| o in objects && CleanObject(o.path) == Ok(".") && !o.isDir {
      assert ShowsFile(o, ".");
    }
  }

  lemma DotComesFirst(q: string)
    requires Above(".", q)
    ensures Split(q, '/')[0] == "."
  {
    assert q == "." + ['/'] + q[2..];
    SplitAtSeparator(".", q[2..], '/');
  }

  lemma NothingBelowDot(q: string)
    requires q == "." || NormalPath(q)
    ensures !Above(".", q)
  {
    assert Split(q, '/')[0] in Split(q, '/');
    if Above(".", q) {
      DotComesFirst(q);
      assert false;
    }
  }

  /** There are such paths. */
  lemma DotExists()
    ensures CleanObject(".") == Ok(".")
  {
    assert Slashes(".") == ".";
    SplitOfPart(".", '/');
    assert ["."][..0] == [];
  }

  // ---- other routes

  lemma {:induction false} OtherDirectories(
      p: Progress, route: nat, parts: seq<string>, n: nat, marker: Time, other: Slot)
    requires n <= |parts| && other.route != route
    ensures SameAt(p.rows, AddDirectories(p, route, parts, n, marker).rows, other)
  {
    if n > 0 {
      OtherDirectories(p, route, parts, n - 1, marker, other);
    }
  }

  predicate SameAt(a: Index, b: Index, s: Slot) {
    (s in a <==> s in b) && (s in a ==> a[s] == b[s])
  }

  lemma {:induction false} OtherObjects(p: Progress, route: nat, objects: seq<Object>, marker: Time, other: Slot)
    requires other.route != route
    ensures SameAt(p.rows, AddAll(p, route, objects, marker).rows, other)
  {
    if objects != [] {
      var n := |objects| - 1;
      OtherObjects(p, route, objects[..n], marker, other);
      var q, c := AddAll(p, route, objects[..n], marker), CleanObject(objects[n].path);
      if c.Ok? && c.value != "" {
        var d := if objects[n].isDir then c.value else Parent(c.value);
        OtherDirectories(q, route, Split(d, '/'), |Split(d, '/')|, marker, other);
      }
    }
  }

  /** Indexing one route leaves every other route's rows alone. */
  lemma OtherRoutesKept(rows: Index, route: nat, objects: seq<Object>, marker: Time, other: Slot)
    requires other.route != route
    ensures SameAt(rows, Indexed(rows, route, objects, marker), other)
  {
    OtherObjects(Progress(rows, {}, 0, 0), route, objects, marker, other);
  }
}
