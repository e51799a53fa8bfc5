/**
 * Browsing the file index of a watched folder: one level of directories with their totals, and the files of that level.
 */
module BrowseIndex {
  import opened Wrappers
  import opened Sequences
  import opened PathText
  import opened FileRecords
  import opened MapSums

  datatype Directory = Directory(name: string, path: string, fileCount: nat, size: int, available: bool)

  /** A record with its normalized path. */
  datatype Item = Item(path: string, record: FileRecord)

  datatype View = View(directories: map<string, Directory>, files: seq<Item>)

  // ---- where a record lies relative to a directory

  function Prefix(p: string): string {
    if p == "" then "" else p + "/"
  }

  predicate StrictlyBelow(p: string, s: string) {
    Prefix(p) < s
  }

  /** The part of `s` below `p`. */
  function Tail(p: string, s: string): string
    requires StrictlyBelow(p, s)
  {
    s[|Prefix(p)|..]
  }

  /** `strings.IndexByte(t, '/')`, or the length when there is none. */
  function FirstSlash(t: string): (n: nat)
    ensures n <= |t| && '/' !in t[..n] && (n < |t| ==> t[n] == '/')
  {
    if t == "" || t[0] == '/' then 0
    else
      var n := FirstSlash(t[1..]) + 1;
      assert t[..n] == [t[0]] + t[1..][..n - 1];
      n
  }

  /** The directory directly below `p` through which `s` is reached, if it is not a file of that level. */
  function ChildOf(p: string, s: string): Option<string> {
    if !StrictlyBelow(p, s) then None
    else
      var t := Tail(p, s);
      if FirstSlash(t) < |t| then Some(Prefix(p) + t[..FirstSlash(t)]) else None
  }

  /** A directory path directly below `p`. */
  predicate IsChild(p: string, c: string) {
    Prefix(p) < c && '/' !in c[|Prefix(p)|..]
  }

  lemma FirstSlashIs(t: string, n: nat)
    requires n < |t| && t[n] == '/' && '/' !in t[..n]
    ensures FirstSlash(t) == n
  {
    var m := FirstSlash(t);
    assert forall k | 0 <= k < m :: t[k] == t[..m][k];
    assert forall k | 0 <= k < n :: t[k] == t[..n][k];
  }

  lemma ReachedThrough(base: string, name: string, s: string)
    requires '/' !in name && name != "" && base < s
    ensures var t := s[|base|..]; var n := FirstSlash(t);
      base + name + "/" <= s <==> n < |t| && base + t[..n] == base + name
  {
    var t := s[|base|..];
    var n := FirstSlash(t);
    assert s == base + t;
    if base + name + "/" <= s {
      assert t[..|name|] == s[|base|..|base| + |name|] == name;
      assert t[|name|] == s[|base| + |name|] == '/';
      FirstSlashIs(t, |name|);
    }
    if n < |t| && base + t[..n] == base + name {
      assert (base + t[..n])[|base|..] == (base + name)[|base|..];
      assert t[..n] == name;
      assert t[..n + 1] == name + "/";
    }
  }

  /** What lies below a child directory is exactly what is reached through it. */
  lemma BelowChild(p: string, c: string, s: string)
    requires IsChild(p, c) && (s == "" || s[|s| - 1] != '/')
    ensures StrictlyBelow(c, s) <==> ChildOf(p, s) == Some(c)
  {
    var base := Prefix(p);
    var name := c[|base|..];
    assert c == base + name && Prefix(c) == base + name + "/";
    if base < s {
      ReachedThrough(base, name, s);
    }
  }

  /** The child directory of a normal path is itself normal, and its parent is the directory browsed. */
  lemma ChildIsNormal(p: string, s: string)
    requires (p == "" || NormalPath(p)) && NormalPath(s) && ChildOf(p, s).Some?
    ensures var c := ChildOf(p, s).value;
      IsChild(p, c) && NormalPath(c) && Parent(c) == p && |c| < |s| && c <= s
  {
    var t := Tail(p, s);
    var name := t[..FirstSlash(t)];
    assert s == Prefix(p) + t;
    TailIsNormal(p, t);
    FirstSegment(t);
    JoinNormal(p, name);
    assert (Prefix(p) + name)[|Prefix(p)|..] == name;
  }

  lemma TailIsNormal(p: string, t: string)
    requires NormalPath(Prefix(p) + t)
    ensures NormalPath(t)
  {
    if p == "" {
      assert Prefix(p) + t == t;
    } else {
      assert Prefix(p) + t == p + "/" + t;
      SplitConcat(p, t);
      assert forall x | x in Split(t, '/') :: x in Split(p, '/') + Split(t, '/');
    }
  }

  lemma HeadIsNormal(name: string, rest: string)
    requires '/' !in name && NormalPath(name + ['/'] + rest)
    ensures Normal(name)
  {
    SplitAtSeparator(name, rest, '/');
    assert name in [name] + Split(rest, '/');
  }

  lemma CutAt(t: string, n: nat)
    requires n < |t| && t[n] == '/'
    ensures t == t[..n] + ['/'] + t[n + 1..]
  {}

  /** The first segment of a normal path. */
  lemma FirstSegment(t: string)
    requires NormalPath(t) && FirstSlash(t) < |t|
    ensures Normal(t[..FirstSlash(t)])
  {
    var n := FirstSlash(t);
    CutAt(t, n);
    HeadIsNormal(t[..n], t[n + 1..]);
  }

  // ---- what one level should show

  /** The records that have a path naming something, in order. */
  function Named(records: seq<FileRecord>): seq<Item> {
    if records == [] then []
    else
      var r := records[|records| - 1];
      var n := Normalize(r.relativePath);
      var before := Named(records[..|records| - 1]);
      if n.Ok? && n.value != "" then before + [Item(n.value, r)] else before
  }

  ghost predicate AllNamed(items: seq<Item>) {
    items == [] || (AllNamed(items[..|items| - 1]) && Nameable(items[|items| - 1].path))
  }

  ghost predicate Nameable(path: string) {
    NormalPath(path) && |path| <= 768 && '\\' !in path
  }

  lemma {:induction false} NamedAreNormal(records: seq<FileRecord>)
    ensures AllNamed(Named(records))
  {
    if records != [] {
      var r := records[|records| - 1];
      var before := Named(records[..|records| - 1]);
      NamedAreNormal(records[..|records| - 1]);
      NormalizeYieldsNormal(r.relativePath);
      var n := Normalize(r.relativePath);
      if n.Ok? && n.value != "" {
        assert (before + [Item(n.value, r)])[..|before|] == before;
      }
    }
  }

  function Under(items: seq<Item>, p: string): seq<Item> {
    if items == [] then []
    else
      var i := items[|items| - 1];
      if StrictlyBelow(p, i.path) then Under(items[..|items| - 1], p) + [i] else Under(items[..|items| - 1], p)
  }

  /** The items reached through one child directory. */
  function Members(items: seq<Item>, p: string, c: string): seq<Item> {
    if items == [] then []
    else
      var i := items[|items| - 1];
      if ChildOf(p, i.path) == Some(c) then Members(items[..|items| - 1], p, c) + [i]
        else Members(items[..|items| - 1], p, c)
  }

  predicate IsDirect(p: string, i: Item) {
    StrictlyBelow(p, i.path) && ChildOf(p, i.path).None?
  }

  function Direct(items: seq<Item>, p: string): seq<Item> {
    if items == [] then []
    else
      var i := items[|items| - 1];
      if IsDirect(p, i) then Direct(items[..|items| - 1], p) + [i] else Direct(items[..|items| - 1], p)
  }

  function SizeOf(items: seq<Item>): int {
    if items == [] then 0 else SizeOf(items[..|items| - 1]) + items[|items| - 1].record.fileSize
  }

  predicate AnyPresent(items: seq<Item>) {
    items != [] && (AnyPresent(items[..|items| - 1]) || items[|items| - 1].record.missingAt.None?)
  }

  lemma {:induction false} AnyPresentMeans(items: seq<Item>)
    ensures AnyPresent(items) <==> exists i | i in items :: i.record.missingAt.None?
  {
    if items != [] {
      var n := |items| - 1;
      AnyPresentMeans(items[..n]);
      assert items == items[..n] + [items[n]];
    }
  }

  /** A directory entry with the totals of some items. */
  function DirectoryOf(p: string, c: string, members: seq<Item>): Directory
    requires |Prefix(p)| <= |c|
  {
    Directory(c[|Prefix(p)|..], c, |members|, SizeOf(members), AnyPresent(members))
  }

  function Counts(directories: map<string, Directory>): map<string, int> {
    map c | c in directories :: directories[c].fileCount
  }

  function Sizes(directories: map<string, Directory>): map<string, int> {
    map c | c in directories :: directories[c].size
  }

  ghost predicate EntryIs(items: seq<Item>, p: string, directories: map<string, Directory>, c: string) {
    && (c in directories <==> Members(items, p, c) != [])
    && (c in directories ==> IsChild(p, c) && directories[c] == DirectoryOf(p, c, Members(items, p, c)))
  }

  ghost predicate Entries(items: seq<Item>, p: string, directories: map<string, Directory>) {
    forall c: string :: EntryIs(items, p, directories, c)
  }

  /** Every item below `p` is counted once: in one directory or as a file. */
  ghost predicate Conserved(items: seq<Item>, p: string, v: View) {
    && Sum(Counts(v.directories)) + |v.files| == |Under(items, p)|
    && Sum(Sizes(v.directories)) + SizeOf(v.files) == SizeOf(Under(items, p))
  }

  ghost predicate Shows(items: seq<Item>, p: string, v: View) {
    v.files == Direct(items, p) && Entries(items, p, v.directories) && Conserved(items, p, v)
  }

  // ---- one more item

  lemma UnderSnoc(items: seq<Item>, p: string, i: Item)
    ensures var u := Under(items, p);
      && Under(items + [i], p) == (if StrictlyBelow(p, i.path) then u + [i] else u)
      && SizeOf(Under(items + [i], p)) == SizeOf(u) + if StrictlyBelow(p, i.path) then i.record.fileSize else 0
  {
    assert (items + [i])[..|items|] == items;
    SizeSnoc(Under(items, p), i);
  }

  lemma MembersSnoc(items: seq<Item>, p: string, c: string, i: Item)
    ensures Members(items + [i], p, c) == if ChildOf(p, i.path) == Some(c) then Members(items, p, c) + [i]
      else Members(items, p, c)
  {
    assert (items + [i])[..|items|] == items;
  }

  lemma DirectSnoc(items: seq<Item>, p: string, i: Item)
    ensures Direct(items + [i], p) == if IsDirect(p, i) then Direct(items, p) + [i] else Direct(items, p)
  {
    assert (items + [i])[..|items|] == items;
  }

  lemma SizeSnoc(items: seq<Item>, i: Item)
    ensures SizeOf(items + [i]) == SizeOf(items) + i.record.fileSize
    ensures AnyPresent(items + [i]) <==> AnyPresent(items) || i.record.missingAt.None?
  {
    assert (items + [i])[..|items|] == items;
  }

  lemma EntriesKept(items: seq<Item>, p: string, directories: map<string, Directory>, i: Item)
    requires Entries(items, p, directories) && ChildOf(p, i.path).None?
    ensures Entries(items + [i], p, directories)
  {
    forall c: string ensures EntryIs(items + [i], p, directories, c) {
      assert EntryIs(items, p, directories, c);
      MembersSnoc(items, p, c, i);
    }
  }

  /** The aggregate of a child after one more of its members. */
  function Enlarged(p: string, directories: map<string, Directory>, c: string, i: Item): Directory
    requires |Prefix(p)| <= |c|
  {
    var d := if c in directories then directories[c] else Directory(c[|Prefix(p)|..], c, 0, 0, false);
    d.(fileCount := d.fileCount + 1, size := d.size + i.record.fileSize,
       available := d.available || i.record.missingAt.None?)
  }

  lemma EntriesGrow(items: seq<Item>, p: string, directories: map<string, Directory>, c: string, i: Item)
    requires Entries(items, p, directories) && ChildOf(p, i.path) == Some(c) && IsChild(p, c)
    ensures Entries(items + [i], p, directories[c := Enlarged(p, directories, c, i)])
  {
    var after := directories[c := Enlarged(p, directories, c, i)];
    forall x: string ensures EntryIs(items + [i], p, after, x) {
      assert EntryIs(items, p, directories, x);
      EntryGrows(items, p, directories, c, i, x);
    }
  }

  lemma EntryGrows(items: seq<Item>, p: string, directories: map<string, Directory>, c: string, i: Item, x: string)
    requires EntryIs(items, p, directories, x) && ChildOf(p, i.path) == Some(c) && IsChild(p, c)
    ensures EntryIs(items + [i], p, directories[c := Enlarged(p, directories, c, i)], x)
  {
    var m := Members(items, p, x);
    MembersSnoc(items, p, x, i);
    SizeSnoc(m, i);
    if x == c {
      assert Enlarged(p, directories, c, i) == DirectoryOf(p, c, m + [i]);
    }
  }

  lemma SumsGrow(directories: map<string, Directory>, c: string, d: Directory, size: int)
    requires d.fileCount == (if c in directories then directories[c].fileCount else 0) + 1
    requires d.size == (if c in directories then directories[c].size else 0) + size
    ensures Sum(Counts(directories[c := d])) == Sum(Counts(directories)) + 1
    ensures Sum(Sizes(directories[c := d])) == Sum(Sizes(directories)) + size
  {
    SumUpdate(Counts(directories), c, d.fileCount);
    SumUpdate(Sizes(directories), c, d.size);
    assert Counts(directories[c := d]) == Counts(directories)[c := d.fileCount];
    assert Sizes(directories[c := d]) == Sizes(directories)[c := d.size];
  }

  lemma ItemAdded(items: seq<Item>, p: string, v: View, i: Item)
    requires (p == "" || NormalPath(p)) && NormalPath(i.path) && Shows(items, p, v)
    ensures var child := ChildOf(p, i.path);
      if child.Some? then
        |Prefix(p)| <= |child.value| &&
        Shows(items + [i], p,
          v.(directories := v.directories[child.value := Enlarged(p, v.directories, child.value, i)]))
      else Shows(items + [i], p, if IsDirect(p, i) then v.(files := v.files + [i]) else v)
  {
    var child := ChildOf(p, i.path);
    UnderSnoc(items, p, i);
    DirectSnoc(items, p, i);
    SizeSnoc(v.files, i);
    if child.Some? {
      ChildIsNormal(p, i.path);
      EntriesGrow(items, p, v.directories, child.value, i);
      SumsGrow(v.directories, child.value, Enlarged(p, v.directories, child.value, i), i.record.fileSize);
    } else {
      EntriesKept(items, p, v.directories, i);
    }
  }

  lemma ShowsNothing(p: string)
    ensures Shows([], p, View(map[], []))
  {
    assert Counts(map[]) == map[] && Sizes(map[]) == map[];
  }

  // ---- browsing

  /** The aggregation of `BrowseWatchFolder`, before sorting and paging. */
  method BrowseWatchFolder(rawPath: string, records: seq<FileRecord>) returns (r: Result<View, PathError>)
    ensures r.Err? <==> Normalize(rawPath).Err?
    ensures r.Ok? ==> Shows(Named(records), Normalize(rawPath).value, r.value)
  {
    var normalized := Normalize(rawPath);
    if normalized.Err? {
      return Err(normalized.error);
    }
    NormalizeYieldsNormal(rawPath);
    var v := Aggregate(normalized.value, records);
    return Ok(v);
  }

  method Aggregate(p: string, records: seq<FileRecord>) returns (v: View)
    requires p == "" || NormalPath(p)
    ensures Shows(Named(records), p, v)
  {
    v := View(map[], []);
    ShowsNothing(p);
    assert records[..0] == [] && records[..|records|] == records;
    for k := 0 to |records|
      invariant Shows(Named(records[..k]), p, v)
    {
      v := AddRecord(records, k, p, v);
    }
  }

  lemma NamedNext(records: seq<FileRecord>, k: nat)
    requires k < |records|
    ensures var before, n := Named(records[..k]), Normalize(records[k].relativePath);
      Named(records[..k + 1]) == if n.Ok? && n.value != "" then before + [Item(n.value, records[k])] else before
  {
    assert records[..k + 1][..k] == records[..k];
  }

  /** One record: a path that does not normalize, or that names the root, is skipped. */
  method AddRecord(records: seq<FileRecord>, k: nat, p: string, v: View) returns (v': View)
    requires k < |records| && (p == "" || NormalPath(p)) && Shows(Named(records[..k]), p, v)
    ensures Shows(Named(records[..k + 1]), p, v')
  {
    NamedNext(records, k);
    var path := Normalize(records[k].relativePath);
    if path.Err? || path.value == "" {
      return v;
    }
    NormalizeYieldsNormal(records[k].relativePath);
    v' := AddItem(Named(records[..k]), p, v, Item(path.value, records[k]));
  }

  /** One named record: outside, counted in its child directory, or listed. */
  method AddItem(ghost items: seq<Item>, p: string, v: View, i: Item) returns (v': View)
    requires (p == "" || NormalPath(p)) && NormalPath(i.path) && Shows(items, p, v)
    ensures Shows(items + [i], p, v')
  {
    ItemAdded(items, p, v, i);
    var prefix := Prefix(p);
    v' := v;
    if prefix < i.path {
      var tail := i.path[|prefix|..];
      var slash := FirstSlash(tail);
      if slash < |tail| {
        var d := AddMember(p, v.directories, tail[..slash], i);
        v' := v.(directories := v.directories[prefix + tail[..slash] := d]);
      } else {
        v' := v.(files := v.files + [i]);
      }
    }
  }

  /** Count an item in the aggregate of its child directory, created on first use. */
  method AddMember(p: string, directories: map<string, Directory>, name: string, i: Item) returns (d: Directory)
    ensures d == Enlarged(p, directories, Prefix(p) + name, i)
  {
    var path := Prefix(p) + name;
    assert path[|Prefix(p)|..] == name;
    d := Directory(name, path, 0, 0, false);
    if path in directories {
      d := directories[path];
    }
    d := d.(fileCount := d.fileCount + 1, size := d.size + i.record.fileSize);
    if i.record.missingAt.None? {
      d := d.(available := true);
    }
  }

  // ---- one level against the next

  lemma LastIsNotSlash(s: string)
    requires NormalPath(s)
    ensures s == "" || s[|s| - 1] != '/'
  {
    LastChar(s);
  }

  /** The items reached through a child are the items below it. */
  lemma {:induction false} MembersAreUnder(items: seq<Item>, p: string, c: string)
    requires AllNamed(items) && IsChild(p, c)
    ensures Members(items, p, c) == Under(items, c)
  {
    if items != [] {
      var n := |items| - 1;
      MembersAreUnder(items[..n], p, c);
      LastIsNotSlash(items[n].path);
      BelowChild(p, c, items[n].path);
    }
  }

  /**
   * A directory's entry carries the totals of everything below it, and is available exactly when some of that is not
   * missing.
   */
  lemma EntryMatchesContents(records: seq<FileRecord>, p: string, v: View, c: string)
    requires Shows(Named(records), p, v) && c in v.directories
    ensures var below := Under(Named(records), c);
      && v.directories[c].fileCount == |below| > 0 && v.directories[c].size == SizeOf(below)
      && (v.directories[c].available <==> exists i | i in below :: i.record.missingAt.None?)
  {
    NamedAreNormal(records);
    assert EntryIs(Named(records), p, v.directories, c);
    MembersAreUnder(Named(records), p, c);
    AnyPresentMeans(Under(Named(records), c));
  }

  lemma {:induction false} NamedMeans(records: seq<FileRecord>, i: Item)
    ensures i in Named(records) <==>
      i.path != "" && i.record in records && Normalize(i.record.relativePath) == Ok(i.path)
  {
    if records != [] {
      var n := |records| - 1;
      NamedMeans(records[..n], i);
      Snoc(records);
    }
  }

  /** A list of some of the items, each as often as it is there. */
  lemma {:induction false} FilteredMean(items: seq<Item>, p: string, i: Item)
    ensures multiset(Under(items, p))[i] == if Prefix(p) < i.path then multiset(items)[i] else 0
    ensures multiset(Direct(items, p))[i] == if IsDirect(p, i) then multiset(items)[i] else 0
  {
    if items != [] {
      var n := |items| - 1;
      FilteredMean(items[..n], p, i);
      assert items == items[..n] + [items[n]];
    }
  }

  /** A file is listed at exactly one level: that of its parent. */
  lemma DirectExactlyWhen(p: string, i: Item)
    requires (p == "" || NormalPath(p)) && NormalPath(i.path)
    ensures IsDirect(p, i) <==> Parent(i.path) == p
  {
    if Parent(i.path) == p {
      ChildrenAreDirect(i.path);
    }
    if IsDirect(p, i) {
      DirectAreChildren(p, i.path);
    }
  }

  lemma ParentAndBase(s: string)
    requires NormalPath(s)
    ensures s == Prefix(Parent(s)) + Base(s) && Normal(Base(s)) && (Parent(s) == "" || NormalPath(Parent(s)))
  {
    NormalBase(s);
    JoinNormal(Parent(s), Base(s));
  }

  lemma ChildrenAreDirect(s: string)
    requires NormalPath(s)
    ensures StrictlyBelow(Parent(s), s) && ChildOf(Parent(s), s).None?
  {
    ParentAndBase(s);
    assert s[|Prefix(Parent(s))|..] == Base(s);
    NoSlashNoChild(Base(s));
  }

  lemma DirectAreChildren(p: string, s: string)
    requires (p == "" || NormalPath(p)) && NormalPath(s) && StrictlyBelow(p, s) && ChildOf(p, s).None?
    ensures Parent(s) == p
  {
    var t := Tail(p, s);
    assert s == Prefix(p) + t && FirstSlash(t) == |t| && t[..|t|] == t;
    TailIsNormal(p, t);
    SplitOfPart(t, '/');
    assert t in Split(t, '/');
    JoinNormal(p, t);
  }

  lemma NoSlashNoChild(t: string)
    requires '/' !in t
    ensures FirstSlash(t) == |t|
  {}

  lemma LongerIsNormal(c: string, s: string)
    requires c + "/" <= s && NormalPath(s)
    ensures NormalPath(c) && c + "/" < s
  {
    var rest := s[|c| + 1..];
    assert s == c + "/" + rest;
    SplitConcat(c, rest);
    assert forall x | x in Split(c, '/') :: x in Split(s, '/');
    LastChar(s);
  }

  lemma {:induction false} HasMember(items: seq<Item>, p: string, c: string, i: Item)
    requires i in items && ChildOf(p, i.path) == Some(c)
    ensures Members(items, p, c) != []
  {
    var n := |items| - 1;
    if i in items[..n] {
      HasMember(items[..n], p, c, i);
    }
  }

  lemma ShownThrough(p: string, c: string, s: string)
    requires (p == "" || NormalPath(p)) && NormalPath(s) && ChildOf(p, s) == Some(c)
    ensures Parent(c) == p && c + "/" <= s && |Prefix(p)| <= |c| && c[|Prefix(p)|..] == Base(c)
  {
    ChildIsNormal(p, s);
    LastChar(s);
    BelowChild(p, c, s);
    ParentAndBase(c);
  }

  lemma ReachesThrough(c: string, s: string)
    requires NormalPath(s) && c + "/" <= s
    ensures ChildOf(Parent(c), s) == Some(c)
  {
    LongerIsNormal(c, s);
    ParentAndBase(c);
    LastChar(s);
    assert c[|Prefix(Parent(c))|..] == Base(c);
    BelowChild(Parent(c), c, s);
  }

  /** A directory is shown exactly when it lies directly in the one browsed and some record lies below it. */
  lemma DirectoryExactlyWhen(records: seq<FileRecord>, p: string, v: View, c: string)
    requires (p == "" || NormalPath(p)) && Shows(Named(records), p, v)
    ensures c in v.directories <==> Parent(c) == p && exists i | i in Named(records) :: c + "/" <= i.path
    ensures c in v.directories ==> v.directories[c].name == Base(c) && v.directories[c].path == c
  {
    var items := Named(records);
    NamedAreNormal(records);
    assert EntryIs(items, p, v.directories, c);
    if c in v.directories {
      var i := MemberExists(items, p, c);
      ShownThrough(p, c, i.path);
    }
    if Parent(c) == p && exists i | i in items :: c + "/" <= i.path {
      var i :| i in items && c + "/" <= i.path;
      NameableIn(items, i);
      ReachesThrough(c, i.path);
      HasMember(items, p, c, i);
    }
  }

  lemma {:induction false} NameableIn(items: seq<Item>, i: Item)
    requires AllNamed(items) && i in items
    ensures Nameable(i.path)
  {
    var n := |items| - 1;
    if i in items[..n] {
      NameableIn(items[..n], i);
    }
  }

  /**
   * The files shown are those of the records that lie directly in the directory browsed, each as often as there is a
   * record of it.
   */
  lemma FilesExactlyWhen(records: seq<FileRecord>, p: string, v: View, i: Item)
    requires (p == "" || NormalPath(p)) && Shows(Named(records), p, v)
    ensures multiset(v.files)[i] == if Parent(i.path) == p then multiset(Named(records))[i] else 0
  {
    NamedAreNormal(records);
    FilteredMean(Named(records), p, i);
    if i in Named(records) {
      NameableIn(Named(records), i);
      DirectExactlyWhen(p, i);
    }
  }

  /** The entry equals the totals found by browsing into the directory. */
  lemma EntryMatchesNextLevel(records: seq<FileRecord>, p: string, v: View, c: string, inner: View)
    requires Shows(Named(records), p, v) && c in v.directories && Shows(Named(records), c, inner)
    ensures v.directories[c].fileCount == Sum(Counts(inner.directories)) + |inner.files|
    ensures v.directories[c].size == Sum(Sizes(inner.directories)) + SizeOf(inner.files)
  {
    EntryMatchesContents(records, p, v, c);
  }

  lemma {:induction false} MemberExists(items: seq<Item>, p: string, c: string) returns (i: Item)
    requires Members(items, p, c) != [] && AllNamed(items)
    ensures i in items && Nameable(i.path) && ChildOf(p, i.path) == Some(c)
  {
    var n := |items| - 1;
    if ChildOf(p, items[n].path) == Some(c) {
      i := items[n];
    } else {
      i := MemberExists(items[..n], p, c);
    }
  }

  /** Asking for an entry's path lands at that entry exactly when the path has no blank at either end. */
  lemma BrowsingIntoLandsExactlyWhen(records: seq<FileRecord>, p: string, v: View, c: string)
    requires (p == "" || NormalPath(p)) && Shows(Named(records), p, v) && c in v.directories
    ensures c != "" && (Normalize(c) == Ok(c) <==> !Blank(c[0]) && !Blank(c[|c| - 1]))
    ensures Parent(c) == p
  {
    NamedAreNormal(records);
    assert EntryIs(Named(records), p, v.directories, c);
    var i := MemberExists(Named(records), p, c);
    ChildIsNormal(p, i.path);
    NormalizeIsIdentityWhen(c);
  }

  /** Such entries occur: browsing the root over a file `a /b` shows a directory whose path leads to `a` instead. */
  lemma BlankEntryLandsElsewhere(r: FileRecord, v: View)
    requires r.relativePath == "a /b" && Shows(Named([r]), "", v)
    ensures "a " in v.directories && Normalize("a ") == Ok("a")
  {
    InnerBlankStays();
    EdgeBlankGoes();
    BlankItem(r);
    assert EntryIs(Named([r]), "", v.directories, "a ");
  }

  lemma BlankItem(r: FileRecord)
    requires r.relativePath == "a /b" && Normalize("a /b") == Ok("a /b")
    ensures Members(Named([r]), "", "a ") != []
  {
    var item := Item("a /b", r);
    NamedNext([r], 0);
    assert [r][..1] == [r] && [r][..0] == [] && Named([]) == [];
    assert Named([r]) == [item];
    BlankChild();
    MembersSnoc([], "", "a ", item);
    assert [] + [item] == [item];
  }

  lemma BlankChild()
    ensures ChildOf("", "a /b") == Some("a ")
  {
    var t := Tail("", "a /b");
    assert t == "a /b";
    FirstSlashIs(t, 2);
    assert t[..2] == "a " && Prefix("") + "a " == "a " && StrictlyBelow("", "a /b");
  }

  lemma InnerBlankStays()
    ensures Normalize("a /b") == Ok("a /b")
  {
    SplitAtSeparator("a ", "b", '/');
    SplitOfPart("b", '/');
    assert "a /b" == "a " + ['/'] + "b";
    NormalizeIsIdentityWhen("a /b");
  }

  lemma EdgeBlankGoes()
    ensures Normalize("a ") == Ok("a")
  {
    var blank := c => Blank(c);
    assert Slashes("a ") == "a " && TrimLeft("a ", blank) == "a ";
    assert "a "[..1] == "a" && TrimRight("a ", blank) == TrimRight("a", blank) == "a";
    SplitOfPart("a", '/');
    NormalPathIsClean("a");
  }
}
