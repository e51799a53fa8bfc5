/**
 * The directory walk of a folder scan: which files it admits, and which known paths it protects from being
 * marked missing.  The pruned walk is compared with the full listing of the tree.
 */
module FolderWalk {
  import opened Wrappers
  import opened PathText

  datatype Info = Info(size: int, modTime: int, fingerprint: string)

  /** A file system tree.  `info` is absent when the file cannot be examined; an unreadable directory lists nothing. */
  datatype Entry =
    | File(name: string, info: Option<Info>)
    | Special(name: string)
    | Dir(name: string, readable: bool, children: seq<Entry>)

  /** An entry and its slash-separated path below the scan root; the root itself is "". */
  datatype Item = Item(rel: string, entry: Entry)

  datatype Filter = Filter(keywords: seq<string>, maxDepth: int)

  predicate NamesOk(e: Entry) {
    e.Dir? && e.readable ==>
      DistinctNames(e.children) && forall c | c in e.children :: Normal(c.name) && NamesOk(c)
  }

  predicate DistinctNames(es: seq<Entry>) {
    forall i, j | 0 <= i < j < |es| :: es[i].name != es[j].name
  }

  function Rel(parent: string, name: string): string {
    if parent == "" then name else parent + "/" + name
  }

  // ---- keywords and depth

  predicate Contains(s: string, keyword: string) {
    keyword <= s || (s != "" && Contains(s[1..], keyword))
  }

  /** Some keyword occurs in the path or in its last segment. */
  predicate Matches(rel: string, keywords: seq<string>) {
    keywords != [] && (Contains(rel, keywords[0]) || Contains(Base(rel), keywords[0]) || Matches(rel, keywords[1..]))
  }

  function Depth(rel: string): nat {
    if rel == "" then 0 else |Split(rel, '/')|
  }

  predicate TooDeep(rel: string, f: Filter) {
    f.maxDepth > 0 && Depth(rel) > f.maxDepth
  }

  predicate Excluded(rel: string, f: Filter) {
    rel != "" && (Matches(rel, f.keywords) || TooDeep(rel, f))
  }

  /** `p` lies strictly below directory `rel`. */
  predicate Below(p: string, rel: string) {
    p != "" && (rel == "" || rel + "/" <= p)
  }

  lemma {:induction false} ContainsExtends(s: string, t: string, keyword: string)
    requires Contains(s, keyword) && s <= t
    ensures Contains(t, keyword)
  {
    if !(keyword <= s) {
      ContainsExtends(s[1..], t[1..], keyword);
    }
  }

  lemma {:induction false} SuffixIsContained(s: string, n: nat, keyword: string)
    requires n <= |s| && Contains(s[n..], keyword)
    ensures Contains(s, keyword)
  {
    if n > 0 {
      assert s[1..][n - 1..] == s[n..];
      SuffixIsContained(s[1..], n - 1, keyword);
    }
  }

  lemma BaseIsSuffix(s: string)
    ensures |Base(s)| <= |s| && s[|s| - |Base(s)|..] == Base(s)
  {
    var parts := Split(s, '/');
    JoinOfSplit(s, '/');
    if |parts| > 1 {
      var init := parts[..|parts| - 1];
      JoinAppend(init, Base(s), '/');
      assert parts == init + [Base(s)];
    }
  }

  lemma BaseIsContained(s: string, keyword: string)
    requires Contains(Base(s), keyword)
    ensures Contains(s, keyword)
  {
    BaseIsSuffix(s);
    SuffixIsContained(s, |s| - |Base(s)|, keyword);
  }

  /** A keyword that excludes a directory excludes everything below it. */
  lemma {:induction false} MatchesExtends(rel: string, p: string, keywords: seq<string>)
    requires Matches(rel, keywords) && rel <= p
    ensures Matches(p, keywords)
  {
    var k := keywords[0];
    if Contains(rel, k) || Contains(Base(rel), k) {
      if !Contains(rel, k) {
        BaseIsContained(rel, k);
      }
      ContainsExtends(rel, p, k);
    } else {
      MatchesExtends(rel, p, keywords[1..]);
    }
  }

  /** Some keyword occurs in the path. */
  ghost predicate Mentions(rel: string, keywords: seq<string>) {
    exists k, a, b :: k in keywords && rel == a + k + b
  }

  lemma {:induction false} ContainsMeans(s: string, keyword: string)
    ensures Contains(s, keyword) <==> exists a, b :: s == a + keyword + b
  {
    if keyword <= s {
      assert s == "" + keyword + s[|keyword|..];
    } else if s != "" {
      ContainsMeans(s[1..], keyword);
      if Contains(s[1..], keyword) {
        var a, b :| s[1..] == a + keyword + b;
        assert s == ([s[0]] + a) + keyword + b;
      }
      if a, b :| s == a + keyword + b {
        assert a == "" ==> s == keyword + b;
        assert s[1..] == a[1..] + keyword + b;
      }
    } else {
      forall a: string, b: string ensures s != a + keyword + b {
        assert s == a + keyword + b ==> keyword == "";
      }
    }
  }

  /** The last segment adds nothing: a keyword matches exactly when it occurs in the path. */
  lemma {:induction false} MatchesMeans(rel: string, keywords: seq<string>)
    ensures Matches(rel, keywords) <==> Mentions(rel, keywords)
  {
    if keywords != [] {
      MatchesMeans(rel, keywords[1..]);
      ContainsMeans(rel, keywords[0]);
      if Contains(Base(rel), keywords[0]) {
        BaseIsContained(rel, keywords[0]);
      }
      if Mentions(rel, keywords[1..]) {
        var k, a, b :| k in keywords[1..] && rel == a + k + b;
        assert k in keywords;
      }
      if Mentions(rel, keywords) {
        var k, a, b :| k in keywords && rel == a + k + b;
        assert k == keywords[0] || k in keywords[1..];
      }
    }
  }

  lemma DepthOfChild(parent: string, name: string)
    requires '/' !in name && name != ""
    ensures Depth(Rel(parent, name)) == Depth(parent) + 1 && Rel(parent, name) != ""
  {
    if parent == "" {
      SplitOfPart(name, '/');
    } else {
      var parts := Split(parent, '/');
      JoinOfSplit(parent, '/');
      JoinAppend(parts, name, '/');
      SplitOfJoin(parts + [name], '/');
    }
  }

  // ---- the full listing and the pruned walk

  function All(e: Entry, rel: string): seq<Item>
    decreases e, 1
  {
    [Item(rel, e)] + if e.Dir? && e.readable then AllOf(e.children, rel) else []
  }

  function AllOf(es: seq<Entry>, rel: string): seq<Item>
    decreases es, 0
  {
    if es == [] then [] else All(es[0], Rel(rel, es[0].name)) + AllOf(es[1..], rel)
  }

  /** What the callback sees: directories that are excluded or unreadable are not entered. */
  function Walk(e: Entry, rel: string, f: Filter): seq<Item>
    decreases e, 1
  {
    [Item(rel, e)] + if e.Dir? && e.readable && !Excluded(rel, f) then WalkOf(e.children, rel, f) else []
  }

  function WalkOf(es: seq<Entry>, rel: string, f: Filter): seq<Item>
    decreases es, 0
  {
    if es == [] then [] else Walk(es[0], Rel(rel, es[0].name), f) + WalkOf(es[1..], rel, f)
  }

  function Select(items: seq<Item>, p: Item -> bool): seq<Item> {
    if items == [] then []
    else (if p(items[0]) then [items[0]] else []) + Select(items[1..], p)
  }

  lemma {:induction false} SelectConcat(a: seq<Item>, b: seq<Item>, p: Item -> bool)
    ensures Select(a + b, p) == Select(a, p) + Select(b, p)
  {
    if a == [] {
      assert a + b == b;
    } else {
      assert (a + b)[0] == a[0] && (a + b)[1..] == a[1..] + b;
      SelectConcat(a[1..], b, p);
      var head := if p(a[0]) then [a[0]] else [];
      assert head + (Select(a[1..], p) + Select(b, p)) == (head + Select(a[1..], p)) + Select(b, p);
    }
  }

  predicate IsFile(i: Item) {
    i.entry.File? && i.entry.info.Some?
  }

  /** The callback's own test: a readable regular file that matches no keyword. */
  predicate Admitted(i: Item, f: Filter) {
    IsFile(i) && !(i.rel != "" && Matches(i.rel, f.keywords))
  }

  /** The specification: judged by its own path alone, whatever the directories on the way. */
  predicate Passes(i: Item, f: Filter) {
    IsFile(i) && !(i.rel != "" && Matches(i.rel, f.keywords)) && (f.maxDepth <= 0 || Depth(i.rel) <= f.maxDepth + 1)
  }

  /** Everything listed below a directory has it as a path prefix and lies deeper. */
  lemma {:induction false} ListedBelow(es: seq<Entry>, rel: string, i: Item)
    requires (forall c | c in es :: Normal(c.name) && NamesOk(c)) && i in AllOf(es, rel)
    ensures Below(i.rel, rel) && Depth(i.rel) > Depth(rel)
    decreases es
  {
    var first := Rel(rel, es[0].name);
    DepthOfChild(rel, es[0].name);
    if i in All(es[0], first) {
      if i != Item(first, es[0]) {
        ListedBelow(es[0].children, first, i);
        assert rel == "" || rel + "/" <= first;
      }
    } else {
      ListedBelow(es[1..], rel, i);
    }
  }

  /** Nothing below an excluded directory passes. */
  lemma ExcludedHidesAll(rel: string, i: Item, f: Filter)
    requires Excluded(rel, f) && Below(i.rel, rel) && Depth(i.rel) > Depth(rel)
    ensures !Passes(i, f)
  {
    if Matches(rel, f.keywords) {
      MatchesExtends(rel, i.rel, f.keywords);
    }
  }

  lemma {:induction false} SelectNone(items: seq<Item>, p: Item -> bool)
    requires forall i | i in items :: !p(i)
    ensures Select(items, p) == []
  {
    if items != [] {
      SelectNone(items[1..], p);
    }
  }

  /**
   * The pruned walk admits exactly the files of the full listing whose own path passes, in the same order.
   */
  lemma {:induction false} WalkIsFilter(e: Entry, rel: string, f: Filter)
    requires NamesOk(e) && (f.maxDepth <= 0 || Depth(rel) <= f.maxDepth + 1)
    ensures Select(Walk(e, rel, f), i => Admitted(i, f)) == Select(All(e, rel), i => Passes(i, f))
    decreases e, 1
  {
    var adm, pass := (i: Item) => Admitted(i, f), (i: Item) => Passes(i, f);
    var head := [Item(rel, e)];
    if e.Dir? && e.readable {
      SelectConcat(head, AllOf(e.children, rel), pass);
      if Excluded(rel, f) {
        forall i | i in AllOf(e.children, rel) ensures !pass(i) {
          ListedBelow(e.children, rel, i);
          ExcludedHidesAll(rel, i, f);
        }
        SelectNone(AllOf(e.children, rel), pass);
      } else {
        SelectConcat(head, WalkOf(e.children, rel, f), adm);
        WalkOfIsFilter(e.children, rel, f);
      }
    }
  }

  lemma {:induction false} WalkOfIsFilter(es: seq<Entry>, rel: string, f: Filter)
    requires (forall c | c in es :: Normal(c.name) && NamesOk(c)) && !Excluded(rel, f)
    ensures Select(WalkOf(es, rel, f), i => Admitted(i, f)) == Select(AllOf(es, rel), i => Passes(i, f))
    decreases es, 0
  {
    if es != [] {
      var first := Rel(rel, es[0].name);
      DepthOfChild(rel, es[0].name);
      SelectConcat(Walk(es[0], first, f), WalkOf(es[1..], rel, f), i => Admitted(i, f));
      SelectConcat(All(es[0], first), AllOf(es[1..], rel), i => Passes(i, f));
      WalkIsFilter(es[0], first, f);
      WalkOfIsFilter(es[1..], rel, f);
    }
  }

  // ---- what the walk protects

  /** An entry the walk never saw lies below an excluded directory it did see. */
  lemma {:induction false} UnseenIsExcluded(e: Entry, rel: string, f: Filter, i: Item)
    requires NamesOk(e) && i in All(e, rel)
    ensures i in Walk(e, rel, f) || exists d :: ExcludedIn(d, Walk(e, rel, f), f) && Below(i.rel, d.rel)
    decreases e, 1
  {
    if i != Item(rel, e) {
      if Excluded(rel, f) {
        ListedBelow(e.children, rel, i);
        assert ExcludedIn(Item(rel, e), Walk(e, rel, f), f);
      } else {
        UnseenOfIsExcluded(e.children, rel, f, i);
        assert forall d :: ExcludedIn(d, WalkOf(e.children, rel, f), f) ==> ExcludedIn(d, Walk(e, rel, f), f);
      }
    }
  }

  lemma {:induction false} UnseenOfIsExcluded(es: seq<Entry>, rel: string, f: Filter, i: Item)
    requires (forall c | c in es :: Normal(c.name) && NamesOk(c)) && i in AllOf(es, rel)
    ensures i in WalkOf(es, rel, f) || exists d :: ExcludedIn(d, WalkOf(es, rel, f), f) && Below(i.rel, d.rel)
    decreases es, 0
  {
    var first := Rel(rel, es[0].name);
    var a, b := Walk(es[0], first, f), WalkOf(es[1..], rel, f);
    assert forall d :: ExcludedIn(d, a, f) || ExcludedIn(d, b, f) ==> ExcludedIn(d, a + b, f);
    if i in All(es[0], first) {
      UnseenIsExcluded(es[0], first, f, i);
    } else {
      UnseenOfIsExcluded(es[1..], rel, f, i);
    }
  }

  predicate ExcludedIn(d: Item, items: seq<Item>, f: Filter) {
    d in items && d.entry.Dir? && Excluded(d.rel, f)
  }

  lemma {:induction false} WalkIsListed(e: Entry, rel: string, f: Filter, i: Item)
    requires i in Walk(e, rel, f)
    ensures i in All(e, rel)
    decreases e, 1
  {
    if i != Item(rel, e) {
      WalkOfIsListed(e.children, rel, f, i);
    }
  }

  lemma {:induction false} WalkOfIsListed(es: seq<Entry>, rel: string, f: Filter, i: Item)
    requires i in WalkOf(es, rel, f)
    ensures i in AllOf(es, rel)
    decreases es, 0
  {
    if i in Walk(es[0], Rel(rel, es[0].name), f) {
      WalkIsListed(es[0], Rel(rel, es[0].name), f, i);
    } else {
      WalkOfIsListed(es[1..], rel, f, i);
    }
  }

  // ---- the walk visits every path once

  ghost predicate DistinctRels(items: seq<Item>) {
    forall i, j | 0 <= i < j < |items| :: items[i].rel != items[j].rel
  }

  predicate AtOrBelow(p: string, rel: string) {
    p == rel || Below(p, rel)
  }

  lemma SiblingsApart(parent: string, a: string, b: string, p: string)
    requires Normal(a) && Normal(b) && AtOrBelow(p, Rel(parent, a)) && AtOrBelow(p, Rel(parent, b))
    ensures a == b
  {
    var x, y := Rel(parent, a), Rel(parent, b);
    assert x <= p && y <= p;
    var o := |x| - |a|;
    assert x[o..] == a && y[o..] == b && |y| - |b| == o;
    assert |p| > |x| ==> p[|x|] == '/';
    assert |p| > |y| ==> p[|y|] == '/';
    if |a| == |b| {
      assert x == p[..|x|] == y;
    }
  }

  lemma WalkedBelow(e: Entry, rel: string, f: Filter, i: Item)
    requires NamesOk(e) && i in Walk(e, rel, f)
    ensures AtOrBelow(i.rel, rel)
  {
    WalkIsListed(e, rel, f, i);
    if i != Item(rel, e) {
      ListedBelow(e.children, rel, i);
    }
  }

  lemma {:induction false} WalkOfChild(es: seq<Entry>, rel: string, f: Filter, i: Item) returns (k: nat)
    requires i in WalkOf(es, rel, f)
    ensures k < |es| && i in Walk(es[k], Rel(rel, es[k].name), f)
    decreases es
  {
    if i in Walk(es[0], Rel(rel, es[0].name), f) {
      k := 0;
    } else {
      k := WalkOfChild(es[1..], rel, f, i);
      k := k + 1;
    }
  }

  /** No path is visited twice. */
  lemma {:induction false} WalkIsDistinct(e: Entry, rel: string, f: Filter)
    requires NamesOk(e)
    ensures DistinctRels(Walk(e, rel, f))
    decreases e, 1
  {
    if e.Dir? && e.readable && !Excluded(rel, f) {
      WalkOfIsDistinct(e.children, rel, f);
      forall i | i in WalkOf(e.children, rel, f) ensures i.rel != rel {
        WalkOfIsListed(e.children, rel, f, i);
        ListedBelow(e.children, rel, i);
      }
    }
  }

  lemma {:induction false} WalkOfIsDistinct(es: seq<Entry>, rel: string, f: Filter)
    requires (forall c | c in es :: Normal(c.name) && NamesOk(c)) && DistinctNames(es)
    ensures DistinctRels(WalkOf(es, rel, f))
    decreases es, 0
  {
    if es != [] {
      var first, rest := Walk(es[0], Rel(rel, es[0].name), f), WalkOf(es[1..], rel, f);
      WalkIsDistinct(es[0], Rel(rel, es[0].name), f);
      WalkOfIsDistinct(es[1..], rel, f);
      forall i, j | i in first && j in rest ensures i.rel != j.rel {
        if i.rel == j.rel {
          var k := WalkOfChild(es[1..], rel, f, j);
          WalkedBelow(es[0], Rel(rel, es[0].name), f, i);
          WalkedBelow(es[1..][k], Rel(rel, es[1..][k].name), f, j);
          SiblingsApart(rel, es[0].name, es[k + 1].name, i.rel);
        }
      }
    }
  }

  lemma {:induction false} SelectMember(items: seq<Item>, p: Item -> bool, i: Item)
    ensures i in Select(items, p) <==> i in items && p(i)
  {
    if items != [] {
      SelectMember(items[1..], p, i);
    }
  }

  /** A listed file passes exactly when the walk visits and admits it. */
  lemma PassesIffAdmitted(e: Entry, f: Filter, i: Item)
    requires NamesOk(e)
    ensures i in All(e, "") && Passes(i, f) <==> i in Walk(e, "", f) && Admitted(i, f)
  {
    WalkIsFilter(e, "", f);
    SelectMember(All(e, ""), i => Passes(i, f), i);
    SelectMember(Walk(e, "", f), i => Admitted(i, f), i);
  }

  // ---- what the walk protects, as local paths

  /** The local path of an entry; `prefix` is the scan root without a trailing slash. */
  function Local(prefix: string, rel: string): string {
    prefix + "/" + rel
  }

  predicate Within(p: string, root: string) {
    p == root || root + "/" <= p
  }

  /** The callback records the path of an admitted file and of any non-directory a keyword filters out. */
  predicate RecordsPath(i: Item, f: Filter) {
    Admitted(i, f) || (!i.entry.Dir? && i.rel != "" && Matches(i.rel, f.keywords))
  }

  /** The scan keeps `p` from being marked missing: seen, or inside an excluded directory. */
  ghost predicate ProtectedByWalk(items: seq<Item>, f: Filter, prefix: string, p: string) {
    (exists i :: i in items && RecordsPath(i, f) && Local(prefix, i.rel) == p)
    || (exists d :: ExcludedIn(d, items, f) && Within(p, Local(prefix, d.rel)))
  }

  /** For entries of one tree, being within means that the segments of the one begin with those of the other. */
  lemma WithinMeansSegments(prefix: string, a: string, b: string)
    requires NormalPath(a) && NormalPath(b)
    ensures Within(Local(prefix, a), Local(prefix, b)) <==> Split(b, '/') <= Split(a, '/')
  {
    var n := |prefix| + 1;
    assert Local(prefix, a)[n..] == a && Local(prefix, b)[n..] == b;
    assert Local(prefix, b) + "/" == prefix + "/" + (b + "/");
    assert (prefix + "/" + (b + "/"))[n..] == b + "/";
    if b + "/" <= a {
      var rest := a[|b| + 1..];
      assert a == b + "/" + rest;
      SplitConcat(b, rest);
    }
    if Split(b, '/') <= Split(a, '/') {
      JoinOfSplit(a, '/');
      JoinOfSplit(b, '/');
      SegmentsExtend(Split(b, '/'), Split(a, '/'));
    }
  }

  lemma {:induction false} SegmentsExtend(p: seq<string>, q: seq<string>)
    requires p != [] && p <= q
    ensures p == q || Join(p, '/') + "/" <= Join(q, '/')
  {
    if |p| < |q| {
      if |p| == 1 {
        assert p[0] == q[0];
      } else {
        SegmentsExtend(p[1..], q[1..]);
      }
    }
  }

  lemma WithinExcluded(prefix: string, p: string, rel: string, d: string)
    requires d != "" && Below(rel, d) && Within(p, Local(prefix, rel))
    ensures Within(p, Local(prefix, d))
  {
    var a, b := Local(prefix, d), Local(prefix, rel);
    assert a + "/" == prefix + "/" + (d + "/");
    assert a + "/" <= b;
    assert b <= p;
  }

  /** The pruned walk protects exactly the paths that the full listing of the tree protects. */
  lemma ProtectionIsThatOfTheTree(e: Entry, f: Filter, prefix: string, p: string)
    requires NamesOk(e)
    ensures ProtectedByWalk(Walk(e, "", f), f, prefix, p) <==> ProtectedByWalk(All(e, ""), f, prefix, p)
  {
    var walk, all := Walk(e, "", f), All(e, "");
    if ProtectedByWalk(walk, f, prefix, p) {
      if i :| i in walk && RecordsPath(i, f) && Local(prefix, i.rel) == p {
        WalkIsListed(e, "", f, i);
      } else {
        var d :| ExcludedIn(d, walk, f) && Within(p, Local(prefix, d.rel));
        WalkIsListed(e, "", f, d);
        assert ExcludedIn(d, all, f);
      }
    }
    if ProtectedByWalk(all, f, prefix, p) {
      var i :| i in all && Within(p, Local(prefix, i.rel)) &&
        ((RecordsPath(i, f) && Local(prefix, i.rel) == p) || ExcludedIn(i, all, f));
      UnseenIsExcluded(e, "", f, i);
      if i in walk {
        assert ExcludedIn(i, all, f) ==> ExcludedIn(i, walk, f);
      } else {
        var d :| ExcludedIn(d, walk, f) && Below(i.rel, d.rel);
        WithinExcluded(prefix, p, i.rel, d.rel);
      }
    }
  }
}
