/** Text paths: splitting, joining and cleaning as Go's `strings` and `path` packages do, on one-byte characters. */
module PathText {
  import opened Wrappers

  // ---- splitting and joining on a separator

  function Split(s: string, sep: char): (parts: seq<string>)
    ensures parts != []
    ensures forall p | p in parts :: sep !in p
  {
    if s == [] then [""]
    else
      var rest := Split(s[1..], sep);
      if s[0] == sep then [""] + rest
      else
        assert rest[0] in rest && forall p | p in rest[1..] :: p in rest;
        [[s[0]] + rest[0]] + rest[1..]
  }

  function Join(parts: seq<string>, sep: char): string
    requires parts != []
  {
    if |parts| == 1 then parts[0] else parts[0] + [sep] + Join(parts[1..], sep)
  }

  lemma {:induction false} JoinOfSplit(s: string, sep: char)
    ensures Join(Split(s, sep), sep) == s
  {
    if s != [] {
      JoinOfSplit(s[1..], sep);
      JoinPrepend(Split(s[1..], sep), s[0], sep);
      assert s == [s[0]] + s[1..];
    }
  }

  /**
   * Prepending one character to the text: a new empty part for a separator, else one more character in the first part.
   */
  lemma JoinPrepend(parts: seq<string>, c: char, sep: char)
    requires parts != []
    ensures Join([""] + parts, sep) == [sep] + Join(parts, sep)
    ensures Join([[c] + parts[0]] + parts[1..], sep) == [c] + Join(parts, sep)
  {
    assert ([""] + parts)[1..] == parts;
    var longer := [[c] + parts[0]] + parts[1..];
    assert longer[1..] == parts[1..];
    if |parts| > 1 {
      var tail := Join(parts[1..], sep);
      assert ([c] + parts[0]) + [sep] + tail == [c] + (parts[0] + [sep] + tail);
    }
  }

  lemma {:induction false} SplitOfPart(s: string, sep: char)
    requires sep !in s
    ensures Split(s, sep) == [s]
  {
    if s != [] {
      SplitOfPart(s[1..], sep);
      assert s == [s[0]] + s[1..];
    }
  }

  lemma {:induction false} SplitAtSeparator(s: string, t: string, sep: char)
    requires sep !in s
    ensures Split(s + [sep] + t, sep) == [s] + Split(t, sep)
  {
    if s == [] {
      assert (s + [sep] + t)[1..] == t;
    } else {
      var whole := s + [sep] + t;
      assert whole[1..] == s[1..] + [sep] + t;
      SplitAtSeparator(s[1..], t, sep);
      assert s == [s[0]] + s[1..];
    }
  }

  lemma {:induction false} SplitOfJoin(parts: seq<string>, sep: char)
    requires parts != [] && forall p | p in parts :: sep !in p
    ensures Split(Join(parts, sep), sep) == parts
  {
    if |parts| == 1 {
      SplitOfPart(parts[0], sep);
    } else {
      SplitOfJoin(parts[1..], sep);
      SplitAtSeparator(parts[0], Join(parts[1..], sep), sep);
    }
  }

  /** Joining is injective on lists of separator-free parts. */
  lemma JoinIsInjective(a: seq<string>, b: seq<string>, sep: char)
    requires a != [] && b != [] && Join(a, sep) == Join(b, sep)
    requires (forall p | p in a :: sep !in p) && (forall p | p in b :: sep !in p)
    ensures a == b
  {
    SplitOfJoin(a, sep);
    SplitOfJoin(b, sep);
  }

  lemma {:induction false} JoinAppend(parts: seq<string>, last: string, sep: char)
    requires parts != []
    ensures Join(parts + [last], sep) == Join(parts, sep) + [sep] + last
  {
    if |parts| == 1 {
      assert (parts + [last])[1..] == [last];
    } else {
      assert (parts + [last])[1..] == parts[1..] + [last];
      JoinAppend(parts[1..], last, sep);
      assert parts[0] + [sep] + (Join(parts[1..], sep) + [sep] + last) ==
        (parts[0] + [sep] + Join(parts[1..], sep)) + [sep] + last;
    }
  }

  // ---- path.Clean

  /** A path segment that cleaning keeps. */
  predicate Normal(part: string) {
    part != "" && part != "." && part != ".." && '/' !in part
  }

  predicate AllNormal(parts: seq<string>) {
    forall p | p in parts :: Normal(p)
  }

  function CleanStep(stack: seq<string>, part: string, rooted: bool): seq<string> {
    if part == "" || part == "." then stack
    else if part == ".." then
      if stack != [] && stack[|stack| - 1] != ".." then stack[..|stack| - 1]
      else if rooted then stack
      else stack + [".."]
    else stack + [part]
  }

  function CleanParts(parts: seq<string>, rooted: bool): seq<string> {
    if parts == [] then []
    else CleanStep(CleanParts(parts[..|parts| - 1], rooted), parts[|parts| - 1], rooted)
  }

  function Clean(s: string): string {
    if s != "" && s[0] == '/' then
      var parts := CleanParts(Split(s[1..], '/'), true);
      if parts == [] then "/" else "/" + Join(parts, '/')
    else
      var parts := CleanParts(Split(s, '/'), false);
      if parts == [] then "." else Join(parts, '/')
  }

  lemma {:induction false} CleanKeepsNormal(parts: seq<string>, rooted: bool)
    requires AllNormal(parts)
    ensures CleanParts(parts, rooted) == parts
  {
    if parts != [] {
      CleanKeepsNormal(parts[..|parts| - 1], rooted);
      assert parts[|parts| - 1] in parts;
    }
  }

  /**
   * Cleaning yields leading ".." segments, none when rooted, followed by normal ones; and no character but those of the
   * input.
   */
  lemma {:induction false} CleanShape(parts: seq<string>, rooted: bool)
    requires forall p | p in parts :: '/' !in p
    ensures forall i | 0 <= i < |CleanParts(parts, rooted)| :: var p := CleanParts(parts, rooted)[i];
              p in parts && (Normal(p)
                || (!rooted && p == ".." && forall j | 0 <= j < i :: CleanParts(parts, rooted)[j] == ".."))
  {
    if parts != [] {
      var init, last := parts[..|parts| - 1], parts[|parts| - 1];
      CleanShape(init, rooted);
      assert last in parts;
      var stack := CleanParts(init, rooted);
      assert forall i | 0 <= i < |stack| :: stack[i] in parts;
      if last == ".." && stack != [] && stack[|stack| - 1] == ".." && !rooted {
        assert forall j | 0 <= j < |stack| :: stack[j] == "..";
      }
    }
  }

  // ---- the laws of cleaning: with the forms it leaves alone, they determine it

  lemma {:induction false} CleanExtends(a: seq<string>, a': seq<string>, b: seq<string>, rooted: bool)
    requires CleanParts(a, rooted) == CleanParts(a', rooted)
    ensures CleanParts(a + b, rooted) == CleanParts(a' + b, rooted)
  {
    if b == [] {
      assert a + b == a && a' + b == a';
    } else {
      var init, last := b[..|b| - 1], b[|b| - 1];
      CleanExtends(a, a', init, rooted);
      assert (a + b)[..|a + b| - 1] == a + init && (a' + b)[..|a' + b| - 1] == a' + init;
    }
  }

  lemma CleanSnoc(a: seq<string>, part: string, rooted: bool)
    ensures CleanParts(a + [part], rooted) == CleanStep(CleanParts(a, rooted), part, rooted)
  {
    assert (a + [part])[..|a|] == a;
  }

  /** ".." takes away the segment before it; empty segments and "." go; nothing is above the root. */
  lemma CleanPartsLaws(a: seq<string>, name: string, b: seq<string>, rooted: bool)
    requires Normal(name)
    ensures CleanParts(a + [name, ".."] + b, rooted) == CleanParts(a + b, rooted)
    ensures CleanParts(a + [""] + b, rooted) == CleanParts(a + ["."] + b, rooted) == CleanParts(a + b, rooted)
    ensures CleanParts([".."] + b, true) == CleanParts(b, true)
  {
    CleanSnoc(a, name, rooted);
    CleanSnoc(a + [name], "..", rooted);
    assert a + [name, ".."] == (a + [name]) + [".."];
    CleanExtends(a + [name, ".."], a, b, rooted);
    CleanSnoc(a, "", rooted);
    CleanSnoc(a, ".", rooted);
    CleanExtends(a + [""], a, b, rooted);
    CleanExtends(a + ["."], a, b, rooted);
    assert [".."][..0] == [];
    CleanExtends([".."], [], b, true);
    assert [] + b == b;
  }

  /** Leading ".." of a relative path, and normal segments after them, are left alone. */
  lemma {:induction false} CleanKeepsForm(parts: seq<string>, up: nat)
    requires up <= |parts| && forall i | 0 <= i < |parts| :: if i < up then parts[i] == ".." else Normal(parts[i])
    ensures CleanParts(parts, false) == parts
  {
    if parts != [] {
      var n := |parts| - 1;
      CleanKeepsForm(parts[..n], if up <= n then up else n);
      assert parts == parts[..n] + [parts[n]];
    }
  }

  /** The segments of a text that is followed by a slash, and whether the whole is then rooted. */
  function Stem(a: string): seq<string> {
    if a == "" then [] else Split(if a[0] == '/' then a[1..] else a, '/')
  }

  predicate Rooted(a: string) {
    a == "" || a[0] == '/'
  }

  function Rendered(parts: seq<string>, rooted: bool): string {
    if parts == [] then (if rooted then "/" else ".") else if rooted then "/" + Join(parts, '/') else Join(parts, '/')
  }

  lemma CleanBelow(a: string, b: string)
    ensures Clean(a + "/" + b) == Rendered(CleanParts(Stem(a) + Split(b, '/'), Rooted(a)), Rooted(a))
  {
    var s := a + "/" + b;
    if a == "" {
      assert s[1..] == b && [] + Split(b, '/') == Split(b, '/');
    } else if a[0] == '/' {
      assert s[1..] == a[1..] + "/" + b;
      SplitConcat(a[1..], b);
    } else {
      SplitConcat(a, b);
    }
  }

  lemma CleanBelowAgrees(a: string, b: string, b': string)
    requires CleanParts(Stem(a) + Split(b, '/'), Rooted(a)) == CleanParts(Stem(a) + Split(b', '/'), Rooted(a))
    ensures Clean(a + "/" + b) == Clean(a + "/" + b')
  {
    CleanBelow(a, b);
    CleanBelow(a, b');
  }

  lemma SplitSegment(name: string, b: string)
    requires '/' !in name
    ensures Split(name + "/" + b, '/') == [name] + Split(b, '/')
  {
    SplitConcat(name, b);
    SplitOfPart(name, '/');
  }

  /** A segment and the ".." after it may be left out, wherever they stand below a slash. */
  lemma CleanClimbs(a: string, name: string, b: string)
    requires Normal(name)
    ensures Clean(a + "/" + (name + "/" + (".." + "/" + b))) == Clean(a + "/" + b)
  {
    var up, q := ".." + "/" + b, Split(b, '/');
    SplitSegment(name, up);
    SplitSegment("..", b);
    ClimbsAway(Stem(a), name, q, Rooted(a));
    CleanBelowAgrees(a, name + "/" + up, b);
  }

  lemma ClimbsAway(a: seq<string>, name: string, q: seq<string>, rooted: bool)
    requires Normal(name)
    ensures CleanParts(a + ([name] + ([".."] + q)), rooted) == CleanParts(a + q, rooted)
  {
    assert a + ([name] + ([".."] + q)) == a + [name, ".."] + q;
    CleanPartsLaws(a, name, q, rooted);
  }

  /** An empty segment or "." may be left out, wherever it stands below a slash. */
  lemma CleanDrops(a: string, part: string, b: string)
    requires part == "" || part == "."
    ensures Clean(a + "/" + (part + "/" + b)) == Clean(a + "/" + b)
  {
    SplitSegment(part, b);
    DropsOut(Stem(a), part, Split(b, '/'), Rooted(a));
    CleanBelowAgrees(a, part + "/" + b, b);
  }

  lemma DropsOut(a: seq<string>, part: string, q: seq<string>, rooted: bool)
    requires part == "" || part == "."
    ensures CleanParts(a + ([part] + q), rooted) == CleanParts(a + q, rooted)
  {
    assert a + ([part] + q) == a + [part] + q;
    CleanPartsLaws(a, "x", q, rooted);
  }

  /** There is nothing above the root. */
  lemma CleanStopsAtRoot(b: string)
    ensures Clean("" + "/" + (".." + "/" + b)) == Clean("" + "/" + b)
  {
    var q := Split(b, '/');
    SplitSegment("..", b);
    assert Stem("") == [] && [] + ([".."] + q) == [".."] + q && [] + q == q;
    CleanPartsLaws([], "x", q, true);
    CleanBelowAgrees("", ".." + "/" + b, b);
  }

  // ---- relative paths in normal form

  /** A non-empty path that cleaning leaves alone and that stays below its root. */
  ghost predicate NormalPath(s: string) {
    AllNormal(Split(s, '/'))
  }

  lemma NormalPathIsClean(s: string)
    requires NormalPath(s)
    ensures Clean(s) == s && s != "" && s != "." && s != ".." && s[0] != '/'
  {
    var parts := Split(s, '/');
    CleanKeepsNormal(parts, false);
    JoinOfSplit(s, '/');
    assert parts[0] in parts;
    FirstChar(s, '/');
    SplitOfPart("", '/');
    SplitOfPart(".", '/');
    SplitOfPart("..", '/');
  }

  lemma FirstChar(s: string, sep: char)
    ensures s != "" && s[0] == sep ==> Split(s, sep)[0] == ""
  {}

  lemma NormalFromParts(parts: seq<string>)
    requires parts != [] && AllNormal(parts)
    ensures Split(Join(parts, '/'), '/') == parts && NormalPath(Join(parts, '/'))
  {
    assert forall p | p in parts :: '/' !in p;
    SplitOfJoin(parts, '/');
  }

  /** The last segment. */
  function Base(s: string): string {
    var parts := Split(s, '/');
    parts[|parts| - 1]
  }

  /** The path above, or "" at the top level (`path.Dir` with "." read as ""). */
  function Parent(s: string): string {
    var parts := Split(s, '/');
    if |parts| == 1 then "" else Join(parts[..|parts| - 1], '/')
  }

  /** `path.Join(directory, name)`. */
  function JoinPath(directory: string, name: string): string {
    if directory == "" then Clean(name) else Clean(directory + "/" + name)
  }

  /** Joining a normal directory (or the root) and a normal name: the name is the base, the directory the parent. */
  lemma JoinNormal(directory: string, name: string)
    requires directory == "" || NormalPath(directory)
    requires Normal(name)
    ensures var s := JoinPath(directory, name);
      && s == (if directory == "" then name else directory + "/" + name)
      && NormalPath(s) && Base(s) == name && Parent(s) == directory
  {
    if directory == "" {
      SplitOfPart(name, '/');
      NormalPathIsClean(name);
    } else {
      var parts := Split(directory, '/');
      JoinOfSplit(directory, '/');
      JoinAppend(parts, name, '/');
      assert directory + "/" + name == Join(parts + [name], '/');
      NormalFromParts(parts + [name]);
      NormalPathIsClean(directory + "/" + name);
      assert (parts + [name])[..|parts|] == parts;
    }
  }

  lemma NormalBase(s: string)
    requires NormalPath(s)
    ensures Normal(Base(s))
    ensures Parent(s) == "" || NormalPath(Parent(s))
    ensures s == JoinPath(Parent(s), Base(s))
  {
    var parts := Split(s, '/');
    JoinOfSplit(s, '/');
    assert parts[|parts| - 1] in parts;
    var init := parts[..|parts| - 1];
    if |parts| > 1 {
      assert AllNormal(init);
      NormalFromParts(init);
      assert init + [Base(s)] == parts;
      JoinAppend(init, Base(s), '/');
      assert s == Parent(s) + ['/'] + Base(s) == Parent(s) + "/" + Base(s);
      assert Parent(s) != "" by { NormalPathIsClean(Parent(s)); }
    } else {
      assert s == parts[0];
    }
    JoinNormal(Parent(s), Base(s));
  }

  /** Two normal paths joined by a slash. */
  lemma JoinedIsNormal(a: string, b: string)
    requires NormalPath(a) && NormalPath(b)
    ensures NormalPath(a + "/" + b)
  {
    var p, q := Split(a, '/'), Split(b, '/');
    JoinOfSplit(a, '/');
    JoinOfSplit(b, '/');
    SplitConcat(a, b);
    assert forall x | x in p + q :: x in p || x in q;
  }

  lemma {:induction false} SplitConcat(a: string, b: string)
    ensures Split(a + "/" + b, '/') == Split(a, '/') + Split(b, '/')
  {
    if a == "" {
      assert "" + "/" + b == "/" + b && ("/" + b)[1..] == b;
    } else {
      assert (a + "/" + b)[1..] == a[1..] + "/" + b;
      SplitConcat(a[1..], b);
    }
  }

  // ---- normalizeIndexPath

  predicate Blank(c: char) {
    c == ' ' || c == '\t' || c == '\n' || c == '\r' || c == 11 as char || c == 12 as char
  }

  function TrimLeft(s: string, drop: char -> bool): string {
    if s != "" && drop(s[0]) then TrimLeft(s[1..], drop) else s
  }

  function TrimRight(s: string, drop: char -> bool): string {
    if s != "" && drop(s[|s| - 1]) then TrimRight(s[..|s| - 1], drop) else s
  }

  function Trim(s: string, drop: char -> bool): string {
    TrimRight(TrimLeft(s, drop), drop)
  }

  function Slashes(s: string): string {
    seq(|s|, i requires 0 <= i < |s| => if s[i] == '\\' then '/' else s[i])
  }

  datatype PathError = Traversal | TooLong

  predicate Escapes(s: string) {
    s == ".." || "../" <= s
  }

  function Normalize(value: string): Result<string, PathError> {
    var v := Trim(Trim(Slashes(value), c => Blank(c)), c => c == '/');
    if v == "" then Ok("")
    else
      var cleaned := Clean(v);
      if cleaned == "." then Ok("")
      else if Escapes(cleaned) then Err(Traversal)
      else if |cleaned| > 768 then Err(TooLong)
      else Ok(cleaned)
  }

  lemma {:induction false} TrimLeftKeeps(s: string, drop: char -> bool)
    ensures var t := TrimLeft(s, drop); |t| <= |s| && t == s[|s| - |t|..] && (t != "" ==> !drop(t[0]))
  {
    if s != "" && drop(s[0]) {
      TrimLeftKeeps(s[1..], drop);
    }
  }

  lemma {:induction false} TrimRightKeeps(s: string, drop: char -> bool)
    ensures var t := TrimRight(s, drop); |t| <= |s| && t == s[..|t|] && (t != "" ==> !drop(t[|t| - 1]))
  {
    if s != "" && drop(s[|s| - 1]) {
      TrimRightKeeps(s[..|s| - 1], drop);
    }
  }

  lemma TrimKeeps(s: string, drop: char -> bool)
    ensures var t := Trim(s, drop);
      && |t| <= |s| && (|t| == |s| ==> t == s) && (forall c | c in t :: c in s)
      && (t != "" ==> !drop(t[0]) && !drop(t[|t| - 1]))
  {
    TrimLeftKeeps(s, drop);
    TrimRightKeeps(TrimLeft(s, drop), drop);
  }

  lemma TrimIsIdentity(s: string, drop: char -> bool)
    ensures Trim(s, drop) == s <==> (s == "" || (!drop(s[0]) && !drop(s[|s| - 1])))
  {
    TrimKeeps(s, drop);
  }

  /** A cleaned relative path that does not escape is "." or in normal form. */
  lemma CleanIsNormal(v: string)
    requires v != "" && v[0] != '/'
    ensures var cleaned := Clean(v); cleaned == "." || Escapes(cleaned) || NormalPath(cleaned)
    ensures forall c | c in Clean(v) :: c in v || c == '.' || c == '/'
  {
    var parts := Split(v, '/');
    var kept := CleanParts(parts, false);
    CleanShape(parts, false);
    JoinOfSplit(v, '/');
    if kept != [] {
      assert forall p | p in kept :: p in parts;
      if kept[0] == ".." {
        assert Join(kept, '/')[..2] == "..";
        if |kept| > 1 {
          assert Join(kept, '/')[2] == '/';
        }
      } else {
        assert forall i | 0 <= i < |kept| :: Normal(kept[i]);
        NormalFromParts(kept);
      }
      JoinChars(kept, parts, v);
    }
  }

  lemma {:induction false} JoinChars(kept: seq<string>, parts: seq<string>, v: string)
    requires kept != [] && (forall p | p in kept :: p in parts) && parts == Split(v, '/')
    ensures forall c | c in Join(kept, '/') :: c in v || c == '/'
  {
    assert kept[0] in kept;
    forall c | c in kept[0] ensures c in v {
      PartChars(v, kept[0], c);
    }
    if |kept| > 1 {
      assert forall p | p in kept[1..] :: p in kept;
      JoinChars(kept[1..], parts, v);
    }
  }

  lemma {:induction false} PartChars(v: string, part: string, c: char)
    requires part in Split(v, '/') && c in part
    ensures c in v
  {
    if v != "" {
      var rest := Split(v[1..], '/');
      if v[0] == '/' {
        PartChars(v[1..], part, c);
      } else if part == [v[0]] + rest[0] {
        if c != v[0] {
          assert rest[0] in rest;
          PartChars(v[1..], rest[0], c);
        }
      } else {
        assert part in rest;
        PartChars(v[1..], part, c);
      }
    }
  }

  /** Normalization yields the root or a path in normal form, without back-slashes and at most 768 long. */
  lemma NormalizeYieldsNormal(value: string)
    ensures Normalize(value).Ok? ==> var s := Normalize(value).value;
      s == "" || (NormalPath(s) && |s| <= 768 && '\\' !in s)
  {
    var spaced := Trim(Slashes(value), c => Blank(c));
    var v := Trim(spaced, c => c == '/');
    TrimKeeps(Slashes(value), c => Blank(c));
    TrimKeeps(spaced, c => c == '/');
    assert '\\' !in Slashes(value);
    if v != "" {
      CleanIsNormal(v);
    }
  }

  /** A path already in normal form survives normalization exactly when no blank stands at either end. */
  lemma NormalizeIsIdentityWhen(s: string)
    requires NormalPath(s) && |s| <= 768 && '\\' !in s
    ensures s != "" && (Normalize(s) == Ok(s) <==> !Blank(s[0]) && !Blank(s[|s| - 1]))
  {
    NormalPathIsClean(s);
    assert Slashes(s) == s;
    var blank := c => Blank(c);
    var slash := c => c == '/';
    TrimIsIdentity(s, blank);
    LastChar(s);
    if Trim(s, blank) == s {
      TrimIsIdentity(s, slash);
      NotEscaping(s);
    } else {
      TrimKeeps(s, blank);
      var spaced := Trim(s, blank);
      TrimKeeps(spaced, slash);
      var v := Trim(spaced, slash);
      assert |v| < |s|;
      if v != "" {
        CleanShrinks(v);
      }
    }
  }

  /** What is trimmed is exactly the droppable characters at either end. */
  lemma TrimMeans(s: string, drop: char -> bool) returns (before: string, after: string)
    ensures s == before + Trim(s, drop) + after
    ensures forall c | c in before || c in after :: drop(c)
    ensures var t := Trim(s, drop); t != "" ==> !drop(t[0]) && !drop(t[|t| - 1])
  {
    TrimKeeps(s, drop);
    var left := TrimLeft(s, drop);
    before := LeftTrimmed(s, drop);
    after := RightTrimmed(left, drop);
    assert s == before + (Trim(s, drop) + after);
  }

  lemma {:induction false} LeftTrimmed(s: string, drop: char -> bool) returns (before: string)
    ensures s == before + TrimLeft(s, drop) && forall c | c in before :: drop(c)
  {
    before := "";
    if s != "" && drop(s[0]) {
      before := LeftTrimmed(s[1..], drop);
      assert s == [s[0]] + before + TrimLeft(s[1..], drop);
      before := [s[0]] + before;
    }
  }

  lemma {:induction false} RightTrimmed(s: string, drop: char -> bool) returns (after: string)
    ensures s == TrimRight(s, drop) + after && forall c | c in after :: drop(c)
  {
    after := "";
    if s != "" && drop(s[|s| - 1]) {
      after := RightTrimmed(s[..|s| - 1], drop);
      assert s == TrimRight(s[..|s| - 1], drop) + (after + [s[|s| - 1]]);
      after := after + [s[|s| - 1]];
    }
  }

  lemma NormalizesTo(value: string, s: string)
    requires NormalPath(s) && |s| <= 768 && Trim(Trim(Slashes(value), c => Blank(c)), c => c == '/') == s
    ensures Normalize(value) == Ok(s)
  {
    NormalPathIsClean(s);
    NotEscaping(s);
  }

  /** Blanks of any kind around a path are dropped, and so are slashes inside them. */
  lemma NormalizeDropsEdges(s: string, c: char)
    requires NormalPath(s) && |s| <= 768 && '\\' !in s && s != "" && !Blank(s[0]) && !Blank(s[|s| - 1])
    requires c in {' ', '\t', '\n', '\r', 11 as char, 12 as char}
    ensures Normalize([c] + s) == Normalize(s + [c]) == Normalize("/" + s) == Normalize(s + "/") == Ok(s)
  {
    NormalPathIsClean(s);
    LastChar(s);
    BlankEdges(s, c);
    SlashEdges(s);
    NormalizesTo([c] + s, s);
    NormalizesTo(s + [c], s);
    NormalizesTo("/" + s, s);
    NormalizesTo(s + "/", s);
  }

  lemma BlankEdges(s: string, c: char)
    requires s != "" && '\\' !in s && !Blank(s[0]) && !Blank(s[|s| - 1]) && s[0] != '/' && s[|s| - 1] != '/'
    requires c != '\\' && Blank(c)
    ensures Trim(Trim(Slashes([c] + s), x => Blank(x)), x => x == '/') == s
    ensures Trim(Trim(Slashes(s + [c]), x => Blank(x)), x => x == '/') == s
  {
    EdgesGo(s, c, x => Blank(x));
    TrimIsIdentity(s, x => x == '/');
    assert Slashes([c] + s) == [c] + s && Slashes(s + [c]) == s + [c];
  }

  lemma SlashEdges(s: string)
    requires s != "" && '\\' !in s && !Blank(s[0]) && !Blank(s[|s| - 1]) && s[0] != '/' && s[|s| - 1] != '/'
    ensures Trim(Trim(Slashes("/" + s), x => Blank(x)), x => x == '/') == s
    ensures Trim(Trim(Slashes(s + "/"), x => Blank(x)), x => x == '/') == s
  {
    EdgesGo(s, '/', x => x == '/');
    TrimIsIdentity("/" + s, x => Blank(x));
    TrimIsIdentity(s + "/", x => Blank(x));
    assert Slashes("/" + s) == "/" + s && Slashes(s + "/") == s + "/";
  }

  lemma EdgesGo(s: string, c: char, drop: char -> bool)
    requires s != "" && !drop(s[0]) && !drop(s[|s| - 1]) && drop(c)
    ensures Trim([c] + s, drop) == Trim(s + [c], drop) == s
  {
    assert ([c] + s)[1..] == s && (s + [c])[..|s|] == s;
    assert TrimLeft([c] + s, drop) == TrimLeft(s, drop) == s && TrimLeft(s + [c], drop) == s + [c];
    assert TrimRight(s + [c], drop) == TrimRight(s, drop) == s;
  }

  /** A path in normal form that is too long is refused. */
  lemma NormalizeRefusesLength(s: string)
    requires NormalPath(s) && '\\' !in s && s != "" && !Blank(s[0]) && !Blank(s[|s| - 1]) && |s| > 768
    ensures Normalize(s) == Err(TooLong)
  {
    NormalPathIsClean(s);
    LastChar(s);
    NotEscaping(s);
    Undisturbed(s);
  }

  /** A path that climbs out of the root is refused, whatever follows. */
  lemma NormalizeRefusesClimbing(s: string)
    requires NormalPath(s) && '\\' !in s && s != "" && !Blank(s[|s| - 1])
    ensures Normalize("../" + s) == Err(Traversal)
  {
    LastChar(s);
    Undisturbed("../" + s);
    ClimbingIsClean(s);
  }

  lemma ClimbingIsClean(s: string)
    requires NormalPath(s)
    ensures Clean("../" + s) == "../" + s
  {
    var parts := Split("../" + s, '/');
    SplitConcat("..", s);
    SplitOfPart("..", '/');
    assert ".." + "/" + s == "../" + s;
    assert forall i | 1 <= i < |parts| :: parts[i] in Split(s, '/');
    CleanKeepsForm(parts, 1);
    JoinOfSplit("../" + s, '/');
  }

  /** The root has three names. */
  lemma NormalizeRoot()
    ensures Normalize("") == Normalize("/") == Normalize(".") == Ok("")
  {
    var blank, slash := c => Blank(c), c => c == '/';
    TrimIsIdentity("", blank);
    TrimIsIdentity("", slash);
    TrimIsIdentity("/", blank);
    assert Slashes("") == "" && Slashes("/") == "/" && "/"[1..] == "" && TrimLeft("/", slash) == TrimLeft("", slash);
    Undisturbed(".");
    SplitOfPart(".", '/');
    assert ["."][..0] == [];
  }

  /** Nothing is trimmed off such a text. */
  lemma Undisturbed(s: string)
    requires s != "" && '\\' !in s
    requires !Blank(s[0]) && !Blank(s[|s| - 1]) && s[0] != '/' && s[|s| - 1] != '/'
    ensures Trim(Trim(Slashes(s), c => Blank(c)), c => c == '/') == s
  {
    assert Slashes(s) == s;
    TrimIsIdentity(s, c => Blank(c));
    TrimIsIdentity(s, c => c == '/');
  }

  lemma LastChar(s: string)
    requires NormalPath(s)
    ensures s != "" && s[|s| - 1] != '/'
  {
    NormalBase(s);
    JoinNormal(Parent(s), Base(s));
    var b := Base(s);
    assert s[|s| - 1] == b[|b| - 1];
  }

  lemma NotEscaping(s: string)
    requires NormalPath(s)
    ensures !Escapes(s)
  {
    var first := Split(s, '/')[0];
    assert first in Split(s, '/');
    if "../" <= s {
      assert s == ".." + ['/'] + s[3..];
      SplitAtSeparator("..", s[3..], '/');
    } else if s == ".." {
      SplitOfPart(s, '/');
    }
  }

  /** Cleaning a non-empty relative path never lengthens it. */
  lemma CleanShrinks(v: string)
    requires v != "" && v[0] != '/'
    ensures |Clean(v)| <= |v|
  {
    CleanPartsLength(Split(v, '/'), false);
    JoinOfSplit(v, '/');
    JoinLength(Split(v, '/'));
    if CleanParts(Split(v, '/'), false) != [] {
      JoinLength(CleanParts(Split(v, '/'), false));
    }
  }

  /** The characters of the segments plus one separator each. */
  function Weight(parts: seq<string>): nat {
    if parts == [] then 0 else Weight(parts[..|parts| - 1]) + |parts[|parts| - 1]| + 1
  }

  lemma {:induction false} JoinLength(parts: seq<string>)
    requires parts != []
    ensures |Join(parts, '/')| == Weight(parts) - 1
  {
    var init, last := parts[..|parts| - 1], parts[|parts| - 1];
    if init != [] {
      JoinLength(init);
      JoinAppend(init, last, '/');
      assert parts == init + [last];
    }
  }

  lemma {:induction false} CleanPartsLength(parts: seq<string>, rooted: bool)
    ensures Weight(CleanParts(parts, rooted)) <= Weight(parts)
  {
    if parts != [] {
      var init, last := parts[..|parts| - 1], parts[|parts| - 1];
      CleanPartsLength(init, rooted);
      var stack := CleanParts(init, rooted);
      assert (stack + [last])[..|stack|] == stack;
    }
  }
}
