/** Moving a batch of files on a remote route: validate everything first, then move one by one. */
module BatchMove {
  import opened Wrappers
  import opened Sequences
  import opened PathText
  import opened RemoteStore
  import opened MoveExecution

  datatype Route = Route(remotePath: string, remoteAllowed: bool, enabled: bool, scanning: bool)

  datatype MoveError = Validation | NotFound | Conflict | RemoteFailure

  // ---- paths

  /** `routeObjectPath` and the remote-path policy behind it. */
  function RouteObjectPath(route: Route, relative: string): Result<string, MoveError> {
    var target := if relative == "" then route.remotePath else JoinPath(route.remotePath, relative);
    if !route.remoteAllowed || target == "" || |target| > 1024 then Err(Validation)
    else if exists c | c in target :: c == 0 as char || c == '\r' || c == '\n' then Err(Validation)
    else
      var slashed := Slashes(target);
      var normalized := Clean(if slashed[0] == '/' then slashed[1..] else slashed);
      if normalized == "." || Escapes(normalized) then Err(Validation) else Ok(normalized)
  }

  /** The stored remote path of a route has been through the policy itself. */
  ghost predicate ValidRoute(route: Route) {
    NormalPath(route.remotePath) && '\\' !in route.remotePath
  }

  ghost predicate Relative(s: string) {
    s == "" || (NormalPath(s) && '\\' !in s)
  }

  function Remotely(route: Route, relative: string): string {
    if relative == "" then route.remotePath else route.remotePath + "/" + relative
  }

  /** The policy lets the remote path through: an allowed remote, and a path of ordinary characters, not too long. */
  predicate Allowed(route: Route, path: string) {
    route.remoteAllowed && |path| <= 1024 && '\0' !in path && '\r' !in path && '\n' !in path
  }

  /** Below a valid route the remote path is the plain concatenation, refused exactly by the policy. */
  lemma RouteObjectPathIs(route: Route, relative: string)
    requires ValidRoute(route) && Relative(relative)
    ensures var path := if relative == "" then route.remotePath else route.remotePath + "/" + relative;
      RouteObjectPath(route, relative) == if Allowed(route, path) then Ok(path) else Err(Validation)
  {
    var s := Remotely(route, relative);
    NormalPathIsClean(route.remotePath);
    if relative != "" {
      JoinedIsNormal(route.remotePath, relative);
    }
    NormalPathIsClean(s);
    NotEscaping(s);
    assert Slashes(s) == s;
  }

  /** Different relative paths are different objects. */
  lemma RemotelyIsInjective(route: Route, a: string, b: string)
    requires Remotely(route, a) == Remotely(route, b)
    ensures a == b
  {
    var n := |route.remotePath| + 1;
    assert a != "" ==> Remotely(route, a)[n..] == a;
    assert b != "" ==> Remotely(route, b)[n..] == b;
  }

  function Destination(folder: string, source: string): string {
    if folder == "" then Base(source) else JoinPath(folder, Base(source))
  }

  /** The destination lies directly in the folder; it is the source itself only for a file that is already there. */
  lemma DestinationIsInFolder(folder: string, source: string)
    requires Relative(folder) && Relative(source) && source != ""
    ensures var d := Destination(folder, source);
      && Relative(d) && d != "" && Parent(d) == folder && (d == source <==> Parent(source) == folder)
  {
    NormalBase(source);
    JoinNormal(folder, Base(source));
    JoinNormal(Parent(source), Base(source));
    BaseHas(source);
    NormalPathIsClean(Base(source));
  }

  lemma BaseHas(s: string)
    requires NormalPath(s)
    ensures (forall c | c in Base(s) :: c in s) && NormalPath(Base(s))
  {
    NormalBase(s);
    JoinNormal(Parent(s), Base(s));
    SplitOfPart(Base(s), '/');
  }

  // ---- validation, as a function of the remote at the start

  /** Destinations already taken by earlier sources of the batch. */
  function Claimed(folder: string, sources: seq<string>): set<string> {
    if sources == [] then {}
    else
      var s := sources[|sources| - 1];
      Claimed(folder, sources[..|sources| - 1]) + if Destination(folder, s) == s then {} else {Destination(folder, s)}
  }

  function Objection(
      objects: Objects, route: Route, folder: string, claimed: set<string>, source: string): Option<Reason> {
    var d := Destination(folder, source);
    if d == source then Some(AlreadyThere)
    else if d in claimed then Some(SameDestination)
    else if Remotely(route, source) !in objects then Some(SourceMissing)
    else if objects[Remotely(route, source)].isDir then Some(SourceIsDirectory)
    else if Remotely(route, d) in objects then Some(DestinationExists)
    else None
  }

  function ObjectionAt(objects: Objects, route: Route, folder: string, sources: seq<string>, k: nat): Option<Reason>
    requires k < |sources|
  {
    Objection(objects, route, folder, Claimed(folder, sources[..k]), sources[k])
  }

  /** The sources turned down, with their reasons, and the ones accepted, both in order. */
  function Rejected(objects: Objects, route: Route, folder: string, sources: seq<string>): seq<Failure> {
    if sources == [] then []
    else
      var n := |sources| - 1;
      var reason := ObjectionAt(objects, route, folder, sources, n);
      Rejected(objects, route, folder, sources[..n]) + if reason.Some? then [Failure(sources[n], reason.value)] else []
  }

  function Accepted(objects: Objects, route: Route, folder: string, sources: seq<string>): seq<Candidate> {
    if sources == [] then []
    else
      var n := |sources| - 1;
      Accepted(objects, route, folder, sources[..n]) +
        if ObjectionAt(objects, route, folder, sources, n).None? then [CandidateOf(route, folder, sources[n])] else []
  }

  function LegOf(route: Route, folder: string, s: string): Leg {
    Leg(Remotely(route, s), Remotely(route, Destination(folder, s)))
  }

  function CandidateOf(route: Route, folder: string, s: string): Candidate {
    Candidate(s, Destination(folder, s), LegOf(route, folder, s))
  }

  lemma NamesSnoc(names: seq<string>, s: string)
    ensures multiset(names + [s]) == multiset(names) + multiset{s}
  {}

  /** Every source is either turned down or accepted, once. */
  lemma {:induction false} ValidationPartitions(objects: Objects, route: Route, folder: string, sources: seq<string>)
    ensures Partitions(objects, route, folder, sources)
  {
    if sources != [] {
      var n := |sources| - 1;
      var init, s := sources[..n], sources[n];
      ValidationPartitions(objects, route, folder, init);
      Snoc(sources);
      NamesSnoc(init, s);
      PartitionNext(Rejected(objects, route, folder, init), Accepted(objects, route, folder, init), multiset(init),
        CandidateOf(route, folder, s), ObjectionAt(objects, route, folder, sources, n));
    }
  }

  lemma PartitionNext(
      rejected: seq<Failure>, accepted: seq<Candidate>, names: multiset<string>, c: Candidate, v: Option<Reason>)
    requires FailedSources(rejected) + CandidateSources(accepted) == names
    ensures var failures := rejected + if v.Some? then [Failure(c.source, v.value)] else [];
      var candidates := accepted + if v.None? then [c] else [];
      && FailedSources(failures) + CandidateSources(candidates) == names + multiset{c.source}
      && |failures| + |candidates| == |rejected| + |accepted| + 1
  {
    Rearranged(FailedSources(rejected), CandidateSources(accepted), multiset{c.source});
    if v.Some? {
      FailedSnoc(rejected, Failure(c.source, v.value));
      assert accepted + [] == accepted;
    } else {
      CandidatesSnoc(accepted, c);
      assert rejected + [] == rejected;
    }
  }

  ghost predicate Partitions(objects: Objects, route: Route, folder: string, sources: seq<string>) {
    var rejected, accepted := Rejected(objects, route, folder, sources), Accepted(objects, route, folder, sources);
    FailedSources(rejected) + CandidateSources(accepted) == multiset(sources) && |rejected| + |accepted| == |sources|
  }

  /** What validation found out about an accepted source. */
  ghost predicate Checked(objects: Objects, route: Route, folder: string, c: Candidate) {
    c == CandidateOf(route, folder, c.source) && Relative(c.source) && c.source != "" && c.destination != c.source
    && CanMove(objects, c.leg.source, c.leg.destination)
  }

  ghost predicate AllChecked(objects: Objects, route: Route, folder: string, accepted: seq<Candidate>) {
    && (forall k | 0 <= k < |accepted| :: Checked(objects, route, folder, accepted[k]))
    && (forall j, k | 0 <= j < k < |accepted| ::
      accepted[j].source != accepted[k].source && accepted[j].destination != accepted[k].destination)
  }

  ghost predicate Sources(sources: seq<string>) {
    && (forall k | 0 <= k < |sources| :: Relative(sources[k]) && sources[k] != "")
    && (forall j, k | 0 <= j < k < |sources| :: sources[j] != sources[k])
  }

  lemma {:induction false} AcceptedAreChecked(objects: Objects, route: Route, folder: string, sources: seq<string>)
    requires Sources(sources)
    ensures var accepted := Accepted(objects, route, folder, sources);
      && AllChecked(objects, route, folder, accepted)
      && (forall c | c in accepted :: c.source in sources && c.destination in Claimed(folder, sources))
  {
    if sources != [] {
      var n := |sources| - 1;
      AcceptedAreChecked(objects, route, folder, sources[..n]);
      Snoc(sources);
      if ObjectionAt(objects, route, folder, sources, n).None? {
        CheckedNext(objects, route, folder, Accepted(objects, route, folder, sources[..n]),
          CandidateOf(route, folder, sources[n]));
      }
    }
  }

  lemma CheckedNext(objects: Objects, route: Route, folder: string, accepted: seq<Candidate>, c: Candidate)
    requires AllChecked(objects, route, folder, accepted) && Checked(objects, route, folder, c)
    requires forall b | b in accepted :: b.source != c.source && b.destination != c.destination
    ensures AllChecked(objects, route, folder, accepted + [c])
  {
    forall k | 0 <= k < |accepted| ensures accepted[k].source != c.source && accepted[k].destination != c.destination {
      assert accepted[k] in accepted;
    }
  }

  // ---- validation

  ghost predicate NormalizedTo(raw: seq<string>, sources: seq<string>) {
    |sources| == |raw| && forall k | 0 <= k < |raw| :: Normalize(raw[k]) == Ok(sources[k])
  }

  /** The remote path of the source or of its destination is not acceptable. */
  predicate OutOfReach(route: Route, folder: string, source: string) {
    RouteObjectPath(route, source).Err? || RouteObjectPath(route, Destination(folder, source)).Err?
  }

  predicate AllReachable(route: Route, folder: string, candidates: seq<Candidate>) {
    forall c | c in candidates :: !OutOfReach(route, folder, c.source)
  }

  /** A source that stops the whole batch: unusable, repeated, or out of reach. */
  predicate IsBad(route: Route, folder: string, raw: seq<string>, k: nat)
    requires k < |raw|
  {
    var n := Normalize(raw[k]);
    n.Err? || n.value == "" || (exists j | 0 <= j < k :: Normalize(raw[j]) == n) || OutOfReach(route, folder, n.value)
  }

  /** A failed stat, and nothing else, makes the remote the reason. */
  predicate StatFailed(before: nat, after: nat, err: Option<MoveError>) {
    after == if err == Some(RemoteFailure) then before + 1 else before
  }

  /** One source through every check but the stats of the remote's reply: what the batch does with it. */
  method CheckSource(remote: Remote, route: Route, folder: string, source: string, claimed: set<string>)
    returns (r: Result<Option<Reason>, MoveError>)
    requires ValidRoute(route) && Relative(folder) && Relative(source) && source != ""
    modifies remote`statErrors
    ensures r.Ok? ==> r.value == Objection(remote.objects, route, folder, claimed, source)
    ensures r.Ok? && r.value != Some(AlreadyThere) && r.value != Some(SameDestination) ==>
      !OutOfReach(route, folder, source)
    ensures r.Err? ==> r.error == RemoteFailure || (r.error == Validation && OutOfReach(route, folder, source))
    ensures StatFailed(old(remote.statErrors), remote.statErrors, if r.Err? then Some(r.error) else None)
  {
    var destination := Destination(folder, source);
    DestinationIsInFolder(folder, source);
    if destination == source {
      return Ok(Some(AlreadyThere));
    }
    if destination in claimed {
      return Ok(Some(SameDestination));
    }
    var sourceRemote := RouteObjectPath(route, source);
    if sourceRemote.Err? {
      return Err(sourceRemote.error);
    }
    var destinationRemote := RouteObjectPath(route, destination);
    if destinationRemote.Err? {
      return Err(destinationRemote.error);
    }
    RouteObjectPathIs(route, source);
    RouteObjectPathIs(route, destination);
    var found := remote.Stat(sourceRemote.value);
    if found.Err? {
      return Err(RemoteFailure);
    }
    if found.value.None? {
      return Ok(Some(SourceMissing));
    }
    if found.value.value.isDir {
      return Ok(Some(SourceIsDirectory));
    }
    var occupied := remote.Stat(destinationRemote.value);
    if occupied.Err? {
      return Err(RemoteFailure);
    }
    return Ok(if occupied.value.Some? then Some(DestinationExists) else None);
  }

  /** One source as it was given: usable, not given before, and then through every check. */
  method CheckRaw(
      remote: Remote, route: Route, folder: string, raw: seq<string>, k: nat, seenSources: set<string>,
      claimed: set<string>, ghost sources: seq<string>, reported: seq<Event>, processed: nat)
    returns (source: string, r: Result<Option<Reason>, MoveError>, events: seq<Event>)
    requires ValidRoute(route) && Relative(folder) && k < |raw| && Rising(reported, |raw|, processed)
    requires NormalizedTo(raw[..k], sources) && seenSources == (set s | s in sources)
    modifies remote`statErrors
    ensures Rising(events, |raw|, processed)
    ensures StatFailed(old(remote.statErrors), remote.statErrors, if r.Err? then Some(r.error) else None)
    ensures r.Err? ==> r.error == RemoteFailure || (r.error == Validation && IsBad(route, folder, raw, k))
    ensures r.Ok? ==> Normalize(raw[k]) == Ok(source) && Relative(source) && source != "" && source !in sources
    ensures r.Ok? ==> r.value == Objection(remote.objects, route, folder, claimed, source)
    ensures r.Ok? && r.value.None? ==> !OutOfReach(route, folder, source)
  {
    source, r, events := "", Err(Validation), reported;
    var normalized := Normalize(raw[k]);
    if normalized.Err? || normalized.value == "" {
      return;
    }
    source := normalized.value;
    NormalizeYieldsNormal(raw[k]);
    if source in seenSources {
      Repeated(raw, sources, k, source);
      return;
    }
    events := Report(events, Validating, |raw|, processed, source);
    r := CheckSource(remote, route, folder, source, claimed);
  }

  /** The first loop: nothing is moved while anything can still be turned down. */
  method Validate(remote: Remote, route: Route, folder: string, raw: seq<string>, reported: seq<Event>)
    returns (
      err: Option<MoveError>, candidates: seq<Candidate>, failed: seq<Failure>, events: seq<Event>,
      ghost sources: seq<string>, ghost bad: nat)
    requires ValidRoute(route) && Relative(folder) && Rising(reported, |raw|, 0)
    modifies remote`statErrors
    ensures StatFailed(old(remote.statErrors), remote.statErrors, err)
    ensures err.None? ==> AllReachable(route, folder, candidates)
    ensures Rising(events, |raw|, |failed|)
    ensures err.Some? ==>
      err.value == RemoteFailure || (err.value == Validation && bad < |raw| && IsBad(route, folder, raw, bad))
    ensures err.None? ==> NormalizedTo(raw, sources) && Sources(sources)
    ensures err.None? ==> failed == Rejected(remote.objects, route, folder, sources)
    ensures err.None? ==> candidates == Accepted(remote.objects, route, folder, sources)
  {
    candidates, failed, events, sources, bad := [], [], reported, [], 0;
    var seenSources, seenDestinations: set<string> := {}, {};
    for k := 0 to |raw|
      invariant NormalizedTo(raw[..k], sources) && Sources(sources)
      invariant seenSources == (set s | s in sources)
      invariant Validated(remote.objects, route, folder, sources, seenDestinations, failed, candidates)
      invariant Rising(events, |raw|, |failed|)
      invariant remote.statErrors == old(remote.statErrors) && AllReachable(route, folder, candidates)
    {
      var source, objection;
      source, objection, events :=
        CheckRaw(remote, route, folder, raw, k, seenSources, seenDestinations, sources, events, |failed|);
      if objection.Err? {
        return Some(objection.error), candidates, failed, events, sources, k;
      }
      seenSources := seenSources + {source};
      ValidatedNext(remote.objects, route, folder, sources, seenDestinations, failed, candidates, source);
      NormalizedNext(raw, sources, k, source);
      SourcesNext(sources, source);
      sources := sources + [source];
      if Destination(folder, source) != source {
        seenDestinations := seenDestinations + {Destination(folder, source)};
      }
      if objection.value.Some? {
        RisingBound(events, |raw|, |failed|, |failed| + 1);
        failed := failed + [Failure(source, objection.value.value)];
        events := Report(events, Validating, |raw|, |failed|, source);
      } else {
        ReachableNext(route, folder, candidates, CandidateOf(route, folder, source));
        candidates := candidates + [CandidateOf(route, folder, source)];
      }
    }
    assert raw[..|raw|] == raw;
    err := None;
  }

  lemma ReachableNext(route: Route, folder: string, candidates: seq<Candidate>, c: Candidate)
    requires AllReachable(route, folder, candidates) && !OutOfReach(route, folder, c.source)
    ensures AllReachable(route, folder, candidates + [c])
  {}

  lemma Repeated(raw: seq<string>, sources: seq<string>, k: nat, source: string)
    requires k <= |raw| && NormalizedTo(raw[..k], sources) && source in sources
    ensures exists j | 0 <= j < k :: Normalize(raw[j]) == Ok(source)
  {
    var j :| 0 <= j < |sources| && sources[j] == source;
    assert raw[..k][j] == raw[j];
  }

  lemma NormalizedNext(raw: seq<string>, sources: seq<string>, k: nat, source: string)
    requires k < |raw| && NormalizedTo(raw[..k], sources) && Normalize(raw[k]) == Ok(source)
    ensures NormalizedTo(raw[..k + 1], sources + [source])
  {
    forall j | 0 <= j < k ensures Normalize(raw[j]) == Ok(sources[j]) {
      assert raw[..k][j] == raw[j];
    }
  }

  lemma SourcesNext(sources: seq<string>, source: string)
    requires Sources(sources) && source !in sources && Relative(source) && source != ""
    ensures Sources(sources + [source]) && (set s | s in sources + [source]) == (set s | s in sources) + {source}
  {}

  /** What the loop has gathered after `sources`. */
  ghost predicate Validated(
      objects: Objects, route: Route, folder: string, sources: seq<string>, claimed: set<string>, failed: seq<Failure>,
      candidates: seq<Candidate>) {
    && claimed == Claimed(folder, sources) && failed == Rejected(objects, route, folder, sources)
    && candidates == Accepted(objects, route, folder, sources)
  }

  lemma ValidatedNext(
      objects: Objects, route: Route, folder: string, sources: seq<string>, claimed: set<string>, failed: seq<Failure>,
      candidates: seq<Candidate>,
      source: string)
    requires Validated(objects, route, folder, sources, claimed, failed, candidates)
    ensures var objection, d := Objection(objects, route, folder, claimed, source), Destination(folder, source);
      Validated(objects, route, folder, sources + [source],
        if d != source then claimed + {d} else claimed,
        if objection.Some? then failed + [Failure(source, objection.value)] else failed,
        if objection.Some? then candidates else candidates + [CandidateOf(route, folder, source)])
  {
    var more := sources + [source];
    assert more[..|sources|] == sources && more[|sources|] == source;
  }

  // ---- execution

  /** Two accepted files concern four different objects: sources lie outside the target folder, destinations inside. */
  lemma Apart(objects: Objects, route: Route, folder: string, a: Candidate, b: Candidate)
    requires Relative(folder) && Checked(objects, route, folder, a) && Checked(objects, route, folder, b)
    requires a.source != b.source && a.destination != b.destination
    ensures LegsApart(a.leg, b.leg)
  {
    DestinationIsInFolder(folder, a.source);
    DestinationIsInFolder(folder, b.source);
    if a.leg.source == b.leg.source {
      RemotelyIsInjective(route, a.source, b.source);
    }
    if a.leg.destination == b.leg.destination {
      RemotelyIsInjective(route, a.destination, b.destination);
    }
    if a.leg.source == b.leg.destination {
      RemotelyIsInjective(route, a.source, b.destination);
    }
    if b.leg.source == a.leg.destination {
      RemotelyIsInjective(route, b.source, a.destination);
    }
  }

  lemma LegsAreApart(objects: Objects, route: Route, folder: string, accepted: seq<Candidate>)
    requires Relative(folder) && AllChecked(objects, route, folder, accepted)
    ensures AllApart(Legs(accepted)) && Executed(objects, objects, Legs(accepted), 0)
  {
    var legs := Legs(accepted);
    forall j, k | 0 <= j < |legs| && 0 <= k < |legs| && j != k ensures LegsApart(legs[j], legs[k]) {
      assert Checked(objects, route, folder, accepted[j]) && Checked(objects, route, folder, accepted[k]);
      Apart(objects, route, folder, accepted[j], accepted[k]);
    }
    forall k | 0 <= k < |legs| ensures Pending(objects, objects, legs[k]) {
      assert Checked(objects, route, folder, accepted[k]);
    }
  }

  // ---- the whole batch

  /** What a batch that returns normally has done. */
  ghost predicate Done(
      objects: Objects, now: Objects, calls: seq<Call>, route: Route, folder: string, sources: seq<string>,
      moved: seq<Moved>, failed: seq<Failure>) {
    var rejected, accepted := Rejected(objects, route, folder, sources), Accepted(objects, route, folder, sources);
    && Issued(objects, now, calls, accepted, |accepted|, moved)
    && MovedSources(moved) + FailedSources(failed) == multiset(sources)
    && |rejected| <= |failed| && failed[..|rejected|] == rejected
    && (forall k | |rejected| <= k < |failed| :: failed[k].reason == MoveFailed)
    && Reported(rejected, accepted, calls, |accepted|, moved, failed)
  }

  lemma AccountsDone(
      objects: Objects, route: Route, folder: string, sources: seq<string>, moved: seq<Moved>, failed: seq<Failure>)
    requires var accepted := Accepted(objects, route, folder, sources);
      Accounts(Rejected(objects, route, folder, sources), accepted, |accepted|, moved, failed)
    ensures MovedSources(moved) + FailedSources(failed) == multiset(sources) && |moved| + |failed| == |sources|
  {
    var accepted := Accepted(objects, route, folder, sources);
    ValidationPartitions(objects, route, folder, sources);
    assert accepted[..|accepted|] == accepted;
  }

  const MAX_BATCH := 100

  predicate IsFolder(objects: Objects, route: Route, relative: string) {
    Remotely(route, relative) in objects && objects[Remotely(route, relative)].isDir
  }

  /** Why a target is turned down. */
  predicate TargetRefused(objects: Objects, route: Option<Route>, rawTarget: string, e: MoveError) {
    match e
    case RemoteFailure => true
    case Conflict => route.Some? && (!route.value.enabled || route.value.scanning)
    case NotFound => route.None?
      || (Normalize(rawTarget).Ok? && !IsFolder(objects, route.value, Normalize(rawTarget).value))
    case Validation =>
      route.Some? && (Normalize(rawTarget).Err? || RouteObjectPath(route.value, Normalize(rawTarget).value).Err?)
  }

  /** Why a batch is turned down because of its sources. */
  ghost predicate SourcesRefused(route: Route, folder: string, raw: seq<string>, e: MoveError) {
    e == RemoteFailure || (e == Validation && exists k | 0 <= k < |raw| :: IsBad(route, folder, raw, k))
  }

  /** Why a batch is turned down. */
  ghost predicate BatchRefused(
      objects: Objects, route: Option<Route>, raw: seq<string>, rawTarget: string, e: MoveError) {
    || TargetRefused(objects, route, rawTarget, e)
    || (e == Validation && (|raw| == 0 || |raw| > 100))
    || (route.Some? && Normalize(rawTarget).Ok? && SourcesRefused(route.value, Normalize(rawTarget).value, raw, e))
  }

  /** Where the batch goes: a writable route and an existing folder on it. */
  method ResolveTarget(remote: Remote, route: Option<Route>, rawTarget: string) returns (r: Result<string, MoveError>)
    requires route.Some? ==> ValidRoute(route.value)
    modifies remote`statErrors
    ensures StatFailed(old(remote.statErrors), remote.statErrors, if r.Err? then Some(r.error) else None)
    ensures r.Ok? ==> route.Some? && route.value.enabled && !route.value.scanning
    ensures r.Ok? ==> Normalize(rawTarget) == Ok(r.value) && Relative(r.value)
    ensures r.Ok? ==> IsFolder(remote.objects, route.value, r.value)
    ensures r.Err? ==> TargetRefused(remote.objects, route, rawTarget, r.error)
  {
    if route.None? {
      return Err(NotFound);
    }
    if !route.value.enabled || route.value.scanning {
      return Err(Conflict);
    }
    var normalized := Normalize(rawTarget);
    if normalized.Err? {
      return Err(Validation);
    }
    NormalizeYieldsNormal(rawTarget);
    var path := RouteObjectPath(route.value, normalized.value);
    if path.Err? {
      return Err(path.error);
    }
    RouteObjectPathIs(route.value, normalized.value);
    var found := remote.Stat(path.value);
    if found.Err? {
      return Err(RemoteFailure);
    }
    if found.value.None? || !found.value.value.isDir {
      return Err(NotFound);
    }
    return Ok(normalized.value);
  }

  /**
   * `MoveFilesWithProgress`.  An error return has changed nothing; a normal return has settled every accepted source,
   * reported every source once, and issued each move with validation's findings still true.
   */
  method MoveFiles(remote: Remote, route: Option<Route>, raw: seq<string>, rawTarget: string)
    returns (
      err: Option<MoveError>, moved: seq<Moved>, failed: seq<Failure>, events: seq<Event>,
      ghost folder: string, ghost sources: seq<string>, ghost calls: seq<Call>)
    requires route.Some? ==> ValidRoute(route.value)
    modifies remote
    ensures StatFailed(old(remote.statErrors), remote.statErrors, err)
    ensures |raw| == 0 || |raw| > 100 ==> err == Some(Validation)
    ensures err.Some? ==> remote.objects == old(remote.objects) && remote.calls == old(remote.calls)
    ensures err.Some? ==> BatchRefused(old(remote.objects), route, raw, rawTarget, err.value)
    ensures Rising(events, |raw|, |moved| + |failed|)
    ensures err.None? ==>
      route.Some? && Normalize(rawTarget) == Ok(folder) && NormalizedTo(raw, sources) && Sources(sources)
    ensures err.None? ==> route.value.enabled && !route.value.scanning
    ensures err.None? ==>
      var path := if folder == "" then route.value.remotePath else route.value.remotePath + "/" + folder;
      path in old(remote.objects) && old(remote.objects)[path].isDir
    ensures err.None? ==> Done(old(remote.objects), remote.objects, calls, route.value, folder, sources, moved, failed)
    ensures err.None? ==> AllReachable(route.value, folder, Accepted(old(remote.objects), route.value, folder, sources))
    ensures err.None? ==> remote.calls == old(remote.calls) + calls && |moved| + |failed| == |raw|
    ensures err.None? ==> events != [] && events[|events| - 1] == Event(Completed, |raw|, |raw|, "")
  {
    moved, failed, events, sources, calls, folder := [], [], [], [], [], "";
    if |raw| == 0 || |raw| > MAX_BATCH {
      err := Some(Validation);
    } else {
      events := Report(events, Preparing, |raw|, 0, "");
      var target := ResolveTarget(remote, route, rawTarget);
      if target.Err? {
        err := Some(target.error);
      } else {
        folder := target.value;
        err, moved, failed, events, sources, calls := MoveInto(remote, route.value, raw, target.value, events);
      }
    }
  }

  /** Both loops, for a resolved target folder. */
  method MoveInto(remote: Remote, route: Route, raw: seq<string>, folder: string, reported: seq<Event>)
    returns (
      err: Option<MoveError>, moved: seq<Moved>, failed: seq<Failure>, events: seq<Event>,
      ghost sources: seq<string>, ghost calls: seq<Call>)
    requires ValidRoute(route) && Relative(folder) && Rising(reported, |raw|, 0)
    modifies remote
    ensures StatFailed(old(remote.statErrors), remote.statErrors, err)
    ensures err.None? ==> AllReachable(route, folder, Accepted(old(remote.objects), route, folder, sources))
    ensures err.Some? ==> SourcesRefused(route, folder, raw, err.value)
    ensures err.Some? ==> remote.objects == old(remote.objects) && remote.calls == old(remote.calls)
    ensures Rising(events, |raw|, |moved| + |failed|)
    ensures err.None? ==> NormalizedTo(raw, sources) && Sources(sources) && remote.calls == old(remote.calls) + calls
    ensures err.None? ==> Done(old(remote.objects), remote.objects, calls, route, folder, sources, moved, failed)
    ensures err.None? ==> |moved| + |failed| == |raw|
    ensures err.None? ==> events != [] && events[|events| - 1] == Event(Completed, |raw|, |raw|, "")
  {
    moved, calls := [], [];
    var candidates;
    ghost var bad;
    err, candidates, failed, events, sources, bad := Validate(remote, route, folder, raw, reported);
    if err.None? {
      AcceptedAreChecked(remote.objects, route, folder, sources);
      LegsAreApart(remote.objects, route, folder, candidates);
      moved, failed, events, calls := Execute(remote, candidates, failed, events, |raw|);
      AccountsDone(old(remote.objects), route, folder, sources, moved, failed);
      events := ReportEnd(events, |raw|, |moved| + |failed|, |moved| > 0);
    }
  }

  /** The closing reports: the index refresh is mentioned only when something moved. */
  function ReportEnd(events: seq<Event>, total: nat, processed: nat, refresh: bool): (r: seq<Event>)
    requires Rising(events, total, processed)
    ensures Rising(r, total, processed) && r != [] && r[|r| - 1] == Event(Completed, total, processed, "")
  {
    var refreshed := if refresh then Report(events, Refreshing, total, processed, "") else events;
    Report(refreshed, Completed, total, processed, "")
  }

  // ---- what a normal return means

  /**
   * No object that existed is overwritten or lost, whatever the remote's errors; only accepted sources can have changed
   * place.
   */
  lemma NothingIsOverwritten(
      objects: Objects, now: Objects, calls: seq<Call>, route: Route, folder: string, sources: seq<string>,
      moved: seq<Moved>, failed: seq<Failure>,
      path: string)
    requires Sources(sources) && Done(objects, now, calls, route, folder, sources, moved, failed) && path in objects
    ensures Bag(now) == Bag(objects)
    ensures (path in now && now[path] == objects[path])
      || exists c | c in Accepted(objects, route, folder, sources) ::
        path == c.leg.source && MovedTo(objects, now, c.leg)
  {
    var accepted := Accepted(objects, route, folder, sources);
    var legs := Legs(accepted);
    ChainConserves(objects, calls, now);
    if IsEnd(legs, path) {
      var k :| 0 <= k < |legs| && (path == legs[k].source || path == legs[k].destination);
      AcceptedAreChecked(objects, route, folder, sources);
      assert Checked(objects, route, folder, accepted[k]) && accepted[k] in accepted;
      assert Settled(objects, now, legs[k]) && legs[k] == accepted[k].leg;
    } else {
      assert SameAt(objects, now, path);
    }
  }

  /**
   * A file reported as moved is at its destination in the target folder, with the contents it had, and gone from its
   * source.
   */
  lemma MovedMeansMoved(
      objects: Objects, now: Objects, calls: seq<Call>, route: Route, folder: string, sources: seq<string>,
      moved: seq<Moved>, failed: seq<Failure>,
      m: Moved)
    requires Relative(folder) && Sources(sources) && Done(objects, now, calls, route, folder, sources, moved, failed)
    requires m in moved
    ensures m.source in sources && Parent(m.destination) == folder && Base(m.destination) == Base(m.source)
    ensures MovedTo(objects, now, Leg(Remotely(route, m.source), Remotely(route, m.destination)))
    ensures Remotely(route, m.destination) !in objects
  {
    var accepted := Accepted(objects, route, folder, sources);
    AcceptedAreChecked(objects, route, folder, sources);
    var k :| 0 <= k < |accepted| && IsMoved(objects, now, accepted[k], m);
    assert Checked(objects, route, folder, accepted[k]) && accepted[k] in accepted;
    DestinationIsInFolder(folder, m.source);
    DestinationKeepsName(folder, m.source);
  }

  lemma DestinationKeepsName(folder: string, source: string)
    requires Relative(folder) && Relative(source) && source != ""
    ensures Base(Destination(folder, source)) == Base(source)
  {
    NormalBase(source);
    JoinNormal(folder, Base(source));
    BaseHas(source);
    NormalPathIsClean(Base(source));
  }

  /**
   * Moves are issued one per accepted source, each while its source is still the validated file and its destination
   * still free.
   */
  lemma ChecksHoldAtExecution(
      objects: Objects, now: Objects, calls: seq<Call>, route: Route, folder: string, sources: seq<string>,
      moved: seq<Moved>, failed: seq<Failure>,
      k: nat)
    requires Done(objects, now, calls, route, folder, sources, moved, failed) && k < |calls|
    ensures |calls| == |Accepted(objects, route, folder, sources)|
    ensures calls[k].source in calls[k].before && !calls[k].before[calls[k].source].isDir
    ensures calls[k].destination !in calls[k].before
    ensures calls[k].source in objects && calls[k].before[calls[k].source] == objects[calls[k].source]
    ensures Accepted(objects, route, folder, sources)[k].leg == Leg(calls[k].source, calls[k].destination)
  {
    var accepted := Accepted(objects, route, folder, sources);
    assert Legs(accepted)[k] == accepted[k].leg;
  }
}
