/** Which sources of a batch are moved, and what is said about the others, in terms of paths and the remote alone. */
module BatchAnswers {
  import opened Wrappers
  import opened Sequences
  import opened PathText
  import opened RemoteStore
  import opened MoveExecution
  import opened BatchMove

  /** Where a file goes, in plain text. */
  function Inside(folder: string, source: string): string {
    if folder == "" then Base(source) else folder + "/" + Base(source)
  }

  lemma InsideIs(folder: string, source: string)
    requires Relative(folder) && Relative(source) && source != ""
    ensures Destination(folder, source) == Inside(folder, source) != ""
    ensures Inside(folder, source) == source <==> Parent(source) == folder
  {
    DestinationIsInFolder(folder, source);
    NormalBase(source);
    JoinNormal(folder, Base(source));
    BaseHas(source);
    NormalPathIsClean(Base(source));
  }

  /** An earlier source of the batch goes to the same place. */
  predicate TakenEarlier(folder: string, sources: seq<string>, k: nat)
    requires k < |sources|
  {
    exists j | 0 <= j < k :: Parent(sources[j]) != folder && Base(sources[j]) == Base(sources[k])
  }

  lemma {:induction false} ClaimedMeans(folder: string, sources: seq<string>, d: string)
    requires Relative(folder) && forall s | s in sources :: Relative(s) && s != ""
    ensures d in Claimed(folder, sources) <==> exists s | s in sources :: Parent(s) != folder && Inside(folder, s) == d
  {
    if sources != [] {
      var n := |sources| - 1;
      assert sources == sources[..n] + [sources[n]];
      ClaimedMeans(folder, sources[..n], d);
      InsideIs(folder, sources[n]);
    }
  }

  lemma TakenMeans(folder: string, sources: seq<string>, k: nat)
    requires Relative(folder) && Sources(sources) && k < |sources|
    ensures Destination(folder, sources[k]) in Claimed(folder, sources[..k]) <==> TakenEarlier(folder, sources, k)
  {
    var init := sources[..k];
    forall s | s in init ensures Relative(s) && s != "" {
      var j :| 0 <= j < k && sources[j] == s;
    }
    ClaimedMeans(folder, init, Destination(folder, sources[k]));
    InsideIs(folder, sources[k]);
    forall j | 0 <= j < k
      ensures init[j] == sources[j] && (Inside(folder, sources[j]) == Inside(folder, sources[k]) <==>
        Base(sources[j]) == Base(sources[k]))
    {
      SameInside(folder, sources[j], sources[k]);
    }
  }

  lemma SameInside(folder: string, a: string, b: string)
    ensures Inside(folder, a) == Inside(folder, b) <==> Base(a) == Base(b)
  {
    if folder != "" {
      var n := |folder| + 1;
      assert Inside(folder, a)[n..] == Base(a) && Inside(folder, b)[n..] == Base(b);
    }
  }

  /**
   * What each verdict says about the batch and the remote at the start: the first of these that applies is the reason,
   * and a source is accepted exactly when it lies outside the folder, no earlier source goes to the same place, and the
   * remote holds it as a file and nothing at its destination.
   */
  predicate VerdictHolds(
      objects: Objects, route: Route, folder: string, sources: seq<string>, k: nat, v: Option<Reason>)
    requires k < |sources|
  {
    var s := sources[k];
    var from, to := route.remotePath + "/" + s, route.remotePath + "/" + Inside(folder, s);
    match v
    case Some(AlreadyThere) => Parent(s) == folder
    case Some(SameDestination) => Parent(s) != folder && TakenEarlier(folder, sources, k)
    case Some(SourceMissing) => Parent(s) != folder && !TakenEarlier(folder, sources, k) && from !in objects
    case Some(SourceIsDirectory) =>
      Parent(s) != folder && !TakenEarlier(folder, sources, k) && from in objects && objects[from].isDir
    case Some(DestinationExists) =>
      && Parent(s) != folder && !TakenEarlier(folder, sources, k) && from in objects && !objects[from].isDir
      && to in objects
    case None =>
      && Parent(s) != folder && !TakenEarlier(folder, sources, k) && from in objects && !objects[from].isDir
      && to !in objects
    case Some(MoveFailed) => false
  }

  lemma VerdictExactlyWhen(
      objects: Objects, route: Route, folder: string, sources: seq<string>, k: nat, v: Option<Reason>)
    requires Relative(folder) && Sources(sources) && k < |sources|
    ensures ObjectionAt(objects, route, folder, sources, k) == v
      <==> VerdictHolds(objects, route, folder, sources, k, v)
  {
    InsideIs(folder, sources[k]);
    TakenMeans(folder, sources, k);
  }

  // ---- the two lists of validation, as selections by verdict

  function Chosen(candidates: seq<Candidate>, verdicts: seq<Option<Reason>>, n: nat): seq<Candidate>
    requires n <= |candidates| && n <= |verdicts|
  {
    if n == 0 then []
    else Chosen(candidates, verdicts, n - 1) + if verdicts[n - 1].None? then [candidates[n - 1]] else []
  }

  function TurnedDown(sources: seq<string>, verdicts: seq<Option<Reason>>, n: nat): seq<Failure>
    requires n <= |sources| && n <= |verdicts|
  {
    if n == 0 then []
    else
      TurnedDown(sources, verdicts, n - 1) +
        if verdicts[n - 1].Some? then [Failure(sources[n - 1], verdicts[n - 1].value)] else []
  }

  lemma {:induction false} ChosenMeans(candidates: seq<Candidate>, verdicts: seq<Option<Reason>>, n: nat, c: Candidate)
    requires n <= |candidates| && n <= |verdicts|
    ensures c in Chosen(candidates, verdicts, n) <==>
      exists k | 0 <= k < n :: candidates[k] == c && verdicts[k].None?
  {
    if n > 0 {
      ChosenMeans(candidates, verdicts, n - 1, c);
    }
  }

  lemma {:induction false} TurnedDownMeans(sources: seq<string>, verdicts: seq<Option<Reason>>, n: nat, f: Failure)
    requires n <= |sources| && n <= |verdicts|
    ensures f in TurnedDown(sources, verdicts, n) <==>
      exists k | 0 <= k < n :: sources[k] == f.source && verdicts[k] == Some(f.reason)
  {
    if n > 0 {
      TurnedDownMeans(sources, verdicts, n - 1, f);
    }
  }

  function Verdicts(objects: Objects, route: Route, folder: string, sources: seq<string>): seq<Option<Reason>> {
    seq(|sources|, k requires 0 <= k < |sources| => ObjectionAt(objects, route, folder, sources, k))
  }

  function Candidates(route: Route, folder: string, sources: seq<string>): seq<Candidate> {
    seq(|sources|, k requires 0 <= k < |sources| => CandidateOf(route, folder, sources[k]))
  }

  lemma LastVerdict(objects: Objects, route: Route, folder: string, sources: seq<string>, n: nat)
    requires n < |sources|
    ensures sources[..n + 1][..n] == sources[..n]
    ensures ObjectionAt(objects, route, folder, sources[..n + 1], n) == ObjectionAt(objects, route, folder, sources, n)
  {}

  lemma {:induction false} ListsAreSelections(
      objects: Objects, route: Route, folder: string, sources: seq<string>, candidates: seq<Candidate>,
      verdicts: seq<Option<Reason>>, n: nat)
    requires n <= |sources| == |candidates| == |verdicts|
    requires forall k | 0 <= k < |sources| :: candidates[k] == CandidateOf(route, folder, sources[k])
    requires forall k | 0 <= k < |sources| :: verdicts[k] == ObjectionAt(objects, route, folder, sources, k)
    ensures Accepted(objects, route, folder, sources[..n]) == Chosen(candidates, verdicts, n)
    ensures Rejected(objects, route, folder, sources[..n]) == TurnedDown(sources, verdicts, n)
  {
    if n > 0 {
      LastVerdict(objects, route, folder, sources, n - 1);
      ListsAreSelections(objects, route, folder, sources, candidates, verdicts, n - 1);
    }
  }

  lemma SelectedLists(objects: Objects, route: Route, folder: string, sources: seq<string>)
    ensures var candidates, verdicts := Candidates(route, folder, sources), Verdicts(objects, route, folder, sources);
      && Accepted(objects, route, folder, sources) == Chosen(candidates, verdicts, |sources|)
      && Rejected(objects, route, folder, sources) == TurnedDown(sources, verdicts, |sources|)
  {
    Whole(sources);
    ListsAreSelections(objects, route, folder, sources,
      Candidates(route, folder, sources), Verdicts(objects, route, folder, sources), |sources|);
  }

  /** The verdict on a source puts it in one of the lists. */
  lemma SourceIsListed(objects: Objects, route: Route, folder: string, sources: seq<string>, k: nat)
    requires k < |sources|
    ensures var v := ObjectionAt(objects, route, folder, sources, k);
      && (v.None? ==> CandidateOf(route, folder, sources[k]) in Accepted(objects, route, folder, sources))
      && (v.Some? ==> Failure(sources[k], v.value) in Rejected(objects, route, folder, sources))
  {
    var candidates, verdicts := Candidates(route, folder, sources), Verdicts(objects, route, folder, sources);
    SelectedLists(objects, route, folder, sources);
    ChosenMeans(candidates, verdicts, |sources|, candidates[k]);
    if verdicts[k].Some? {
      TurnedDownMeans(sources, verdicts, |sources|, Failure(sources[k], verdicts[k].value));
    }
  }

  lemma AcceptedFrom(objects: Objects, route: Route, folder: string, sources: seq<string>, c: Candidate)
    returns (k: nat)
    requires c in Accepted(objects, route, folder, sources)
    ensures k < |sources| && c == CandidateOf(route, folder, sources[k])
    ensures ObjectionAt(objects, route, folder, sources, k).None?
  {
    var candidates, verdicts := Candidates(route, folder, sources), Verdicts(objects, route, folder, sources);
    SelectedLists(objects, route, folder, sources);
    ChosenMeans(candidates, verdicts, |sources|, c);
    k :| 0 <= k < |sources| && candidates[k] == c && verdicts[k].None?;
  }

  lemma RejectedFrom(objects: Objects, route: Route, folder: string, sources: seq<string>, f: Failure)
    returns (k: nat)
    requires f in Rejected(objects, route, folder, sources)
    ensures k < |sources| && f.source == sources[k]
    ensures ObjectionAt(objects, route, folder, sources, k) == Some(f.reason)
  {
    var verdicts := Verdicts(objects, route, folder, sources);
    SelectedLists(objects, route, folder, sources);
    TurnedDownMeans(sources, verdicts, |sources|, f);
    k :| 0 <= k < |sources| && sources[k] == f.source && verdicts[k] == Some(f.reason);
  }

  /**
   * What a batch that returns normally says about its `k`-th source: it is moved when it could be and the remote
   * reported success, failed as such when it could be and the remote did not, and otherwise listed with the reason.
   */
  lemma EverySourceIsAnswered(
      objects: Objects, now: Objects, calls: seq<Call>, route: Route, folder: string, sources: seq<string>,
      moved: seq<Moved>, failed: seq<Failure>, k: nat)
    requires Relative(folder) && Sources(sources) && Done(objects, now, calls, route, folder, sources, moved, failed)
    requires k < |sources|
    ensures VerdictHolds(objects, route, folder, sources, k, None) ==>
      exists call | call in calls :: call.source == route.remotePath + "/" + sources[k]
        && if call.ok then Moved(sources[k], Inside(folder, sources[k])) in moved
           else Failure(sources[k], MoveFailed) in failed
    ensures !VerdictHolds(objects, route, folder, sources, k, None) ==>
      exists reason :: VerdictHolds(objects, route, folder, sources, k, Some(reason))
        && Failure(sources[k], reason) in failed
  {
    var verdict := ObjectionAt(objects, route, folder, sources, k);
    VerdictExactlyWhen(objects, route, folder, sources, k, verdict);
    VerdictExactlyWhen(objects, route, folder, sources, k, None);
    SourceIsListed(objects, route, folder, sources, k);
    if verdict.None? {
      InsideIs(folder, sources[k]);
      AcceptedIsAnswered(objects, now, calls, route, folder, sources, moved, failed,
        CandidateOf(route, folder, sources[k]));
    } else {
      assert Failure(sources[k], verdict.value) in failed;
    }
  }

  /** The call of an accepted source decides in which list it is reported. */
  predicate Answers(call: Call, c: Candidate, moved: seq<Moved>, failed: seq<Failure>) {
    call.source == c.leg.source &&
      if call.ok then Moved(c.source, c.destination) in moved else Failure(c.source, MoveFailed) in failed
  }

  lemma AcceptedIsAnswered(
      objects: Objects, now: Objects, calls: seq<Call>, route: Route, folder: string, sources: seq<string>,
      moved: seq<Moved>, failed: seq<Failure>, c: Candidate)
    requires Done(objects, now, calls, route, folder, sources, moved, failed)
    requires c in Accepted(objects, route, folder, sources)
    ensures exists call | call in calls :: Answers(call, c, moved, failed)
  {
    var accepted := Accepted(objects, route, folder, sources);
    var j :| 0 <= j < |accepted| && accepted[j] == c;
    CallAnswers(objects, now, calls, accepted, moved, j);
    MovedByMeans(accepted, calls, |accepted|, Moved(c.source, c.destination));
    FailedByMeans(accepted, calls, |accepted|, Failure(c.source, MoveFailed));
    assert Answers(calls[j], c, moved, failed);
  }

  lemma CallAnswers(
      objects: Objects, now: Objects, calls: seq<Call>, accepted: seq<Candidate>, moved: seq<Moved>, j: nat)
    requires Issued(objects, now, calls, accepted, |accepted|, moved) && j < |accepted|
    ensures j < |calls| && calls[j].source == accepted[j].leg.source
  {
    assert Legs(accepted)[j] == accepted[j].leg;
  }

  /** And nothing else is said: who is reported moved or failed is a source of the batch, for that very reason. */
  lemma EveryAnswerIsTrue(
      objects: Objects, now: Objects, calls: seq<Call>, route: Route, folder: string, sources: seq<string>,
      moved: seq<Moved>, failed: seq<Failure>)
    requires Relative(folder) && Sources(sources) && Done(objects, now, calls, route, folder, sources, moved, failed)
    ensures forall m | m in moved :: exists k | 0 <= k < |sources| ::
      m == Moved(sources[k], Inside(folder, sources[k])) && VerdictHolds(objects, route, folder, sources, k, None)
    ensures forall f | f in failed :: exists k | 0 <= k < |sources| ::
      f.source == sources[k] &&
      VerdictHolds(objects, route, folder, sources, k, if f.reason == MoveFailed then None else Some(f.reason))
  {
    forall m | m in moved ensures exists k | 0 <= k < |sources| ::
        m == Moved(sources[k], Inside(folder, sources[k])) && VerdictHolds(objects, route, folder, sources, k, None) {
      var k := MovedFrom(objects, now, calls, route, folder, sources, moved, failed, m);
    }
    forall f | f in failed ensures exists k | 0 <= k < |sources| ::
        f.source == sources[k] &&
        VerdictHolds(objects, route, folder, sources, k, if f.reason == MoveFailed then None else Some(f.reason)) {
      var k := FailedFrom(objects, now, calls, route, folder, sources, moved, failed, f);
    }
  }

  lemma AcceptedSource(objects: Objects, route: Route, folder: string, sources: seq<string>, c: Candidate)
    returns (k: nat)
    requires Relative(folder) && Sources(sources) && c in Accepted(objects, route, folder, sources)
    ensures k < |sources| && c.source == sources[k] && c.destination == Inside(folder, sources[k])
    ensures VerdictHolds(objects, route, folder, sources, k, None)
  {
    k := AcceptedFrom(objects, route, folder, sources, c);
    InsideIs(folder, sources[k]);
    VerdictExactlyWhen(objects, route, folder, sources, k, None);
  }

  lemma MovedFrom(
      objects: Objects, now: Objects, calls: seq<Call>, route: Route, folder: string, sources: seq<string>,
      moved: seq<Moved>, failed: seq<Failure>, m: Moved) returns (k: nat)
    requires Relative(folder) && Sources(sources) && Done(objects, now, calls, route, folder, sources, moved, failed)
    requires m in moved
    ensures k < |sources| && m == Moved(sources[k], Inside(folder, sources[k]))
    ensures VerdictHolds(objects, route, folder, sources, k, None)
  {
    var accepted := Accepted(objects, route, folder, sources);
    MovedByMeans(accepted, calls, |accepted|, m);
    var j :| 0 <= j < |accepted| && m == Moved(accepted[j].source, accepted[j].destination);
    k := AcceptedSource(objects, route, folder, sources, accepted[j]);
  }

  lemma FailedFrom(
      objects: Objects, now: Objects, calls: seq<Call>, route: Route, folder: string, sources: seq<string>,
      moved: seq<Moved>, failed: seq<Failure>, f: Failure) returns (k: nat)
    requires Relative(folder) && Sources(sources) && Done(objects, now, calls, route, folder, sources, moved, failed)
    requires f in failed
    ensures k < |sources| && f.source == sources[k]
    ensures VerdictHolds(objects, route, folder, sources, k, if f.reason == MoveFailed then None else Some(f.reason))
  {
    if f in Rejected(objects, route, folder, sources) {
      k := RejectedSource(objects, route, folder, sources, f);
    } else {
      var c := UnmovedCandidate(objects, now, calls, route, folder, sources, moved, failed, f);
      k := AcceptedSource(objects, route, folder, sources, c);
    }
  }

  lemma RejectedSource(objects: Objects, route: Route, folder: string, sources: seq<string>, f: Failure)
    returns (k: nat)
    requires Relative(folder) && Sources(sources) && f in Rejected(objects, route, folder, sources)
    ensures k < |sources| && f.source == sources[k] && f.reason != MoveFailed
    ensures VerdictHolds(objects, route, folder, sources, k, Some(f.reason))
  {
    k := RejectedFrom(objects, route, folder, sources, f);
    VerdictExactlyWhen(objects, route, folder, sources, k, Some(f.reason));
  }

  lemma UnmovedCandidate(
      objects: Objects, now: Objects, calls: seq<Call>, route: Route, folder: string, sources: seq<string>,
      moved: seq<Moved>, failed: seq<Failure>, f: Failure) returns (c: Candidate)
    requires Done(objects, now, calls, route, folder, sources, moved, failed)
    requires f in failed && f !in Rejected(objects, route, folder, sources)
    ensures c in Accepted(objects, route, folder, sources) && f == Failure(c.source, MoveFailed)
  {
    var accepted := Accepted(objects, route, folder, sources);
    FailedByMeans(accepted, calls, |accepted|, f);
    var j :| 0 <= j < |accepted| && f == Failure(accepted[j].source, MoveFailed);
    c := accepted[j];
  }
}
