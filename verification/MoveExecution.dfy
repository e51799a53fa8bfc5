/** The execution phase of a batch move: one move per accepted candidate, each reported once. */
module MoveExecution {
  import opened RemoteStore

  datatype Reason = AlreadyThere | SameDestination | SourceMissing | SourceIsDirectory | DestinationExists | MoveFailed

  datatype Moved = Moved(source: string, destination: string)

  datatype Failure = Failure(source: string, reason: Reason)

  /** A validated source: its path and destination below the route, and the two objects they name on the remote. */
  datatype Candidate = Candidate(source: string, destination: string, leg: Leg)

  datatype Phase = Preparing | Validating | Moving | Refreshing | Completed

  datatype Event = Event(phase: Phase, total: nat, processed: nat, currentPath: string)

  // ---- progress reports

  /** Every report carries the same total, and the number of processed files never falls and stays within `bound`. */
  predicate Rising(events: seq<Event>, total: nat, bound: nat)
    decreases |events|
  {
    events == [] || (var last := events[|events| - 1];
      last.total == total && last.processed <= bound && Rising(events[..|events| - 1], total, last.processed))
  }

  function Report(events: seq<Event>, phase: Phase, total: nat, processed: nat, currentPath: string): (r: seq<Event>)
    ensures Rising(events, total, processed) ==> Rising(r, total, processed)
    ensures r == events + [Event(phase, total, processed, currentPath)]
  {
    var r := events + [Event(phase, total, processed, currentPath)];
    assert r[..|events|] == events;
    r
  }

  lemma RisingBound(events: seq<Event>, total: nat, bound: nat, more: nat)
    requires Rising(events, total, bound) && bound <= more
    ensures Rising(events, total, more)
  {}

  /** Any two reports, in order. */
  lemma {:induction false} ProgressNeverFalls(events: seq<Event>, total: nat, bound: nat, i: nat, j: nat)
    requires Rising(events, total, bound) && i <= j < |events|
    ensures events[i].processed <= events[j].processed <= bound && events[i].total == events[j].total == total
  {
    var n := |events| - 1;
    if j < n {
      ProgressNeverFalls(events[..n], total, events[n].processed, i, j);
    } else if i < n {
      ProgressNeverFalls(events[..n], total, events[n].processed, i, i);
    }
  }

  // ---- lists of sources, as multisets

  function FailedSources(failures: seq<Failure>): multiset<string> {
    if failures == [] then multiset{}
    else FailedSources(failures[..|failures| - 1]) + multiset{failures[|failures| - 1].source}
  }

  function MovedSources(moved: seq<Moved>): multiset<string> {
    if moved == [] then multiset{} else MovedSources(moved[..|moved| - 1]) + multiset{moved[|moved| - 1].source}
  }

  function CandidateSources(candidates: seq<Candidate>): multiset<string> {
    if candidates == [] then multiset{}
    else CandidateSources(candidates[..|candidates| - 1]) + multiset{candidates[|candidates| - 1].source}
  }

  lemma FailedSnoc(failures: seq<Failure>, f: Failure)
    ensures FailedSources(failures + [f]) == FailedSources(failures) + multiset{f.source}
  {
    assert (failures + [f])[..|failures|] == failures;
  }

  lemma MovedSnoc(moved: seq<Moved>, m: Moved)
    ensures MovedSources(moved + [m]) == MovedSources(moved) + multiset{m.source}
  {
    assert (moved + [m])[..|moved|] == moved;
  }

  lemma CandidatesSnoc(candidates: seq<Candidate>, c: Candidate)
    ensures CandidateSources(candidates + [c]) == CandidateSources(candidates) + multiset{c.source}
  {
    assert (candidates + [c])[..|candidates|] == candidates;
  }

  lemma Rearranged(a: multiset<string>, b: multiset<string>, x: multiset<string>)
    ensures (a + x) + b == (a + b) + x && a + (b + x) == (a + b) + x
  {}

  // ---- the state of the loop

  function Legs(candidates: seq<Candidate>): seq<Leg> {
    seq(|candidates|, k requires 0 <= k < |candidates| => candidates[k].leg)
  }

  predicate IsMoved(objects: Objects, now: Objects, c: Candidate, m: Moved) {
    m == Moved(c.source, c.destination) && MovedTo(objects, now, c.leg)
  }

  ghost predicate MovesHold(objects: Objects, now: Objects, candidates: seq<Candidate>, n: nat, moved: seq<Moved>)
    requires n <= |candidates|
  {
    forall m | m in moved :: exists k | 0 <= k < n :: IsMoved(objects, now, candidates[k], m)
  }

  /** The calls issued so far: one per candidate, each movable, with the source as validation saw it. */
  ghost predicate CallsHold(objects: Objects, calls: seq<Call>, legs: seq<Leg>, n: nat)
    requires n <= |legs|
  {
    |calls| == n && forall k | 0 <= k < n ::
      calls[k].source == legs[k].source && calls[k].destination == legs[k].destination
        && Pending(objects, calls[k].before, legs[k])
  }

  /** What has moved, by which calls, and nothing lost. */
  ghost predicate Issued(
      objects: Objects, now: Objects, calls: seq<Call>, candidates: seq<Candidate>, n: nat, moved: seq<Moved>)
    requires n <= |candidates|
  {
    && Executed(objects, now, Legs(candidates), n) && Chain(objects, calls, now)
    && CallsHold(objects, calls, Legs(candidates), n) && MovesHold(objects, now, candidates, n, moved)
  }

  /**
   * Every processed source in exactly one of the two lists; the reason of a new failure is that the move itself failed.
   */
  ghost predicate Accounts(
      rejected: seq<Failure>, candidates: seq<Candidate>, n: nat, moved: seq<Moved>, failed: seq<Failure>)
    requires n <= |candidates|
  {
    && MovedSources(moved) + FailedSources(failed) == FailedSources(rejected) + CandidateSources(candidates[..n])
    && |moved| + |failed| == |rejected| + n
    && |rejected| <= |failed| && failed[..|rejected|] == rejected
    && (forall k | |rejected| <= k < |failed| :: failed[k].reason == MoveFailed)
  }

  /** The files the remote reported as moved, and those it did not, of the first `n` candidates, in order. */
  function MovedBy(candidates: seq<Candidate>, calls: seq<Call>, n: nat): seq<Moved>
    requires n <= |candidates| && n <= |calls|
  {
    if n == 0 then []
    else
      var c := candidates[n - 1];
      MovedBy(candidates, calls, n - 1) + if calls[n - 1].ok then [Moved(c.source, c.destination)] else []
  }

  function FailedBy(candidates: seq<Candidate>, calls: seq<Call>, n: nat): seq<Failure>
    requires n <= |candidates| && n <= |calls|
  {
    if n == 0 then []
    else
      FailedBy(candidates, calls, n - 1) +
        if calls[n - 1].ok then [] else [Failure(candidates[n - 1].source, MoveFailed)]
  }

  /** Both lists say what the remote reported. */
  ghost predicate Reported(
      rejected: seq<Failure>, candidates: seq<Candidate>, calls: seq<Call>, n: nat, moved: seq<Moved>,
      failed: seq<Failure>) {
    && n <= |candidates| && n == |calls|
    && moved == MovedBy(candidates, calls, n) && failed == rejected + FailedBy(candidates, calls, n)
  }

  lemma {:induction false} LaterCall(candidates: seq<Candidate>, calls: seq<Call>, call: Call, n: nat)
    requires n <= |candidates| && n <= |calls|
    ensures MovedBy(candidates, calls + [call], n) == MovedBy(candidates, calls, n)
    ensures FailedBy(candidates, calls + [call], n) == FailedBy(candidates, calls, n)
  {
    if n > 0 {
      LaterCall(candidates, calls, call, n - 1);
    }
  }

  lemma ReportedNext(
      rejected: seq<Failure>, candidates: seq<Candidate>, calls: seq<Call>, n: nat, moved: seq<Moved>,
      failed: seq<Failure>, call: Call)
    requires n < |candidates| && Reported(rejected, candidates, calls, n, moved, failed)
    ensures var c := candidates[n];
      Reported(rejected, candidates, calls + [call], n + 1,
        if call.ok then moved + [Moved(c.source, c.destination)] else moved,
        if call.ok then failed else failed + [Failure(c.source, MoveFailed)])
  {
    LaterCall(candidates, calls, call, n);
    assert (calls + [call])[n] == call;
  }

  lemma {:induction false} MovedByMeans(candidates: seq<Candidate>, calls: seq<Call>, n: nat, m: Moved)
    requires n <= |candidates| && n <= |calls|
    ensures m in MovedBy(candidates, calls, n) <==>
      exists k | 0 <= k < n :: calls[k].ok && m == Moved(candidates[k].source, candidates[k].destination)
  {
    if n > 0 {
      MovedByMeans(candidates, calls, n - 1, m);
    }
  }

  lemma {:induction false} FailedByMeans(candidates: seq<Candidate>, calls: seq<Call>, n: nat, f: Failure)
    requires n <= |candidates| && n <= |calls|
    ensures f in FailedBy(candidates, calls, n) <==>
      exists k | 0 <= k < n :: !calls[k].ok && f == Failure(candidates[k].source, MoveFailed)
  {
    if n > 0 {
      FailedByMeans(candidates, calls, n - 1, f);
    }
  }

  /** The second loop of the batch. */
  method Execute(remote: Remote, candidates: seq<Candidate>, rejected: seq<Failure>, reported: seq<Event>, total: nat)
    returns (moved: seq<Moved>, failed: seq<Failure>, events: seq<Event>, ghost calls: seq<Call>)
    requires AllApart(Legs(candidates)) && Executed(remote.objects, remote.objects, Legs(candidates), 0)
    requires Rising(reported, total, |rejected|)
    modifies remote`objects, remote`calls
    ensures remote.calls == old(remote.calls) + calls
    ensures Reported(rejected, candidates, calls, |candidates|, moved, failed)
    ensures Issued(old(remote.objects), remote.objects, calls, candidates, |candidates|, moved)
    ensures Accounts(rejected, candidates, |candidates|, moved, failed)
    ensures Rising(events, total, |moved| + |failed|)
  {
    moved, failed, events, calls := [], rejected, reported, [];
    ghost var objects, base := remote.objects, remote.calls;
    for n := 0 to |candidates|
      invariant remote.calls == base + calls
      invariant Issued(objects, remote.objects, calls, candidates, n, moved)
      invariant Accounts(rejected, candidates, n, moved, failed)
      invariant Reported(rejected, candidates, calls, n, moved, failed)
      invariant Rising(events, total, |moved| + |failed|)
    {
      moved, failed, events, calls :=
        MoveOne(remote, objects, base, calls, rejected, candidates, n, moved, failed, events, total);
    }
  }

  /** One candidate: move it and report it in one of the lists. */
  method MoveOne(
      remote: Remote, ghost objects: Objects, ghost base: seq<Call>, ghost calls: seq<Call>,
      ghost rejected: seq<Failure>, candidates: seq<Candidate>, n: nat,
      moved: seq<Moved>, failed: seq<Failure>, events: seq<Event>, total: nat)
    returns (moved': seq<Moved>, failed': seq<Failure>, events': seq<Event>, ghost issued: seq<Call>)
    requires n < |candidates| && AllApart(Legs(candidates)) && remote.calls == base + calls
    requires Issued(objects, remote.objects, calls, candidates, n, moved)
    requires Accounts(rejected, candidates, n, moved, failed)
    requires Reported(rejected, candidates, calls, n, moved, failed)
    requires Rising(events, total, |moved| + |failed|)
    modifies remote`objects, remote`calls
    ensures Reported(rejected, candidates, issued, n + 1, moved', failed')
    ensures Issued(objects, remote.objects, issued, candidates, n + 1, moved')
    ensures Accounts(rejected, candidates, n + 1, moved', failed') && Rising(events', total, |moved'| + |failed'|)
    ensures remote.calls == base + issued
  {
    var c := candidates[n];
    events' := Report(events, Moving, total, |moved| + |failed|, c.source);
    RisingBound(events', total, |moved| + |failed|, |moved| + |failed| + 1);
    AccountsNext(rejected, candidates, n, moved, failed, Moved(c.source, c.destination));
    var ok;
    ok, issued := MoveCandidate(remote, objects, base, calls, candidates, n, moved);
    ReportedNext(rejected, candidates, calls, n, moved, failed, issued[|calls|]);
    moved' := if ok then moved + [Moved(c.source, c.destination)] else moved;
    failed' := if ok then failed else failed + [Failure(c.source, MoveFailed)];
    events' := Report(events', Moving, total, |moved'| + |failed'|, c.source);
  }

  /** The move itself, whatever it reports. */
  method MoveCandidate(
      remote: Remote, ghost objects: Objects, ghost base: seq<Call>, ghost calls: seq<Call>,
      candidates: seq<Candidate>, n: nat, ghost moved: seq<Moved>)
    returns (ok: bool, ghost issued: seq<Call>)
    requires n < |candidates| && AllApart(Legs(candidates)) && remote.calls == base + calls
    requires Issued(objects, remote.objects, calls, candidates, n, moved)
    modifies remote`objects, remote`calls
    ensures |issued| == |calls| + 1 && issued == calls + [issued[|calls|]] && issued[|calls|].ok == ok
    ensures var c := candidates[n];
      Issued(objects, remote.objects, issued, candidates, n + 1,
        if ok then moved + [Moved(c.source, c.destination)] else moved)
    ensures remote.calls == base + issued
  {
    var c := candidates[n];
    ok := remote.Move(c.leg.source, c.leg.destination);
    IssuedNext(objects, old(remote.objects), remote.objects, calls, candidates, n, moved, ok);
    issued := calls + [Call(c.leg.source, c.leg.destination, old(remote.objects), ok)];
  }

  lemma IssuedNext(
      objects: Objects, now: Objects, after: Objects, calls: seq<Call>, candidates: seq<Candidate>, n: nat,
      moved: seq<Moved>, ok: bool)
    requires n < |candidates| && Issued(objects, now, calls, candidates, n, moved) && AllApart(Legs(candidates))
    requires MoveEffect(now, after, candidates[n].leg.source, candidates[n].leg.destination, ok)
    ensures var c := candidates[n];
      Issued(objects, after, calls + [Call(c.leg.source, c.leg.destination, now, ok)], candidates, n + 1,
        if ok then moved + [Moved(c.source, c.destination)] else moved)
  {
    var legs := Legs(candidates);
    ExecutedNext(objects, now, after, legs, n, ok);
    ChainNext(objects, calls, now, after, legs[n].source, legs[n].destination, ok);
    forall k | 0 <= k < n && MovedTo(objects, now, candidates[k].leg)
      ensures MovedTo(objects, after, candidates[k].leg) {
      assert legs[k] == candidates[k].leg;
    }
    MovesNext(objects, now, after, candidates, n, moved, ok);
  }

  lemma MovesNext(
      objects: Objects, now: Objects, after: Objects, candidates: seq<Candidate>, n: nat, moved: seq<Moved>, ok: bool)
    requires n < |candidates| && MovesHold(objects, now, candidates, n, moved)
    requires forall k | 0 <= k < n && MovedTo(objects, now, candidates[k].leg) ::
      MovedTo(objects, after, candidates[k].leg)
    requires ok ==> MovedTo(objects, after, candidates[n].leg)
    ensures var last := Moved(candidates[n].source, candidates[n].destination);
      MovesHold(objects, after, candidates, n + 1, if ok then moved + [last] else moved)
  {
    var last := Moved(candidates[n].source, candidates[n].destination);
    forall m | m in moved ensures exists k | 0 <= k < n + 1 :: IsMoved(objects, after, candidates[k], m) {
      var k :| 0 <= k < n && IsMoved(objects, now, candidates[k], m);
      assert IsMoved(objects, after, candidates[k], m);
    }
    assert ok ==> IsMoved(objects, after, candidates[n], last);
  }

  lemma AccountsNext(
      rejected: seq<Failure>, candidates: seq<Candidate>, n: nat, moved: seq<Moved>, failed: seq<Failure>, m: Moved)
    requires n < |candidates| && Accounts(rejected, candidates, n, moved, failed) && m.source == candidates[n].source
    ensures Accounts(rejected, candidates, n + 1, moved + [m], failed)
    ensures Accounts(rejected, candidates, n + 1, moved, failed + [Failure(m.source, MoveFailed)])
  {
    assert candidates[..n + 1] == candidates[..n] + [candidates[n]];
    CandidatesSnoc(candidates[..n], candidates[n]);
    MovedSnoc(moved, m);
    FailedSnoc(failed, Failure(m.source, MoveFailed));
    Rearranged(MovedSources(moved), FailedSources(failed), multiset{m.source});
    Rearranged(FailedSources(rejected), CandidateSources(candidates[..n]), multiset{m.source});
  }
}
