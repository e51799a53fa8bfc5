/**
 * A remote object store seen through `lsjson --stat` and `moveto --ignore-existing`.  Any call may fail; a move that
 * reports an error has either relocated the object or left everything as it was.
 */
module RemoteStore {
  import opened Wrappers

  datatype Object = Object(isDir: bool, size: int, fingerprint: string)

  type Objects = map<string, Object>

  /** One move, with the contents of the remote when it was issued and what it reported. */
  datatype Call = Call(source: string, destination: string, before: Objects, ok: bool)

  predicate CanMove(objects: Objects, source: string, destination: string) {
    source in objects && !objects[source].isDir && destination !in objects
  }

  function Relocated(objects: Objects, source: string, destination: string): Objects
    requires source in objects
  {
    (objects - {source})[destination := objects[source]]
  }

  predicate MoveEffect(before: Objects, after: Objects, source: string, destination: string, ok: bool) {
    || (CanMove(before, source, destination) && after == Relocated(before, source, destination))
    || (!ok && after == before)
  }

  class Remote {
    var objects: Objects
    ghost var calls: seq<Call>
    ghost var statErrors: nat

    constructor (objects: Objects)
      ensures this.objects == objects && calls == [] && statErrors == 0
    {
      this.objects, calls, statErrors := objects, [], 0;
    }

    method Stat(path: string) returns (r: Result<Option<Object>, ()>)
      modifies this`statErrors
      ensures r.Ok? ==> r.value == if path in objects then Some(objects[path]) else None
      ensures statErrors == if r.Err? then old(statErrors) + 1 else old(statErrors)
    {
      if * {
        statErrors := statErrors + 1;
        return Err(());
      }
      return Ok(if path in objects then Some(objects[path]) else None);
    }

    /** An occupied destination is skipped, and the verification afterwards then reports an error. */
    method Move(source: string, destination: string) returns (ok: bool)
      modifies this`objects, this`calls
      ensures MoveEffect(old(objects), objects, source, destination, ok)
      ensures calls == old(calls) + [Call(source, destination, old(objects), ok)]
    {
      ghost var before := objects;
      var reaches := *;
      ok := false;
      if reaches && CanMove(objects, source, destination) {
        objects := Relocated(objects, source, destination);
        ok := *;
      }
      calls := calls + [Call(source, destination, before, ok)];
    }
  }

  // ---- conservation

  /** The values of a map, each as often as it is stored. */
  ghost function Bag<K, V>(m: map<K, V>): multiset<V>
    decreases |m|
  {
    if m == map[] then multiset{}
    else
      var k :| k in m;
      Bag(m - {k}) + multiset{m[k]}
  }

  lemma PickedKey<K, V>(m: map<K, V>) returns (k: K)
    requires m != map[]
    ensures k in m && Bag(m) == Bag(m - {k}) + multiset{m[k]}
  {
    k :| k in m && Bag(m) == Bag(m - {k}) + multiset{m[k]};
  }

  /** The bag does not depend on the order in which it is filled. */
  lemma {:induction false} BagWithout<K, V>(m: map<K, V>, k: K)
    requires k in m
    ensures Bag(m) == Bag(m - {k}) + multiset{m[k]}
    decreases |m|
  {
    var j := PickedKey(m);
    if j != k {
      var a, b := m - {j}, m - {k};
      assert a - {k} == b - {j} && a[k] == m[k] && b[j] == m[j];
      BagWithout(a, k);
      BagWithout(b, j);
      Reordered(Bag(a - {k}), multiset{m[k]}, multiset{m[j]});
    }
  }

  lemma Reordered<V>(x: multiset<V>, a: multiset<V>, b: multiset<V>)
    ensures (x + a) + b == (x + b) + a
  {}

  /** A move neither loses, duplicates nor alters an object. */
  lemma MovesConserve(before: Objects, after: Objects, source: string, destination: string, ok: bool)
    requires MoveEffect(before, after, source, destination, ok)
    ensures Bag(after) == Bag(before) && |after| == |before|
  {
    if after != before {
      BagWithout(before, source);
      BagWithout(after, destination);
      Exchanged(before, after, source, destination);
    }
  }

  /** The calls lead from one state of the remote to the other. */
  ghost predicate Chain(before: Objects, calls: seq<Call>, after: Objects) {
    if calls == [] then after == before
    else
      var last := calls[|calls| - 1];
      Chain(before, calls[..|calls| - 1], last.before)
        && MoveEffect(last.before, after, last.source, last.destination, last.ok)
  }

  lemma ChainNext(
      before: Objects, calls: seq<Call>, now: Objects, after: Objects, source: string, destination: string, ok: bool)
    requires Chain(before, calls, now) && MoveEffect(now, after, source, destination, ok)
    ensures Chain(before, calls + [Call(source, destination, now, ok)], after)
  {
    assert (calls + [Call(source, destination, now, ok)])[..|calls|] == calls;
  }

  /** No sequence of moves, successful or not, loses, duplicates or alters an object. */
  lemma {:induction false} ChainConserves(before: Objects, calls: seq<Call>, after: Objects)
    requires Chain(before, calls, after)
    ensures Bag(after) == Bag(before) && |after| == |before|
  {
    if calls != [] {
      var last := calls[|calls| - 1];
      ChainConserves(before, calls[..|calls| - 1], last.before);
      MovesConserve(last.before, after, last.source, last.destination, last.ok);
    }
  }

  lemma Exchanged<K, V>(before: map<K, V>, after: map<K, V>, source: K, destination: K)
    requires source in before && destination !in before && after == (before - {source})[destination := before[source]]
    ensures after - {destination} == before - {source} && |after| == |before|
  {
    assert after - {destination} == before - {source};
    assert after.Keys == (before.Keys - {source}) + {destination};
    assert |before.Keys - {source}| == |before.Keys| - 1;
  }

  // ---- several moves one after the other

  datatype Leg = Leg(source: string, destination: string)

  predicate LegsApart(a: Leg, b: Leg) {
    a.source != b.source && a.destination != b.destination && a.source != b.destination && a.destination != b.source
  }

  ghost predicate AllApart(legs: seq<Leg>) {
    forall j, k {:trigger LegsApart(legs[j], legs[k])} | 0 <= j < |legs| && 0 <= k < |legs| && j != k ::
      LegsApart(legs[j], legs[k])
  }

  predicate SameAt(a: Objects, b: Objects, path: string) {
    (path in a <==> path in b) && (path in a ==> a[path] == b[path])
  }

  /** Not yet moved: movable, and with the contents it had at the start. */
  predicate Pending(before: Objects, now: Objects, leg: Leg) {
    CanMove(now, leg.source, leg.destination) && leg.source in before && now[leg.source] == before[leg.source]
  }

  predicate MovedTo(before: Objects, after: Objects, leg: Leg) {
    leg.source in before && leg.source !in after && leg.destination in after
      && after[leg.destination] == before[leg.source]
  }

  /** Where it was or at its destination, unchanged either way, and never at both. */
  predicate Settled(before: Objects, after: Objects, leg: Leg) {
    MovedTo(before, after, leg) || Pending(before, after, leg)
  }

  predicate IsEnd(legs: seq<Leg>, path: string) {
    exists k | 0 <= k < |legs| :: path == legs[k].source || path == legs[k].destination
  }

  /** The first `n` legs are settled, the others are as they were, and no other object has changed. */
  ghost predicate Executed(before: Objects, after: Objects, legs: seq<Leg>, n: nat)
    requires n <= |legs|
  {
    && (forall k | 0 <= k < n :: Settled(before, after, legs[k]))
    && (forall k | n <= k < |legs| :: Pending(before, after, legs[k]))
    && (forall path | !IsEnd(legs, path) :: SameAt(before, after, path))
  }

  lemma OtherPath(now: Objects, after: Objects, leg: Leg, ok: bool, path: string)
    requires MoveEffect(now, after, leg.source, leg.destination, ok) && path != leg.source && path != leg.destination
    ensures SameAt(now, after, path)
  {}

  lemma OtherLeg(before: Objects, now: Objects, after: Objects, leg: Leg, other: Leg, ok: bool)
    requires MoveEffect(now, after, leg.source, leg.destination, ok) && LegsApart(other, leg)
    ensures Settled(before, now, other) ==> Settled(before, after, other)
    ensures Pending(before, now, other) ==> Pending(before, after, other)
    ensures MovedTo(before, now, other) ==> MovedTo(before, after, other)
  {
    OtherPath(now, after, leg, ok, other.source);
    OtherPath(now, after, leg, ok, other.destination);
  }

  lemma ThisLeg(before: Objects, now: Objects, after: Objects, leg: Leg, ok: bool)
    requires MoveEffect(now, after, leg.source, leg.destination, ok) && Pending(before, now, leg)
    ensures Settled(before, after, leg) && (ok ==> MovedTo(before, after, leg))
  {}

  lemma ExecutedNext(before: Objects, now: Objects, after: Objects, legs: seq<Leg>, n: nat, ok: bool)
    requires n < |legs| && AllApart(legs) && Executed(before, now, legs, n)
    requires MoveEffect(now, after, legs[n].source, legs[n].destination, ok)
    ensures Executed(before, after, legs, n + 1)
    ensures ok ==> MovedTo(before, after, legs[n])
    ensures forall k | 0 <= k < n && MovedTo(before, now, legs[k]) :: MovedTo(before, after, legs[k])
  {
    ThisLeg(before, now, after, legs[n], ok);
    forall k | 0 <= k < |legs| && k != n
      ensures Settled(before, now, legs[k]) ==> Settled(before, after, legs[k])
      ensures Pending(before, now, legs[k]) ==> Pending(before, after, legs[k])
      ensures MovedTo(before, now, legs[k]) ==> MovedTo(before, after, legs[k])
    {
      assert LegsApart(legs[k], legs[n]);
      OtherLeg(before, now, after, legs[n], legs[k], ok);
    }
    forall path | !IsEnd(legs, path) ensures SameAt(before, after, path) {
      OtherPath(now, after, legs[n], ok, path);
    }
  }
}
