/**
 * The worker's heartbeat against a hostile queue.  The worker `self` holds task `id`; everybody else performs
 * arbitrary queue operations; time passes at will between the heartbeat's own deadlines.
 */
module LeaseTiming {
  import opened Wrappers
  import opened TaskTable
  import P = TaskProtocol

  // ---- configuration

  /** The lease and heartbeat interval `NewQueue` settles on. */
  function EffectiveLease(lease: Time): Time {
    if lease <= 0 then 90 * SECOND else lease
  }

  function EffectiveHeartbeat(heartbeat: Time, lease: Time): Time {
    if heartbeat <= 0 || heartbeat * 2 >= EffectiveLease(lease) then EffectiveLease(lease) / 3 else heartbeat
  }

  function AttemptTimeout(heartbeat: Time): Time {
    if heartbeat < 5 * SECOND then heartbeat else 5 * SECOND
  }

  /**
   * Whatever was configured, two heartbeats fit strictly inside a lease; the ticker is legal from three time units on.
   * What fits is kept; otherwise the lease is ninety seconds and the heartbeat a third of the lease.
   */
  lemma ConfiguredTiming(heartbeat: Time, lease: Time)
    ensures var l, h := EffectiveLease(lease), EffectiveHeartbeat(heartbeat, lease);
      && 0 < l && 0 <= h && 2 * h < l
      && (h > 0 <==> l >= 3)
      && AttemptTimeout(h) <= h && AttemptTimeout(h) <= 5 * SECOND && AttemptTimeout(h) in {h, 5 * SECOND}
      && (lease > 0 ==> l == lease) && (lease <= 0 ==> l == 90 * SECOND)
      && (if heartbeat > 0 && 2 * heartbeat < l then h == heartbeat else 3 * h <= l < 3 * h + 3)
  {}

  /** From three time units on the configured lease gives a valid timing, so every theorem below applies to it. */
  lemma ConfiguredIsValid(heartbeat: Time, lease: Time)
    requires EffectiveLease(lease) >= 3
    ensures var h := EffectiveHeartbeat(heartbeat, lease);
      ValidTiming(Timing(EffectiveLease(lease), h, AttemptTimeout(h)))
  {}

  datatype Timing = Timing(lease: Time, interval: Time, attempt: Time)

  predicate ValidTiming(c: Timing) {
    0 < c.attempt <= c.interval && 2 * c.interval < c.lease
  }

  // ---- one worker's heartbeat

  /**
   * `Waiting(due)`: the next tick is handled no later than `due`.
   * `Attempting(start, issued, seen)`: a renewal began at `start`; `issued` says whether its statement was sent and
   * `seen` is what the statement reported, once it ran.
   */
  datatype Phase = Waiting(due: Time) | Attempting(start: Time, issued: bool, seen: Option<bool>)

  datatype Heartbeat = Heartbeat(deadline: Time, lost: bool, phase: Phase)

  datatype Reply = Renewal(active: bool) | Error

  predicate RetryWouldExceedLease(now: Time, deadline: Time, c: Timing) {
    !(now + c.interval + c.attempt < deadline)
  }

  /** The heartbeat's decision when a renewal attempt returns. */
  function Decide(hb: Heartbeat, start: Time, reply: Reply, now: Time, c: Timing): Heartbeat {
    match reply
    case Renewal(true) => Heartbeat(start + c.lease, hb.lost, Waiting(start + c.interval))
    case Renewal(false) => hb.(lost := true)
    case Error => if RetryWouldExceedLease(now, hb.deadline, c) then hb.(lost := true)
      else hb.(phase := Waiting(start + c.interval))
  }

  // ---- the loop of the heartbeat goroutine

  /** A finished renewal attempt: when its tick was handled, what it returned, and when. */
  datatype Attempt = Attempt(start: Time, end: Time, reply: Reply)

  /** The deadline before attempt `k`: set by the last confirmed renewal. */
  function DeadlineBefore(first: Time, attempts: seq<Attempt>, k: nat, lease: Time): Time
    requires k <= |attempts|
  {
    if k == 0 then first
    else if attempts[k - 1].reply == Renewal(true) then attempts[k - 1].start + lease
    else DeadlineBefore(first, attempts, k - 1, lease)
  }

  /** Attempt `k` ends the lease: the row was refused, or a further attempt could end only at the deadline or later. */
  predicate Fatal(first: Time, attempts: seq<Attempt>, k: nat, c: Timing)
    requires k < |attempts|
  {
    attempts[k].reply == Renewal(false)
    || (attempts[k].reply == Error
      && attempts[k].end + c.interval + c.attempt >= DeadlineBefore(first, attempts, k, c.lease))
  }

  /** The decisions in sequence, as the timed system below takes them one by one. */
  function HandleAll(hb: Heartbeat, attempts: seq<Attempt>, c: Timing): Heartbeat
    decreases |attempts|
  {
    if hb.lost || attempts == [] then hb
    else HandleAll(Decide(hb, attempts[0].start, attempts[0].reply, attempts[0].end, c), attempts[1..], c)
  }

  /**
   * The loop reports a lost lease exactly at the first fatal attempt, and otherwise keeps the last confirmed deadline.
   */
  method RunHeartbeat(first: Time, attempts: seq<Attempt>, c: Timing) returns (lost: bool, handled: nat, deadline: Time)
    ensures var hb := HandleAll(Heartbeat(first, false, Waiting(first)), attempts, c);
      lost == hb.lost && deadline == hb.deadline
    ensures handled <= |attempts|
    ensures lost <==> exists k :: 0 <= k < |attempts| && Fatal(first, attempts, k, c)
    ensures lost ==> handled > 0 && Fatal(first, attempts, handled - 1, c)
    ensures forall k | 0 <= k < (if lost then handled - 1 else |attempts|) :: !Fatal(first, attempts, k, c)
    ensures deadline == DeadlineBefore(first, attempts, if lost then handled - 1 else |attempts|, c.lease)
  {
    lost, handled, deadline := false, 0, first;
    ghost var hb := Heartbeat(first, false, Waiting(first));
    assert attempts[0..] == attempts;
    while handled < |attempts|
      invariant handled <= |attempts|
      invariant forall k | 0 <= k < handled :: !Fatal(first, attempts, k, c)
      invariant deadline == DeadlineBefore(first, attempts, handled, c.lease)
      invariant !lost && !hb.lost && hb.deadline == deadline
      invariant HandleAll(Heartbeat(first, false, Waiting(first)), attempts, c) == HandleAll(hb, attempts[handled..], c)
    {
      var a := attempts[handled];
      assert attempts[handled..][1..] == attempts[handled + 1..];
      hb := Decide(hb, a.start, a.reply, a.end, c);
      match a.reply {
        case Error =>
          if RetryWouldExceedLease(a.end, deadline, c) {
            assert Fatal(first, attempts, handled, c);
            return true, handled + 1, deadline;
          }
        case Renewal(active) =>
          if !active {
            assert Fatal(first, attempts, handled, c);
            return true, handled + 1, deadline;
          }
          deadline := a.start + c.lease;
      }
      handled := handled + 1;
    }
  }

  // ---- the timed system

  /**
   * A renewal statement on its way to the database.  The client computes the expiry before it sends the statement, so
   * `stamp`, not the time of the effect, decides what is written.
   */
  datatype Statement = Statement(attempt: nat, start: Time, stamp: Time)

  /**
   * `attempt` numbers the renewal attempts, `started` is when the latest began, `flight` holds unexecuted statements.
   */
  datatype World = World(db: Db, now: Time, hb: Heartbeat, attempt: nat, started: Time, flight: set<Statement>)

  datatype Step =
    | Pass(until: Time)
    | Tick
    | Issue
    | Effect(statement: Statement)
    | Return(reply: Reply)
    | Others(op: Op)

  /**
   * Operations of everybody else, with a time read at or before now, and never as owner `self` nor a claim by `self`.
   */
  predicate Foreign(op: Op, self: string, now: Time) {
    && P.ValidOp(op) && op.now <= now
    && match op
       case Claim(owner, _, _, _) => owner != self
       case Renew(_, owner, _, _) => owner != self
       case Succeed(_, owner, _) => owner != self
       case FinishCancel(_, owner, _) => owner != self
       case Fail(_, owner, _, _) => owner != self
       case ReleaseCanceled(_, owner, _) => owner != self
       case ReleasePending(_, owner, _) => owner != self
       case _ => true
  }

  predicate Holds(db: Db, id: Id, self: string) {
    id in db.tasks && Owns(db.tasks[id], self)
  }

  /** A renewal statement finds its row. */
  predicate Active(db: Db, id: Id, self: string) {
    Holds(db, id, self) && db.tasks[id].cancelRequestedAt.None?
  }

  predicate Enabled(w: World, s: Step, id: Id, self: string, c: Timing) {
    match s
    case Pass(until) =>
      w.now <= until && until <= (if w.hb.phase.Waiting? then w.hb.phase.due else w.hb.phase.start + c.attempt)
    case Tick => w.hb.phase.Waiting?
    case Issue => w.hb.phase.Attempting? && !w.hb.phase.issued
    case Effect(st) => st in w.flight
    case Return(reply) => w.hb.phase.Attempting? && (reply.Renewal? ==> w.hb.phase.seen == Some(reply.active))
    case Others(op) => Foreign(op, self, w.now)
  }

  /** The statement is the one the current attempt is waiting for. */
  predicate Awaited(w: World, st: Statement) {
    w.hb.phase.Attempting? && st.attempt == w.attempt
  }

  /**
   * One step.  Sending the renewal statement, its effect and its reply are separate: an attempt may report an error
   * while its statement is still on the way, and that statement may run at any later time.  Once the lease is declared
   * lost the heartbeat stops.
   */
  ghost function Next(w: World, s: Step, id: Id, self: string, c: Timing, maxAttempts: int): World {
    if w.hb.lost || !Enabled(w, s, id, self, c) then w
    else
      match s
      case Pass(until) => w.(now := until)
      case Tick => w.(hb := w.hb.(phase := Attempting(w.now, false, None)), attempt := w.attempt + 1, started := w.now)
      case Issue =>
        w.(hb := w.hb.(phase := w.hb.phase.(issued := true)),
           flight := w.flight + {Statement(w.attempt, w.hb.phase.start, w.now)})
      case Effect(st) =>
        w.(db := Apply(w.db, Renew(id, self, c.lease, st.stamp), maxAttempts), flight := w.flight - {st},
           hb := if Awaited(w, st) then w.hb.(phase := w.hb.phase.(seen := Some(Active(w.db, id, self)))) else w.hb)
      case Return(reply) => w.(hb := Decide(w.hb, w.hb.phase.start, reply, w.now, c))
      case Others(op) => w.(db := Apply(w.db, op, maxAttempts))
  }

  ghost function RunWorld(w: World, steps: seq<Step>, id: Id, self: string, c: Timing, maxAttempts: int): World {
    if steps == [] then w
    else Next(RunWorld(w, steps[..|steps| - 1], id, self, c, maxAttempts), steps[|steps| - 1], id, self, c, maxAttempts)
  }

  /**
   * Right after a claim at time `claimed`, with the first tick due early enough for one attempt.  Statements may still
   * be on the way from an earlier lease: a worker's owner name is the same for all its leases, so they find the row
   * again.
   */
  ghost predicate Initial(w: World, claimed: Time, id: Id, self: string, c: Timing, maxAttempts: int) {
    && P.TableInv(w.db, maxAttempts) && self != ""
    && Holds(w.db, id, self) && w.db.tasks[id].leaseExpiresAt == Some(claimed + c.lease)
    && !w.hb.lost && w.hb.deadline == claimed + c.lease
    && claimed <= w.now && w.started <= w.now && (forall st | st in w.flight :: st.attempt < w.attempt)
    && w.hb.phase.Waiting? && w.now <= w.hb.phase.due && w.hb.phase.due + c.attempt < claimed + c.lease
  }

  /**
   * A committed claim begins a lease: with the deadline the worker computes and a first tick due early enough, whatever
   * earlier statements are still on the way, the world is an initial one.
   */
  lemma ClaimBeginsLease(
      db: Db, self: string, now: Time, locked: set<Id>, id: Id, c: Timing, maxAttempts: int,
      due: Time, attempt: nat, started: Time, flight: set<Statement>)
    requires maxAttempts >= 1 && self != "" && P.TableInv(db, maxAttempts)
    requires Winner(db.tasks, now, maxAttempts, locked) == Some(id)
    requires now <= due && due + c.attempt < now + c.lease
    requires started <= now && forall st | st in flight :: st.attempt < attempt
    ensures Initial(
      World(Apply(db, Claim(self, c.lease, now, locked), maxAttempts), now,
        Heartbeat(now + c.lease, false, Waiting(due)), attempt, started, flight),
      now, id, self, c, maxAttempts)
  {
    RowOf(db, Claim(self, c.lease, now, locked), maxAttempts, id);
    P.ApplyKeepsInv(db, Claim(self, c.lease, now, locked), maxAttempts);
  }

  /** Until a claimed lease has run out, no other claim returns or changes the row, whatever rows it finds locked. */
  lemma ClaimExcludesClaims(
      db: Db, self: string, lease: Time, now: Time, locked: set<Id>, id: Id, maxAttempts: int,
      rival: string, rivalLease: Time, at: Time, rivalLocked: set<Id>)
    requires maxAttempts >= 1 && self != "" && P.TableInv(db, maxAttempts)
    requires Winner(db.tasks, now, maxAttempts, locked) == Some(id) && at < now + lease
    ensures var held := Apply(db, Claim(self, lease, now, locked), maxAttempts);
      var after := Apply(held, Claim(rival, rivalLease, at, rivalLocked), maxAttempts).tasks;
      && Winner(held.tasks, at, maxAttempts, rivalLocked) != Some(id)
      && id in held.tasks && id in after && after[id] == held.tasks[id] && after[id].leaseOwner == self
  {
    var op := Claim(self, lease, now, locked);
    RowOf(db, op, maxAttempts, id);
    P.ApplyKeepsInv(db, op, maxAttempts);
    P.UnexpiredLeaseIsKept(Apply(db, op, maxAttempts), rival, rivalLease, at, rivalLocked, maxAttempts, id);
  }

  /** The row's lease reaches at least to `t`. */
  predicate LeaseReaches(db: Db, id: Id, self: string, t: Time)
    requires Holds(db, id, self)
  {
    db.tasks[id].leaseExpiresAt.Some? && t <= db.tasks[id].leaseExpiresAt.value
  }

  /** How far the stored lease must reach: to the deadline, or to the one the awaited confirmation is about to set. */
  function Required(w: World, c: Timing): Time {
    if w.hb.phase.Attempting? && w.hb.phase.seen == Some(true) then w.hb.phase.start + c.lease else w.hb.deadline
  }

  ghost predicate LeaseIsSafe(w: World, id: Id, self: string, c: Timing) {
    && w.now < w.hb.deadline <= w.now + c.lease
    && Holds(w.db, id, self) && LeaseReaches(w.db, id, self, Required(w, c))
    && match w.hb.phase
       case Waiting(due) => w.now <= due && due + c.attempt < w.hb.deadline
       case Attempting(start, issued, seen) =>
         && start <= w.now <= start + c.attempt < w.hb.deadline <= start + c.lease
         && start == w.started && (seen.Some? ==> issued)
  }

  /** Statements belong to past attempts, at most one to the latest; that one was stamped after everything confirmed. */
  ghost predicate FlightIsKnown(w: World, c: Timing) {
    && (forall st | st in w.flight :: st.attempt <= w.attempt)
    && (forall st | st in w.flight && st.attempt == w.attempt :: LatestIsKnown(w, st, c))
    && (forall x, y | x in w.flight && y in w.flight && x.attempt == y.attempt == w.attempt :: x == y)
  }

  predicate LatestIsKnown(w: World, st: Statement, c: Timing) {
    && w.hb.deadline <= st.stamp + c.lease && st.start == w.started
    && (w.hb.phase.Attempting? ==>
          w.hb.phase.issued && w.hb.phase.seen.None? && w.hb.phase.start == st.start <= st.stamp)
  }

  ghost predicate Safe(w: World, id: Id, self: string, c: Timing, maxAttempts: int) {
    && P.TableInv(w.db, maxAttempts) && self != "" && id < w.db.nextId
    && (!w.hb.lost ==> LeaseIsSafe(w, id, self, c) && FlightIsKnown(w, c))
  }

  lemma OthersKeepLease(db: Db, op: Op, maxAttempts: int, id: Id, self: string, now: Time)
    requires P.TableInv(db, maxAttempts) && self != "" && Holds(db, id, self) && Foreign(op, self, now)
    requires db.tasks[id].leaseExpiresAt.Some? && now < db.tasks[id].leaseExpiresAt.value
    ensures var after := Apply(db, op, maxAttempts);
      && Holds(after, id, self)
      && after.tasks[id].leaseExpiresAt == db.tasks[id].leaseExpiresAt
      && after.tasks[id].retryCount == db.tasks[id].retryCount
  {
    RowOf(db, op, maxAttempts, id);
    if op.Claim? {
      P.UnexpiredLeaseIsKept(db, op.owner, op.lease, op.now, op.locked, maxAttempts, id);
    }
  }

  lemma RenewWrites(db: Db, id: Id, self: string, lease: Time, stamp: Time, maxAttempts: int)
    requires db.nextId !in db.tasks && Holds(db, id, self)
    ensures var after := Apply(db, Renew(id, self, lease, stamp), maxAttempts);
      && Holds(after, id, self)
      && after.tasks[id].leaseExpiresAt == if Active(db, id, self) then Some(stamp + lease)
        else db.tasks[id].leaseExpiresAt
  {
    RowOf(db, Renew(id, self, lease, stamp), maxAttempts, id);
  }

  // ---- when a renewal statement may run

  /**
   * The condition under which a renewal statement may run: it finds no row, or it does not write too early an expiry.
   */
  ghost predicate Harmless(w: World, s: Step, id: Id, self: string, c: Timing) {
    s.Effect? && !w.hb.lost && s.statement in w.flight ==>
      !Active(w.db, id, self) || Required(w, c) <= s.statement.stamp + c.lease
  }

  lemma EffectKeepsFlight(w: World, st: Statement, id: Id, self: string, c: Timing, maxAttempts: int)
    requires Safe(w, id, self, c, maxAttempts) && !w.hb.lost && st in w.flight
    ensures FlightIsKnown(Next(w, Effect(st), id, self, c, maxAttempts), c)
  {
    var v := Next(w, Effect(st), id, self, c, maxAttempts);
    forall x | x in v.flight && x.attempt == v.attempt ensures LatestIsKnown(v, x, c) {
      assert LatestIsKnown(w, x, c);
    }
  }

  /** A renewal statement keeps a safe world safe exactly when it is harmless, however late it runs. */
  lemma EffectKeepsSafeExactlyWhen(w: World, st: Statement, id: Id, self: string, c: Timing, maxAttempts: int)
    requires maxAttempts >= 1 && Safe(w, id, self, c, maxAttempts) && !w.hb.lost && st in w.flight
    ensures Safe(Next(w, Effect(st), id, self, c, maxAttempts), id, self, c, maxAttempts)
      <==> !Active(w.db, id, self) || Required(w, c) <= st.stamp + c.lease
  {
    P.ApplyKeepsInv(w.db, Renew(id, self, c.lease, st.stamp), maxAttempts);
    RenewWrites(w.db, id, self, c.lease, st.stamp, maxAttempts);
    EffectKeepsFlight(w, st, id, self, c, maxAttempts);
    assert st.attempt == w.attempt ==> LatestIsKnown(w, st, c);
  }

  lemma OwnStepKeepsSafe(w: World, s: Step, id: Id, self: string, c: Timing, maxAttempts: int)
    requires ValidTiming(c) && Safe(w, id, self, c, maxAttempts) && !w.hb.lost && Enabled(w, s, id, self, c)
    requires s.Pass? || s.Tick? || s.Issue? || s.Return?
    ensures Safe(Next(w, s, id, self, c, maxAttempts), id, self, c, maxAttempts)
  {
    var v := Next(w, s, id, self, c, maxAttempts);
    forall x | x in v.flight && x.attempt == v.attempt ensures LatestIsKnown(v, x, c) {
      if x in w.flight {
        assert s.Tick? || LatestIsKnown(w, x, c);
      }
    }
  }

  lemma SafeStep(w: World, s: Step, id: Id, self: string, c: Timing, maxAttempts: int)
    requires maxAttempts >= 1 && ValidTiming(c) && Safe(w, id, self, c, maxAttempts) && Harmless(w, s, id, self, c)
    ensures Safe(Next(w, s, id, self, c, maxAttempts), id, self, c, maxAttempts)
  {
    if !w.hb.lost && Enabled(w, s, id, self, c) {
      if s.Effect? {
        EffectKeepsSafeExactlyWhen(w, s.statement, id, self, c, maxAttempts);
      } else if s.Others? {
        P.ApplyKeepsInv(w.db, s.op, maxAttempts);
        OthersKeepLease(w.db, s.op, maxAttempts, id, self, w.now);
        var v := Next(w, s, id, self, c, maxAttempts);
        forall x | x in v.flight && x.attempt == v.attempt ensures LatestIsKnown(v, x, c) {
          assert LatestIsKnown(w, x, c);
        }
      } else {
        OwnStepKeepsSafe(w, s, id, self, c, maxAttempts);
      }
    }
  }

  ghost predicate AllHarmless(w: World, steps: seq<Step>, id: Id, self: string, c: Timing, maxAttempts: int) {
    steps == [] ||
      (AllHarmless(w, steps[..|steps| - 1], id, self, c, maxAttempts)
       && Harmless(RunWorld(w, steps[..|steps| - 1], id, self, c, maxAttempts), steps[|steps| - 1], id, self, c))
  }

  lemma {:induction false} RunIsSafe(
      w: World, claimed: Time, steps: seq<Step>, id: Id, self: string, c: Timing, maxAttempts: int)
    requires maxAttempts >= 1 && ValidTiming(c) && Initial(w, claimed, id, self, c, maxAttempts)
    requires AllHarmless(w, steps, id, self, c, maxAttempts)
    ensures Safe(RunWorld(w, steps, id, self, c, maxAttempts), id, self, c, maxAttempts)
  {
    if steps != [] {
      var init := steps[..|steps| - 1];
      RunIsSafe(w, claimed, init, id, self, c, maxAttempts);
      SafeStep(RunWorld(w, init, id, self, c, maxAttempts), steps[|steps| - 1], id, self, c, maxAttempts);
    }
  }

  /**
   * The row is the worker's own until its local deadline, and no claim, whatever rows it finds locked, can touch it.
   */
  ghost predicate Excluded(
      v: World, id: Id, self: string, maxAttempts: int, rival: string, rivalLease: Time, at: Time, locked: set<Id>) {
    && v.now < v.hb.deadline
    && Holds(v.db, id, self) && LeaseReaches(v.db, id, self, v.hb.deadline)
    && Winner(v.db.tasks, at, maxAttempts, locked) != Some(id)
    && var after := Apply(v.db, Claim(rival, rivalLease, at, locked), maxAttempts).tasks;
       id in after && after[id] == v.db.tasks[id]
  }

  /**
   * Timed lease exclusion.  At every moment of every run until the heartbeat declares the lease lost, the local
   * deadline lies in the future and inside the stored lease, the row is still the worker's own, and no claim by
   * anybody, whatever rows it finds locked, takes or changes it - provided no renewal statement ran harmfully late.
   */
  lemma LeaseExclusion(
      w: World, claimed: Time, steps: seq<Step>, id: Id, self: string, c: Timing, maxAttempts: int,
      rival: string, rivalLease: Time, at: Time, locked: set<Id>)
    requires maxAttempts >= 1 && ValidTiming(c) && Initial(w, claimed, id, self, c, maxAttempts)
    requires AllHarmless(w, steps, id, self, c, maxAttempts)
    requires var v := RunWorld(w, steps, id, self, c, maxAttempts); !v.hb.lost && at <= v.now
    ensures Excluded(RunWorld(w, steps, id, self, c, maxAttempts), id, self, maxAttempts, rival, rivalLease, at, locked)
  {
    RunIsSafe(w, claimed, steps, id, self, c, maxAttempts);
    var v := RunWorld(w, steps, id, self, c, maxAttempts);
    P.UnexpiredLeaseIsKept(v.db, rival, rivalLease, at, locked, maxAttempts, id);
  }

  // ---- statements that run inside their own attempt

  /** Ticks are handled more than one attempt apart, and a statement runs, if at all, inside its attempt's time. */
  predicate Punctual(w: World, s: Step, c: Timing) {
    match s
    case Tick => w.started + c.attempt < w.now
    case Effect(st) => w.now <= st.start + c.attempt
    case _ => true
  }

  ghost predicate AllPunctual(w: World, steps: seq<Step>, id: Id, self: string, c: Timing, maxAttempts: int) {
    steps == [] ||
      (AllPunctual(w, steps[..|steps| - 1], id, self, c, maxAttempts)
       && Punctual(RunWorld(w, steps[..|steps| - 1], id, self, c, maxAttempts), steps[|steps| - 1], c))
  }

  /** Statements of earlier attempts are out of time. */
  ghost predicate Separated(w: World, c: Timing) {
    w.started <= w.now && forall st | st in w.flight ::
      (st.attempt == w.attempt && st.start == w.started) || st.start + c.attempt < w.started
  }

  lemma PunctualStep(w: World, s: Step, id: Id, self: string, c: Timing, maxAttempts: int)
    requires Safe(w, id, self, c, maxAttempts) && !w.hb.lost && Separated(w, c) && Punctual(w, s, c)
    ensures Harmless(w, s, id, self, c) && Separated(Next(w, s, id, self, c, maxAttempts), c)
  {
    if s.Effect? && s.statement in w.flight {
      assert s.statement.attempt == w.attempt;
      assert LatestIsKnown(w, s.statement, c);
    }
  }

  lemma {:induction false} PunctualIsHarmless(
      w: World, claimed: Time, steps: seq<Step>, id: Id, self: string, c: Timing, maxAttempts: int)
    requires maxAttempts >= 1 && ValidTiming(c) && Initial(w, claimed, id, self, c, maxAttempts)
    requires Separated(w, c) && AllPunctual(w, steps, id, self, c, maxAttempts)
    ensures AllHarmless(w, steps, id, self, c, maxAttempts)
    ensures var v := RunWorld(w, steps, id, self, c, maxAttempts); !v.hb.lost ==> Separated(v, c)
  {
    if steps != [] {
      var init := steps[..|steps| - 1];
      PunctualIsHarmless(w, claimed, init, id, self, c, maxAttempts);
      RunIsSafe(w, claimed, init, id, self, c, maxAttempts);
      var mid := RunWorld(w, init, id, self, c, maxAttempts);
      if !mid.hb.lost {
        PunctualStep(mid, steps[|steps| - 1], id, self, c, maxAttempts);
      }
    }
  }

  /**
   * With every statement running inside its own attempt, if it runs at all, and those of earlier leases out of time
   * when the lease begins, the lease excludes every rival.
   */
  lemma PunctualLeaseExclusion(
      w: World, claimed: Time, steps: seq<Step>, id: Id, self: string, c: Timing, maxAttempts: int,
      rival: string, rivalLease: Time, at: Time, locked: set<Id>)
    requires maxAttempts >= 1 && ValidTiming(c) && Initial(w, claimed, id, self, c, maxAttempts)
    requires Separated(w, c) && AllPunctual(w, steps, id, self, c, maxAttempts)
    requires var v := RunWorld(w, steps, id, self, c, maxAttempts); !v.hb.lost && at <= v.now
    ensures Excluded(RunWorld(w, steps, id, self, c, maxAttempts), id, self, maxAttempts, rival, rivalLease, at, locked)
  {
    PunctualIsHarmless(w, claimed, steps, id, self, c, maxAttempts);
    LeaseExclusion(w, claimed, steps, id, self, c, maxAttempts, rival, rivalLease, at, locked);
  }

  // ---- a late commit can lose the row

  function HeldUntil(t: Task, expiry: Time, beat: Time): Task {
    t.(leaseExpiresAt := Some(expiry), heartbeatAt := Some(beat))
  }

  lemma RenewOnly(t: Task, self: string, lease: Time, stamp: Time, maxAttempts: int)
    requires Owns(t, self) && t.cancelRequestedAt.None?
    ensures Apply(OnlyTask(t), Renew(1, self, lease, stamp), maxAttempts)
      == OnlyTask(HeldUntil(t, stamp + lease, stamp))
  {
    var db, op := OnlyTask(t), Renew(1, self, lease, stamp);
    RowOf(db, op, maxAttempts, 1);
    var after := Apply(db, op, maxAttempts);
    assert after.tasks == map[1 := HeldUntil(t, stamp + lease, stamp)];
  }

  const LATE_TIMING := Timing(90, 30, 5)

  const FIRST_RENEWAL := Statement(1, 30, 30)
  const SECOND_RENEWAL := Statement(2, 60, 60)

  /**
   * The first attempt fails, the second renews to 150, then the first statement runs and writes 120; the third fails.
   */
  const LATE_STEPS: seq<Step> := [
    Pass(30), Tick, Issue, Pass(35), Return(Error),
    Pass(60), Tick, Issue, Effect(SECOND_RENEWAL), Return(Renewal(true)),
    Pass(61), Effect(FIRST_RENEWAL),
    Pass(90), Tick, Pass(95), Return(Error),
    Pass(120), Tick, Pass(121)]

  function LateWorld(t: Task, expiry: Time, beat: Time, now: Time, hb: Heartbeat, attempt: nat, started: Time,
      flight: set<Statement>): World
  {
    World(OnlyTask(HeldUntil(t, expiry, beat)), now, hb, attempt, started, flight)
  }

  /** The worlds the run passes through. */
  function LateAt(t: Task, k: nat): World {
    match k
    case 0 => LateWorld(t, 90, 0, 0, Heartbeat(90, false, Waiting(30)), 0, 0, {})
    case 1 => LateWorld(t, 90, 0, 30, Heartbeat(90, false, Waiting(30)), 0, 0, {})
    case 2 => LateWorld(t, 90, 0, 30, Heartbeat(90, false, Attempting(30, false, None)), 1, 30, {})
    case 3 => LateWorld(t, 90, 0, 30, Heartbeat(90, false, Attempting(30, true, None)), 1, 30, {FIRST_RENEWAL})
    case 4 => LateWorld(t, 90, 0, 35, Heartbeat(90, false, Attempting(30, true, None)), 1, 30, {FIRST_RENEWAL})
    case 5 => LateWorld(t, 90, 0, 35, Heartbeat(90, false, Waiting(60)), 1, 30, {FIRST_RENEWAL})
    case 6 => LateWorld(t, 90, 0, 60, Heartbeat(90, false, Waiting(60)), 1, 30, {FIRST_RENEWAL})
    case 7 => LateWorld(t, 90, 0, 60, Heartbeat(90, false, Attempting(60, false, None)), 2, 60, {FIRST_RENEWAL})
    case 8 =>
      LateWorld(t, 90, 0, 60, Heartbeat(90, false, Attempting(60, true, None)), 2, 60, {FIRST_RENEWAL, SECOND_RENEWAL})
    case 9 => LateWorld(t, 150, 60, 60, Heartbeat(90, false, Attempting(60, true, Some(true))), 2, 60, {FIRST_RENEWAL})
    case 10 => LateWorld(t, 150, 60, 60, Heartbeat(150, false, Waiting(90)), 2, 60, {FIRST_RENEWAL})
    case 11 => LateWorld(t, 150, 60, 61, Heartbeat(150, false, Waiting(90)), 2, 60, {FIRST_RENEWAL})
    case 12 => LateWorld(t, 120, 30, 61, Heartbeat(150, false, Waiting(90)), 2, 60, {})
    case 13 => LateWorld(t, 120, 30, 90, Heartbeat(150, false, Waiting(90)), 2, 60, {})
    case 14 => LateWorld(t, 120, 30, 90, Heartbeat(150, false, Attempting(90, false, None)), 3, 90, {})
    case 15 => LateWorld(t, 120, 30, 95, Heartbeat(150, false, Attempting(90, false, None)), 3, 90, {})
    case 16 => LateWorld(t, 120, 30, 95, Heartbeat(150, false, Waiting(120)), 3, 90, {})
    case 17 => LateWorld(t, 120, 30, 120, Heartbeat(150, false, Waiting(120)), 3, 90, {})
    case 18 => LateWorld(t, 120, 30, 120, Heartbeat(150, false, Attempting(120, false, None)), 4, 120, {})
    case _ => LateWorld(t, 120, 30, 121, Heartbeat(150, false, Attempting(120, false, None)), 4, 120, {})
  }

  /** Every step but the two renewals: the first ten and the rest. */
  lemma EarlyOwnStep(t: Task, self: string, maxAttempts: int, k: nat)
    requires k < 10 && !LATE_STEPS[k].Effect?
    ensures Next(LateAt(t, k), LATE_STEPS[k], 1, self, LATE_TIMING, maxAttempts) == LateAt(t, k + 1)
  {}

  lemma LateOwnStep(t: Task, self: string, maxAttempts: int, k: nat)
    requires 10 <= k < |LATE_STEPS| && !LATE_STEPS[k].Effect?
    ensures Next(LateAt(t, k), LATE_STEPS[k], 1, self, LATE_TIMING, maxAttempts) == LateAt(t, k + 1)
  {}

  /** The second attempt's statement writes 150; the stalled first one brings the expiry back to 120. */
  lemma LateRenewal(t: Task, self: string, maxAttempts: int, k: nat)
    requires Owns(t, self) && t.cancelRequestedAt.None? && (k == 8 || k == 11)
    ensures Next(LateAt(t, k), LATE_STEPS[k], 1, self, LATE_TIMING, maxAttempts) == LateAt(t, k + 1)
  {
    if k == 8 {
      RenewOnly(HeldUntil(t, 90, 0), self, 90, 60, maxAttempts);
    } else {
      RenewOnly(HeldUntil(t, 150, 60), self, 90, 30, maxAttempts);
    }
  }

  lemma {:induction false} LateRun(t: Task, self: string, maxAttempts: int, k: nat)
    requires Owns(t, self) && t.cancelRequestedAt.None? && k <= |LATE_STEPS|
    ensures RunWorld(LateAt(t, 0), LATE_STEPS[..k], 1, self, LATE_TIMING, maxAttempts) == LateAt(t, k)
  {
    if k > 0 {
      assert LATE_STEPS[..k][..k - 1] == LATE_STEPS[..k - 1];
      LateRun(t, self, maxAttempts, k - 1);
      if LATE_STEPS[k - 1].Effect? {
        LateRenewal(t, self, maxAttempts, k - 1);
      } else if k - 1 < 10 {
        EarlyOwnStep(t, self, maxAttempts, k - 1);
      } else {
        LateOwnStep(t, self, maxAttempts, k - 1);
      }
    }
  }

  /**
   * The run loses the row: the heartbeat has not given up and its deadline is still ahead, yet a rival's claim takes
   * the task.  The one step that is not harmless is the late commit.
   */
  lemma LateCommitLosesTheRow(t: Task, self: string, maxAttempts: int)
    requires maxAttempts >= 2 && self != "" && P.RowInv(t, maxAttempts)
    requires Owns(t, self) && t.cancelRequestedAt.None? && t.retryCount == 1
    ensures ValidTiming(LATE_TIMING) && Initial(LateAt(t, 0), 0, 1, self, LATE_TIMING, maxAttempts)
    ensures var v := RunWorld(LateAt(t, 0), LATE_STEPS, 1, self, LATE_TIMING, maxAttempts);
      !v.hb.lost && v.now < v.hb.deadline && Winner(v.db.tasks, v.now, maxAttempts, {}) == Some(1)
    ensures var before := RunWorld(LateAt(t, 0), LATE_STEPS[..11], 1, self, LATE_TIMING, maxAttempts);
      !Harmless(before, LATE_STEPS[11], 1, self, LATE_TIMING)
  {
    LateRun(t, self, maxAttempts, 11);
    LateRun(t, self, maxAttempts, 19);
    assert LATE_STEPS[..19] == LATE_STEPS;
    var v := LateAt(t, 19);
    assert 1 in Candidates(v.db.tasks, v.now, maxAttempts, {});
  }

  const OLD_RENEWAL := Statement(0, -80, -80)

  /** A fresh lease while a statement of the worker's previous lease of the same task is still on the way. */
  function Reclaimed(t: Task): World {
    World(OnlyTask(HeldUntil(t, 90, 0)), 0, Heartbeat(90, false, Waiting(30)), 1, 0, {OLD_RENEWAL})
  }

  /** That statement matches the row, writes its old expiry, and a rival takes the task before the first tick is due. */
  lemma EarlierLeaseLosesTheRow(t: Task, self: string, maxAttempts: int)
    requires maxAttempts >= 2 && self != "" && P.RowInv(t, maxAttempts)
    requires Owns(t, self) && t.cancelRequestedAt.None? && t.retryCount == 1
    ensures Initial(Reclaimed(t), 0, 1, self, LATE_TIMING, maxAttempts)
    ensures var v := RunWorld(Reclaimed(t), [Effect(OLD_RENEWAL), Pass(11)], 1, self, LATE_TIMING, maxAttempts);
      !v.hb.lost && v.now < v.hb.deadline && Winner(v.db.tasks, v.now, maxAttempts, {}) == Some(1)
    ensures !Harmless(Reclaimed(t), Effect(OLD_RENEWAL), 1, self, LATE_TIMING)
  {
    var w, steps := Reclaimed(t), [Effect(OLD_RENEWAL), Pass(11)];
    RenewOnly(HeldUntil(t, 90, 0), self, 90, -80, maxAttempts);
    var one := [Effect(OLD_RENEWAL)];
    assert steps[..1] == one && one[..0] == [];
    var mid := RunWorld(w, one, 1, self, LATE_TIMING, maxAttempts);
    assert RunWorld(w, one[..0], 1, self, LATE_TIMING, maxAttempts) == w;
    assert mid == Next(w, one[0], 1, self, LATE_TIMING, maxAttempts);
    assert mid.db == OnlyTask(HeldUntil(t, 10, -80)) && mid.hb == w.hb;
    var v := RunWorld(w, steps, 1, self, LATE_TIMING, maxAttempts);
    assert v == Next(mid, Pass(11), 1, self, LATE_TIMING, maxAttempts);
    assert 1 in Candidates(v.db.tasks, v.now, maxAttempts, {});
  }
}
