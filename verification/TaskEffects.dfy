/**
 * What an operation on a queue row means for the claims that come after it: from when on, and until when, a claim may
 * take the row, and what the row then carries.
 */
module TaskEffects {
  import opened Wrappers
  import opened TaskTable
  import opened TaskProtocol
  import opened TaskRepository

  /** A claim at time `at` may take the row, nothing being locked. */
  ghost predicate Claimable(db: Db, id: Id, at: Time, maxAttempts: int) {
    id in Candidates(db.tasks, at, maxAttempts, {})
  }

  // ---- a lease begins and runs out

  /** A claimed row is out of reach until its lease has run out, and from then on while attempts are left. */
  lemma ClaimLastsForTheLease(
      db: Db, id: Id, owner: string, lease: Time, now: Time, locked: set<Id>, maxAttempts: int, at: Time)
    requires maxAttempts >= 1 && TableInv(db, maxAttempts)
    requires Winner(db.tasks, now, maxAttempts, locked) == Some(id)
    ensures var after := Apply(db, Claim(owner, lease, now, locked), maxAttempts);
      && id in after.tasks && LeaseGranted(db.tasks[id], after.tasks[id], owner, lease, now)
      && (Claimable(after, id, at, maxAttempts) <==> now + lease <= at && db.tasks[id].retryCount + 1 < maxAttempts)
  {
    RowOf(db, Claim(owner, lease, now, locked), maxAttempts, id);
  }

  /** A renewed lease runs from the renewal. */
  lemma RenewalLastsForTheLease(
      db: Db, id: Id, owner: string, lease: Time, now: Time, maxAttempts: int, at: Time)
    requires maxAttempts >= 1 && TableInv(db, maxAttempts) && id in db.tasks && Owns(db.tasks[id], owner)
    requires db.tasks[id].cancelRequestedAt.None?
    ensures var after := Apply(db, Renew(id, owner, lease, now), maxAttempts);
      Claimable(after, id, at, maxAttempts) <==> now + lease <= at && db.tasks[id].retryCount < maxAttempts
  {
    RowOf(db, Renew(id, owner, lease, now), maxAttempts, id);
  }

  // ---- a lease ends

  /**
   * A failed attempt is retried no earlier than its retry time and at any time from then on - if attempts are left and
   * nobody has asked for cancellation; otherwise never.
   */
  lemma FailureBacksOff(
      db: Db, id: Id, owner: string, retryAt: Time, now: Time, maxAttempts: int, at: Time)
    requires maxAttempts >= 1 && TableInv(db, maxAttempts) && id in db.tasks && Owns(db.tasks[id], owner)
    ensures var t, after := db.tasks[id], Apply(db, Fail(id, owner, retryAt, now), maxAttempts);
      && id in after.tasks && var t' := after.tasks[id];
      && t'.failures == t.failures + 1 && t'.retryCount == t.retryCount && t'.lastStatusAt == Some(now)
      && t'.leaseOwner == "" && t'.leaseExpiresAt.None? && t'.cancelRequestedAt.None? && SameJob(t, t')
      && (Claimable(after, id, at, maxAttempts) <==>
            t.cancelRequestedAt.None? && t.retryCount < maxAttempts && retryAt <= at)
      && (t'.status == Pending <==> t.cancelRequestedAt.None? && t.retryCount < maxAttempts)
      && (t'.status == Canceled <==> t.cancelRequestedAt.Some?)
      && (t'.status == Failed <==> t.cancelRequestedAt.None? && t.retryCount >= maxAttempts)
      && (t'.status != Pending ==> t'.finishedAt == Some(now) && t'.nextRetryAt.None?)
  {
    RowOf(db, Fail(id, owner, retryAt, now), maxAttempts, id);
  }

  /** The release of a lease, both statements in turn. */
  ghost function Release(db: Db, id: Id, owner: string, now: Time, maxAttempts: int): Db {
    Apply(Apply(db, ReleaseCanceled(id, owner, now), maxAttempts), ReleasePending(id, owner, now), maxAttempts)
  }

  /** A released row is as if its attempt had not been made: any claim at any time may take it. */
  lemma ReleaseGivesBack(db: Db, id: Id, owner: string, now: Time, maxAttempts: int, at: Time)
    requires maxAttempts >= 1 && TableInv(db, maxAttempts) && id in db.tasks && Owns(db.tasks[id], owner)
    requires db.tasks[id].cancelRequestedAt.None?
    ensures var t, after := db.tasks[id], Release(db, id, owner, now, maxAttempts);
      && Claimable(after, id, at, maxAttempts) && var t' := after.tasks[id];
      && t'.status == Pending && t'.retryCount == t.retryCount - 1 && t'.failures == t.failures
      && t'.leaseOwner == "" && t'.leaseExpiresAt.None? && t'.heartbeatAt.None? && SameJob(t, t')
  {
    var mid := Apply(db, ReleaseCanceled(id, owner, now), maxAttempts);
    RowOf(db, ReleaseCanceled(id, owner, now), maxAttempts, id);
    ApplyKeepsInv(db, ReleaseCanceled(id, owner, now), maxAttempts);
    RowOf(mid, ReleasePending(id, owner, now), maxAttempts, id);
  }

  /**
   * Releasing a lease right after the claim gives the attempt back: the row has as many attempts left as before, and
   * any claim at any time may take it.
   */
  lemma ReleaseUndoesClaim(
      db: Db, id: Id, owner: string, lease: Time, claimed: Time, locked: set<Id>, now: Time, maxAttempts: int, at: Time)
    requires maxAttempts >= 1 && TableInv(db, maxAttempts) && owner != ""
    requires Winner(db.tasks, claimed, maxAttempts, locked) == Some(id)
    ensures var t, after :=
      db.tasks[id], Release(Apply(db, Claim(owner, lease, claimed, locked), maxAttempts), id, owner, now, maxAttempts);
      && id in after.tasks && after.tasks[id].retryCount == t.retryCount && after.tasks[id].status == Pending
      && after.tasks[id].failures == t.failures && after.tasks[id].leaseOwner == "" && SameJob(t, after.tasks[id])
      && Claimable(after, id, at, maxAttempts)
  {
    var op := Claim(owner, lease, claimed, locked);
    RowOf(db, op, maxAttempts, id);
    ApplyKeepsInv(db, op, maxAttempts);
    ReleaseGivesBack(Apply(db, op, maxAttempts), id, owner, now, maxAttempts, at);
  }

  /** A lease released under a cancel request ends canceled, and no claim takes the row again. */
  lemma ReleaseHonoursCancel(db: Db, id: Id, owner: string, now: Time, maxAttempts: int, at: Time)
    requires maxAttempts >= 1 && TableInv(db, maxAttempts) && id in db.tasks && Owns(db.tasks[id], owner)
    requires db.tasks[id].cancelRequestedAt.Some?
    ensures var after := Release(db, id, owner, now, maxAttempts);
      && id in after.tasks && after.tasks[id].status == Canceled && LeaseEnded(db.tasks[id], after.tasks[id], now)
      && !Claimable(after, id, at, maxAttempts)
  {
    var mid := Apply(db, ReleaseCanceled(id, owner, now), maxAttempts);
    RowOf(db, ReleaseCanceled(id, owner, now), maxAttempts, id);
    ApplyKeepsInv(db, ReleaseCanceled(id, owner, now), maxAttempts);
    RowOf(mid, ReleasePending(id, owner, now), maxAttempts, id);
  }

  // ---- users

  /** A paused row is out of reach at any time; a reset puts it within reach at any time, with all its attempts. */
  lemma PauseHoldsUntilReset(db: Db, id: Id, now: Time, later: Time, maxAttempts: int, at: Time)
    requires maxAttempts >= 1 && TableInv(db, maxAttempts) && id in db.tasks
    requires db.tasks[id].status != Running && db.tasks[id].status != Success
    ensures var paused := Apply(db, Pause(id, now), maxAttempts);
      var again := Apply(paused, Reset(id, later), maxAttempts);
      && !Claimable(paused, id, at, maxAttempts) && paused.tasks[id].status == Paused
      && Claimable(again, id, at, maxAttempts) && IsAnew(db.tasks[id], again.tasks[id])
  {
    RowOf(db, Pause(id, now), maxAttempts, id);
    ApplyKeepsInv(db, Pause(id, now), maxAttempts);
    RowOf(Apply(db, Pause(id, now), maxAttempts), Reset(id, later), maxAttempts, id);
  }

  /** A cancel request ends a queued row at once, and otherwise only stops a running one from renewing or succeeding. */
  lemma CancelRequestStops(db: Db, id: Id, now: Time, maxAttempts: int, at: Time)
    requires maxAttempts >= 1 && TableInv(db, maxAttempts) && id in db.tasks
    ensures var t, after := db.tasks[id], Apply(db, RequestCancel(id, now), maxAttempts);
      && id in after.tasks && !Claimable(after, id, at, maxAttempts)
      && (t.status == Success || t.status == Canceled ==> after.tasks[id] == t)
      && (t.status == Running ==>
            after.tasks[id] == t.(cancelRequestedAt := Some(now), lastStatusAt := Some(now)))
      && (t.status == Pending || t.status == Failed || t.status == Paused ==>
            after.tasks[id].status == Canceled && after.tasks[id].canceledAt == after.tasks[id].finishedAt == Some(now)
            && SameJob(t, after.tasks[id]))
  {
    RowOf(db, RequestCancel(id, now), maxAttempts, id);
  }

  // ---- what no operation does

  /** A row leaves the table exactly if it is deleted while not running, or purged having finished before the cutoff. */
  lemma RemovalMeans(db: Db, op: Op, maxAttempts: int, id: Id)
    requires maxAttempts >= 1 && TableInv(db, maxAttempts) && id in db.tasks
    ensures id !in Apply(db, op, maxAttempts).tasks <==> var t := db.tasks[id];
      || (op.Delete? && id in op.ids && t.status != Running)
      || (op.Purge? && id in op.ids && t.status in {Success, Failed, Canceled} && t.finishedAt.value < op.cutoff)
  {
    RowOf(db, op, maxAttempts, id);
  }

  lemma RowKeepsJob(id: Id, t: Task, op: Op, winner: Option<Id>, maxAttempts: int)
    ensures SameJob(t, RowAfter(id, t, op, winner, maxAttempts))
  {}

  lemma JobKept(db: Db, op: Op, maxAttempts: int, id: Id)
    requires id in db.tasks && db.nextId !in db.tasks && id in Apply(db, op, maxAttempts).tasks
    ensures SameJob(db.tasks[id], Apply(db, op, maxAttempts).tasks[id])
  {
    RowOf(db, op, maxAttempts, id);
    RowKeepsJob(id, db.tasks[id], op, WinnerOf(db.tasks, op, maxAttempts), maxAttempts);
  }

  /** In every run a row keeps the job it was created with: its file, version, target, key and priority. */
  lemma {:induction false} JobIsFixed(db: Db, ops: seq<Op>, maxAttempts: int, id: Id)
    requires maxAttempts >= 1 && ValidOps(ops) && TableInv(db, maxAttempts) && id in db.tasks
    ensures var end := Run(db, ops, maxAttempts);
      id < end.nextId && (id in end.tasks ==> SameJob(db.tasks[id], end.tasks[id]))
  {
    if ops != [] {
      var init := ops[..|ops| - 1];
      JobIsFixed(db, init, maxAttempts, id);
      RunKeepsInv(db, init, maxAttempts);
      var mid := Run(db, init, maxAttempts);
      if id in mid.tasks {
        if id in Run(db, ops, maxAttempts).tasks {
          JobKept(mid, ops[|ops| - 1], maxAttempts, id);
        }
      }
    }
  }

  /** The ways a worker gives its lease up. */
  predicate GivesUp(op: Op, id: Id, owner: string) {
    match op
    case Succeed(x, o, _) => x == id && o == owner
    case FinishCancel(x, o, _) => x == id && o == owner
    case Fail(x, o, _, _) => x == id && o == owner
    case ReleaseCanceled(x, o, _) => x == id && o == owner
    case ReleasePending(x, o, _) => x == id && o == owner
    case _ => false
  }

  lemma RowKeepsOwner(id: Id, t: Task, op: Op, winner: Option<Id>, maxAttempts: int)
    requires t.status == Running && t.leaseExpiresAt.Some? && op.now < t.leaseExpiresAt.value && winner != Some(id)
    requires !GivesUp(op, id, t.leaseOwner)
    ensures RowAfter(id, t, op, winner, maxAttempts).leaseOwner == t.leaseOwner
  {}

  /** Nobody but the owner of a lease, and no sweep before it has run out, ends a running row's attempt. */
  lemma OnlyTheOwnerEnds(db: Db, op: Op, maxAttempts: int, id: Id)
    requires maxAttempts >= 1 && TableInv(db, maxAttempts) && ValidOp(op) && id in db.tasks
    requires db.tasks[id].status == Running && op.now < db.tasks[id].leaseExpiresAt.value
    requires !GivesUp(op, id, db.tasks[id].leaseOwner)
    ensures id in Apply(db, op, maxAttempts).tasks
    ensures Apply(db, op, maxAttempts).tasks[id].leaseOwner == db.tasks[id].leaseOwner
  {
    RowOf(db, op, maxAttempts, id);
    RemovalMeans(db, op, maxAttempts, id);
    WinnerIsEligible(db.tasks, op, maxAttempts);
    RowKeepsOwner(id, db.tasks[id], op, WinnerOf(db.tasks, op, maxAttempts), maxAttempts);
  }
}
