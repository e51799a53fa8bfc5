/**
 * Whole runs of the upload queue: any number of workers, users and bulk cancellations interleave atomic
 * operations in any order.  No operation below assumes that its caller behaves.
 */
module TaskProtocol {
  import opened Wrappers
  import opened TaskTable

  /** Owners are "<instance>/worker-<n>" and therefore never empty. */
  predicate ValidOp(op: Op) {
    op.Claim? ==> op.owner != ""
  }

  ghost predicate ValidOps(ops: seq<Op>) {
    forall i | 0 <= i < |ops| :: ValidOp(ops[i])
  }

  /** The table after a run. */
  ghost function Run(db: Db, ops: seq<Op>, maxAttempts: int): Db {
    if ops == [] then db else Apply(Run(db, ops[..|ops| - 1], maxAttempts), ops[|ops| - 1], maxAttempts)
  }

  ghost function After(db: Db, ops: seq<Op>, maxAttempts: int, k: nat): Db
    requires k <= |ops|
  {
    Run(db, ops[..k], maxAttempts)
  }

  lemma AfterNext(db: Db, ops: seq<Op>, maxAttempts: int, k: nat)
    requires k < |ops|
    ensures After(db, ops, maxAttempts, k + 1) == Apply(After(db, ops, maxAttempts, k), ops[k], maxAttempts)
  {
    assert ops[..k + 1][..k] == ops[..k];
  }

  // ---- the invariant of a row

  predicate RowInv(t: Task, maxAttempts: int) {
    && 0 <= t.retryCount <= maxAttempts
    && (t.status == Running <==> t.leaseOwner != "")
    && (t.status == Running <==> t.leaseExpiresAt.Some?)
    && (t.cancelRequestedAt.Some? ==> t.status == Running)
    && (t.status == Running ==> t.retryCount >= 1 && t.finishedAt.None?)
    && (t.status == Pending ==> t.retryCount < maxAttempts && t.finishedAt.None?)
    && (Terminal(t) ==> t.finishedAt.Some?)
    && (t.status == Canceled ==> t.canceledAt.Some?)
  }

  ghost predicate TableInv(db: Db, maxAttempts: int) {
    forall id | id in db.tasks :: id < db.nextId && RowInv(db.tasks[id], maxAttempts)
  }

  lemma RowInvKept(id: Id, t: Task, op: Op, winner: Option<Id>, maxAttempts: int)
    requires maxAttempts >= 1 && ValidOp(op) && RowInv(t, maxAttempts)
    requires op.Claim? && winner == Some(id) ==> Eligible(t, op.now, maxAttempts)
    ensures RowInv(RowAfter(id, t, op, winner, maxAttempts), maxAttempts)
  {}

  lemma WinnerIsEligible(tasks: Table, op: Op, maxAttempts: int)
    ensures var w := WinnerOf(tasks, op, maxAttempts);
      w.Some? ==>
        op.Claim? && w.value in tasks && w.value !in op.locked && Eligible(tasks[w.value], op.now, maxAttempts)
  {}

  /** Every operation keeps the invariant of every row. */
  lemma ApplyKeepsInv(db: Db, op: Op, maxAttempts: int)
    requires maxAttempts >= 1 && ValidOp(op) && TableInv(db, maxAttempts)
    ensures TableInv(Apply(db, op, maxAttempts), maxAttempts)
  {
    var after := Apply(db, op, maxAttempts);
    WinnerIsEligible(db.tasks, op, maxAttempts);
    forall id | id in after.tasks ensures id < after.nextId && RowInv(after.tasks[id], maxAttempts) {
      if id in db.tasks {
        RowOf(db, op, maxAttempts, id);
        RowInvKept(id, db.tasks[id], op, WinnerOf(db.tasks, op, maxAttempts), maxAttempts);
      }
    }
  }

  lemma {:induction false} RunKeepsInv(db: Db, ops: seq<Op>, maxAttempts: int)
    requires maxAttempts >= 1 && ValidOps(ops) && TableInv(db, maxAttempts)
    ensures TableInv(Run(db, ops, maxAttempts), maxAttempts)
  {
    if ops != [] {
      RunKeepsInv(db, ops[..|ops| - 1], maxAttempts);
      ApplyKeepsInv(Run(db, ops[..|ops| - 1], maxAttempts), ops[|ops| - 1], maxAttempts);
    }
  }

  /** No pending row is stuck: it is eligible from its retry time on, whatever happened before. */
  lemma PendingIsClaimable(db: Db, ops: seq<Op>, maxAttempts: int, id: Id, now: Time)
    requires maxAttempts >= 1 && ValidOps(ops) && TableInv(db, maxAttempts)
    requires var t := Run(db, ops, maxAttempts).tasks; id in t && t[id].status == Pending && Due(t[id].nextRetryAt, now)
    ensures Eligible(Run(db, ops, maxAttempts).tasks[id], now, maxAttempts)
  {
    RunKeepsInv(db, ops, maxAttempts);
  }

  // ---- claims

  /**
   * A committed claim, in any reachable table: the first sweep finds nothing to do, and an expired running row that
   * was not claimed ends canceled (it carried a request), failed (no attempts left) or unchanged and still eligible.
   */
  lemma ClaimSweeps(db: Db, owner: string, lease: Time, now: Time, locked: set<Id>, maxAttempts: int, id: Id)
    requires maxAttempts >= 1 && TableInv(db, maxAttempts) && id in db.tasks
    requires Winner(db.tasks, now, maxAttempts, locked).Some? && Winner(db.tasks, now, maxAttempts, locked) != Some(id)
    ensures SweepQueued(db.tasks[id], now) == db.tasks[id]
    ensures var t, t' := db.tasks[id], Apply(db, Claim(owner, lease, now, locked), maxAttempts).tasks[id];
      if t.status == Running && Due(t.leaseExpiresAt, now) then
        (if t.cancelRequestedAt.Some? then t'.status == Canceled && t'.leaseOwner == ""
         else if t.retryCount >= maxAttempts then t'.status == Failed && t'.leaseOwner == ""
         else t' == t && Eligible(t', now, maxAttempts))
      else t' == t
  {
    RowOf(db, Claim(owner, lease, now, locked), maxAttempts, id);
  }

  /** Were a queued row to carry a cancel request, whatever put it there, the first sweep would end it. */
  lemma StrayRequestIsSwept(t: Task, now: Time, maxAttempts: int)
    requires t.status in {Pending, Paused, Failed} && t.cancelRequestedAt.Some?
    ensures var t' := Swept(t, now, maxAttempts);
      && t'.status == Canceled && t'.finishedAt == t'.canceledAt == t'.lastStatusAt == Some(now)
      && t'.nextRetryAt.None? && t'.cancelRequestedAt.None?
  {}

  /** A lease that has not expired is invisible to every claim. */
  lemma UnexpiredLeaseIsKept(db: Db, owner: string, lease: Time, now: Time, locked: set<Id>, maxAttempts: int, id: Id)
    requires id in db.tasks && db.nextId !in db.tasks
    requires var t := db.tasks[id]; t.status == Running && t.leaseExpiresAt.Some? && now < t.leaseExpiresAt.value
    ensures Winner(db.tasks, now, maxAttempts, locked) != Some(id)
    ensures var after := Apply(db, Claim(owner, lease, now, locked), maxAttempts).tasks;
      id in after && after[id] == db.tasks[id]
  {
    RowOf(db, Claim(owner, lease, now, locked), maxAttempts, id);
  }

  // ---- cancel requests are never lost

  ghost predicate CancelPending(db: Db, id: Id) {
    id in db.tasks && db.tasks[id].status == Running && db.tasks[id].cancelRequestedAt.Some?
  }

  lemma CancelPendingStep(db: Db, op: Op, maxAttempts: int, id: Id)
    requires db.nextId !in db.tasks && CancelPending(db, id)
    ensures var after := Apply(db, op, maxAttempts);
      CancelPending(after, id) || (id in after.tasks && after.tasks[id].status == Canceled)
  {
    RowOf(db, op, maxAttempts, id);
    WinnerIsEligible(db.tasks, op, maxAttempts);
  }

  /**
   * Once a cancel request is stored on a running row, it stays stored until the row's next status, and that
   * status is canceled: no worker result, lease expiry, release or re-claim can come first.
   */
  lemma CancelIsNeverLost(db: Db, ops: seq<Op>, maxAttempts: int, id: Id)
    requires maxAttempts >= 1 && ValidOps(ops) && TableInv(db, maxAttempts) && CancelPending(db, id)
    ensures PendingUntil(db, ops, maxAttempts, id, |ops| + 1) || exists n: nat ::
      CanceledFirstAt(db, ops, maxAttempts, id, n)
  {
    CancelKept(db, ops, maxAttempts, id, |ops|);
  }

  lemma {:induction false} CancelKept(db: Db, ops: seq<Op>, maxAttempts: int, id: Id, k: nat)
    requires maxAttempts >= 1 && ValidOps(ops) && TableInv(db, maxAttempts) && CancelPending(db, id) && k <= |ops|
    ensures PendingUntil(db, ops, maxAttempts, id, k + 1) || exists n: nat ::
      CanceledFirstAt(db, ops, maxAttempts, id, n)
  {
    if k == 0 {
      assert ops[..0] == [];
    } else {
      CancelKept(db, ops, maxAttempts, id, k - 1);
      if PendingUntil(db, ops, maxAttempts, id, k) {
        RunKeepsInv(db, ops[..k - 1], maxAttempts);
        AfterNext(db, ops, maxAttempts, k - 1);
        var before := After(db, ops, maxAttempts, k - 1);
        CancelPendingStep(before, ops[k - 1], maxAttempts, id);
        if !CancelPending(After(db, ops, maxAttempts, k), id) {
          assert CanceledFirstAt(db, ops, maxAttempts, id, k);
        }
      }
    }
  }

  ghost predicate PendingUntil(db: Db, ops: seq<Op>, maxAttempts: int, id: Id, n: nat) {
    n <= |ops| + 1 && forall k: nat | k < n :: CancelPending(After(db, ops, maxAttempts, k), id)
  }

  /** The request is pending before step `n` and the row is canceled by it. */
  ghost predicate CanceledFirstAt(db: Db, ops: seq<Op>, maxAttempts: int, id: Id, n: nat) {
    && 0 < n <= |ops|
    && PendingUntil(db, ops, maxAttempts, id, n)
    && id in After(db, ops, maxAttempts, n).tasks
    && After(db, ops, maxAttempts, n).tasks[id].status == Canceled
  }

  // ---- destination changes and folder deletion

  /** A row that cannot reach success without an explicit reset. */
  predicate Doomed(t: Task) {
    t.status == Canceled || t.status == Paused || (t.status == Running && t.cancelRequestedAt.Some?)
  }

  /** The bulk cancellation dooms every task of the folders that has not succeeded. */
  lemma FolderCancellationDooms(db: Db, folders: set<nat>, now: Time, maxAttempts: int, id: Id)
    requires id in db.tasks && db.nextId !in db.tasks && db.tasks[id].folder in folders
    ensures var after := Apply(db, CancelFolders(folders, now), maxAttempts).tasks;
      id in after && (Doomed(after[id]) || (db.tasks[id].status == Success && after[id] == db.tasks[id]))
  {
    RowOf(db, CancelFolders(folders, now), maxAttempts, id);
  }

  lemma DoomedStep(db: Db, op: Op, maxAttempts: int, id: Id)
    requires db.nextId !in db.tasks && id in db.tasks && id < db.nextId && Doomed(db.tasks[id])
    requires !(op.Reset? && op.id == id)
    ensures var after := Apply(db, op, maxAttempts); id in after.tasks ==> Doomed(after.tasks[id])
  {
    RowOf(db, op, maxAttempts, id);
    WinnerIsEligible(db.tasks, op, maxAttempts);
  }

  lemma {:induction false} GoneStaysGone(db: Db, ops: seq<Op>, maxAttempts: int, id: Id)
    requires id !in db.tasks && id < db.nextId
    ensures id !in Run(db, ops, maxAttempts).tasks && db.nextId <= Run(db, ops, maxAttempts).nextId
  {
    if ops != [] {
      GoneStaysGone(db, ops[..|ops| - 1], maxAttempts, id);
    }
  }

  /**
   * After a committed destination change or folder deletion no task that existed at that moment and had not
   * already succeeded reaches success in any continuation that does not reset it.
   */
  lemma {:induction false} NoSuccessAfterFolderCancellation(
      db: Db, folders: set<nat>, now: Time, ops: seq<Op>, maxAttempts: int, id: Id)
    requires maxAttempts >= 1 && ValidOps(ops) && TableInv(db, maxAttempts)
    requires id in db.tasks && db.tasks[id].folder in folders && db.tasks[id].status != Success
    requires forall i | 0 <= i < |ops| :: !(ops[i].Reset? && ops[i].id == id)
    ensures var end := Run(Apply(db, CancelFolders(folders, now), maxAttempts), ops, maxAttempts);
      && id < end.nextId
      && (id in end.tasks ==> Doomed(end.tasks[id]) && end.tasks[id].status != Success)
  {
    var canceled := Apply(db, CancelFolders(folders, now), maxAttempts);
    if ops == [] {
      FolderCancellationDooms(db, folders, now, maxAttempts, id);
    } else {
      var init := ops[..|ops| - 1];
      NoSuccessAfterFolderCancellation(db, folders, now, init, maxAttempts, id);
      ApplyKeepsInv(db, CancelFolders(folders, now), maxAttempts);
      RunKeepsInv(canceled, init, maxAttempts);
      var mid := Run(canceled, init, maxAttempts);
      if id in mid.tasks {
        DoomedStep(mid, ops[|ops| - 1], maxAttempts, id);
      }
    }
  }

  /** The exception is real: a reset makes a doomed, unleased row claimable again. */
  lemma ResetReopens(db: Db, now: Time, maxAttempts: int, id: Id)
    requires maxAttempts >= 1 && db.nextId !in db.tasks && id in db.tasks && Doomed(db.tasks[id])
    ensures var after := Apply(db, Reset(id, now), maxAttempts).tasks;
      id in after && (Eligible(after[id], now, maxAttempts) <==> db.tasks[id].status != Running)
  {
    RowOf(db, Reset(id, now), maxAttempts, id);
  }

  /** Success is final: a successful row is never rewritten into another status. */
  lemma {:induction false} SuccessIsAbsorbing(db: Db, ops: seq<Op>, maxAttempts: int, id: Id)
    requires maxAttempts >= 1 && ValidOps(ops) && TableInv(db, maxAttempts)
    requires id in db.tasks && db.tasks[id].status == Success
    ensures var end := Run(db, ops, maxAttempts);
      id < end.nextId && (id in end.tasks ==> end.tasks[id].status == Success)
  {
    if ops != [] {
      var init := ops[..|ops| - 1];
      SuccessIsAbsorbing(db, init, maxAttempts, id);
      RunKeepsInv(db, init, maxAttempts);
      var mid := Run(db, init, maxAttempts);
      if id in mid.tasks {
        RowOf(mid, ops[|ops| - 1], maxAttempts, id);
        WinnerIsEligible(mid.tasks, ops[|ops| - 1], maxAttempts);
      }
    }
  }

  // ---- attempt accounting

  /**
   * The table with its history: per task the claims and releases committed since its last reset, and the totals.
   * `firstId` is the counter's initial value, so `db.nextId - firstId` tasks have ever been created.
   */
  datatype History = History(
    db: Db, firstId: Id, claims: map<Id, nat>, releases: map<Id, nat>, totalClaims: nat, totalReleases: nat,
      totalResets: nat)

  predicate Releases(db: Db, op: Op) {
    op.ReleasePending? && op.id in db.tasks && Owns(db.tasks[op.id], op.owner)
      && db.tasks[op.id].cancelRequestedAt.None?
  }

  predicate Resets(db: Db, op: Op) {
    op.Reset? && op.id in db.tasks && Resettable(db.tasks[op.id])
  }

  ghost function Next(h: History, op: Op, maxAttempts: int): History {
    var h' := h.(db := Apply(h.db, op, maxAttempts));
    var w := WinnerOf(h.db.tasks, op, maxAttempts);
    if w.Some? then
      h'.(claims := h.claims[w.value := Count(h.claims, w.value) + 1], totalClaims := h.totalClaims + 1)
    else if Releases(h.db, op) then
      h'.(releases := h.releases[op.id := Count(h.releases, op.id) + 1], totalReleases := h.totalReleases + 1)
    else if Resets(h.db, op) then
      h'.(claims := h.claims[op.id := 0], releases := h.releases[op.id := 0], totalResets := h.totalResets + 1)
    else h'
  }

  ghost function Play(h: History, ops: seq<Op>, maxAttempts: int): History {
    if ops == [] then h else Next(Play(h, ops[..|ops| - 1], maxAttempts), ops[|ops| - 1], maxAttempts)
  }

  function Start(firstId: Id): History {
    History(Db(map[], firstId), firstId, map[], map[], 0, 0, 0)
  }

  /** Claims minus releases, summed over every identifier handed out so far. */
  function NetSum(claims: map<Id, nat>, releases: map<Id, nat>, lo: Id, hi: Id): int
    requires lo <= hi
    decreases hi
  {
    if lo == hi then 0
    else NetSum(claims, releases, lo, hi - 1) + Count(claims, hi - 1) - Count(releases, hi - 1)
  }

  /** What resets and releases add to the claims that the current counters explain. */
  function Extra(h: History, maxAttempts: int): int {
    Times(maxAttempts, h.totalResets) + h.totalReleases
  }

  /** Repeated addition; equal to the product. */
  function Times(m: int, n: nat): int {
    if n == 0 then 0 else Times(m, n - 1) + m
  }

  lemma {:induction false} TimesIsProduct(m: int, n: nat)
    ensures Times(m, n) == m * n
  {
    if n != 0 {
      TimesIsProduct(m, n - 1);
    }
  }

  ghost predicate RowsAccounted(h: History, maxAttempts: int) {
    && TableInv(h.db, maxAttempts)
    && h.firstId <= h.db.nextId
    && (forall id | id in h.db.tasks ::
      h.firstId <= id && h.db.tasks[id].retryCount == Count(h.claims, id) - Count(h.releases, id))
    && (forall id :: 0 <= Count(h.claims, id) - Count(h.releases, id) <= maxAttempts)
    && (forall id | id >= h.db.nextId :: id !in h.claims && id !in h.releases)
  }

  ghost predicate Accounted(h: History, maxAttempts: int) {
    && RowsAccounted(h, maxAttempts)
    && h.totalClaims <= NetSum(h.claims, h.releases, h.firstId, h.db.nextId) + Extra(h, maxAttempts)
  }

  /** Changing the counts of one identifier changes the sum by exactly that much. */
  lemma {:induction false} NetSumAt(
      c: map<Id, nat>, r: map<Id, nat>, c': map<Id, nat>, r': map<Id, nat>, lo: Id, hi: Id, id: Id)
    requires lo <= hi
    requires forall x | x != id :: Count(c, x) == Count(c', x) && Count(r, x) == Count(r', x)
    ensures NetSum(c', r', lo, hi) - NetSum(c, r, lo, hi) ==
      if lo <= id < hi then (Count(c', id) - Count(r', id)) - (Count(c, id) - Count(r, id)) else 0
    decreases hi
  {
    if lo < hi {
      NetSumAt(c, r, c', r', lo, hi - 1, id);
    }
  }

  lemma {:induction false} NetSumBound(h: History, maxAttempts: int, hi: Id)
    requires h.firstId <= hi && forall id :: Count(h.claims, id) - Count(h.releases, id) <= maxAttempts
    ensures NetSum(h.claims, h.releases, h.firstId, hi) <= Times(maxAttempts, hi - h.firstId)
    decreases hi
  {
    if h.firstId < hi {
      NetSumBound(h, maxAttempts, hi - 1);
    }
  }

  /** How one operation changes the attempt counter of one surviving row. */
  lemma CounterStep(db: Db, op: Op, maxAttempts: int, id: Id)
    requires maxAttempts >= 1 && TableInv(db, maxAttempts) && id in db.tasks && id in Apply(db, op, maxAttempts).tasks
    ensures var t, t' := db.tasks[id], Apply(db, op, maxAttempts).tasks[id];
      t'.retryCount ==
        if WinnerOf(db.tasks, op, maxAttempts) == Some(id) then t.retryCount + 1
        else if Releases(db, op) && op.id == id then t.retryCount - 1
        else if Resets(db, op) && op.id == id then 0
        else t.retryCount
  {
    RowOf(db, op, maxAttempts, id);
  }

  /** The identifier whose history an operation changes. */
  ghost function Touched(db: Db, op: Op, maxAttempts: int): Id {
    var w := WinnerOf(db.tasks, op, maxAttempts);
    if w.Some? then w.value else if Releases(db, op) || Resets(db, op) then op.id else db.nextId
  }

  lemma NextKeepsRows(h: History, op: Op, maxAttempts: int)
    requires maxAttempts >= 1 && ValidOp(op) && RowsAccounted(h, maxAttempts)
    ensures RowsAccounted(Next(h, op, maxAttempts), maxAttempts)
  {
    var h' := Next(h, op, maxAttempts);
    ApplyKeepsInv(h.db, op, maxAttempts);
    assert h'.db == Apply(h.db, op, maxAttempts) && h'.firstId == h.firstId && h.db.nextId <= h'.db.nextId;
    forall id: Id
      ensures 0 <= Count(h'.claims, id) - Count(h'.releases, id) <= maxAttempts
      ensures id >= h'.db.nextId ==> id !in h'.claims && id !in h'.releases
    {
      NetStep(h, op, maxAttempts, id);
    }
    forall id | id in h'.db.tasks
      ensures h'.firstId <= id && h'.db.tasks[id].retryCount == Count(h'.claims, id) - Count(h'.releases, id) {
      CountStep(h, op, maxAttempts, id);
    }
  }

  lemma NetStep(h: History, op: Op, maxAttempts: int, id: Id)
    requires maxAttempts >= 1 && RowsAccounted(h, maxAttempts)
    ensures var h' := Next(h, op, maxAttempts);
      && 0 <= Count(h'.claims, id) - Count(h'.releases, id) <= maxAttempts
      && h'.db.nextId >= h.db.nextId
      && (id >= h.db.nextId ==> id !in h'.claims && id !in h'.releases)
  {
    WinnerIsEligible(h.db.tasks, op, maxAttempts);
    assert 0 <= Count(h.claims, id) - Count(h.releases, id) <= maxAttempts;
  }

  lemma CountStep(h: History, op: Op, maxAttempts: int, id: Id)
    requires maxAttempts >= 1 && ValidOp(op) && RowsAccounted(h, maxAttempts) && id in Next(h, op, maxAttempts).db.tasks
    ensures var h' := Next(h, op, maxAttempts);
      h'.firstId <= id && h'.db.tasks[id].retryCount == Count(h'.claims, id) - Count(h'.releases, id)
  {
    if id in h.db.tasks {
      OldRowCount(h, op, maxAttempts, id);
    } else {
      NewRow(h.db, op, maxAttempts, id);
      NewRowCount(h, op, maxAttempts);
    }
  }

  lemma OldRowCount(h: History, op: Op, maxAttempts: int, id: Id)
    requires maxAttempts >= 1 && TableInv(h.db, maxAttempts) && id in h.db.tasks
    requires id in Apply(h.db, op, maxAttempts).tasks
    requires h.db.tasks[id].retryCount == Count(h.claims, id) - Count(h.releases, id)
    ensures var h' := Next(h, op, maxAttempts);
      h'.db.tasks[id].retryCount == Count(h'.claims, id) - Count(h'.releases, id)
  {
    CounterStep(h.db, op, maxAttempts, id);
  }

  lemma NewRowCount(h: History, op: Op, maxAttempts: int)
    requires op.Create? && h.db.nextId !in h.claims && h.db.nextId !in h.releases
    ensures var h' := Next(h, op, maxAttempts); Count(h'.claims, h.db.nextId) == Count(h'.releases, h.db.nextId) == 0
  {}

  /** A row that an operation adds is a fresh one under the next identifier. */
  lemma NewRow(db: Db, op: Op, maxAttempts: int, id: Id)
    requires id !in db.tasks && id in Apply(db, op, maxAttempts).tasks
    ensures op.Create? && id == db.nextId && Apply(db, op, maxAttempts).tasks[id] == FreshTask(op.task)
  {}

  lemma NextKeepsTotal(h: History, op: Op, maxAttempts: int)
    requires maxAttempts >= 1 && ValidOp(op) && Accounted(h, maxAttempts)
    ensures var h' := Next(h, op, maxAttempts);
      h'.totalClaims <= NetSum(h'.claims, h'.releases, h.firstId, h.db.nextId) + Extra(h', maxAttempts)
  {
    var h' := Next(h, op, maxAttempts);
    var id := Touched(h.db, op, maxAttempts);
    NetSumAt(h.claims, h.releases, h'.claims, h'.releases, h.firstId, h.db.nextId, id);
    TouchedStep(h, op, maxAttempts);
  }

  /**
   * What an operation adds to the total claims it also adds to the net count of the row it touches, or to the
   * allowance.
   */
  lemma TouchedStep(h: History, op: Op, maxAttempts: int)
    requires maxAttempts >= 1 && ValidOp(op) && RowsAccounted(h, maxAttempts)
    ensures var h', id := Next(h, op, maxAttempts), Touched(h.db, op, maxAttempts);
      var gain := (Count(h'.claims, id) - Count(h'.releases, id)) - (Count(h.claims, id) - Count(h.releases, id));
      && h.firstId <= id
      && h'.totalClaims - h.totalClaims <= (if id < h.db.nextId then gain else 0) +
        Extra(h', maxAttempts) - Extra(h, maxAttempts)
  {
    WinnerIsEligible(h.db.tasks, op, maxAttempts);
  }

  lemma NextKeepsAccounts(h: History, op: Op, maxAttempts: int)
    requires maxAttempts >= 1 && ValidOp(op) && Accounted(h, maxAttempts)
    ensures Accounted(Next(h, op, maxAttempts), maxAttempts)
  {
    NextKeepsRows(h, op, maxAttempts);
    NextKeepsTotal(h, op, maxAttempts);
    NextIdGrows(h, op, maxAttempts);
  }

  lemma NextIdGrows(h: History, op: Op, maxAttempts: int)
    requires RowsAccounted(Next(h, op, maxAttempts), maxAttempts) && h.firstId <= h.db.nextId
    ensures var h' := Next(h, op, maxAttempts);
      h'.firstId == h.firstId && h.db.nextId <= h'.db.nextId &&
      NetSum(h'.claims, h'.releases, h.firstId, h.db.nextId) <= NetSum(h'.claims, h'.releases, h.firstId, h'.db.nextId)
  {
    var h' := Next(h, op, maxAttempts);
    assert 0 <= Count(h'.claims, h.db.nextId) - Count(h'.releases, h.db.nextId);
    assert h'.db.nextId == h.db.nextId || h'.db.nextId == h.db.nextId + 1;
  }

  lemma {:induction false} PlayIsRun(h: History, ops: seq<Op>, maxAttempts: int)
    ensures Play(h, ops, maxAttempts).db == Run(h.db, ops, maxAttempts)
    ensures Play(h, ops, maxAttempts).firstId == h.firstId
  {
    if ops != [] {
      PlayIsRun(h, ops[..|ops| - 1], maxAttempts);
    }
  }

  lemma {:induction false} PlayKeepsAccounts(h: History, ops: seq<Op>, maxAttempts: int)
    requires maxAttempts >= 1 && ValidOps(ops) && Accounted(h, maxAttempts)
    ensures Accounted(Play(h, ops, maxAttempts), maxAttempts)
  {
    if ops != [] {
      var init, last := ops[..|ops| - 1], ops[|ops| - 1];
      PlayKeepsAccounts(h, init, maxAttempts);
      NextKeepsAccounts(Play(h, init, maxAttempts), last, maxAttempts);
    }
  }

  /** Every row's counter is explained by its own history, and the total by what was created, reset and released. */
  ghost predicate Explained(h: History, maxAttempts: int) {
    var created := h.db.nextId - h.firstId;
    && (forall id | id in h.db.tasks ::
          && h.db.tasks[id].retryCount == Count(h.claims, id) - Count(h.releases, id)
          && Count(h.claims, id) <= maxAttempts + Count(h.releases, id))
    && h.totalClaims <= maxAttempts * (created + h.totalResets) + h.totalReleases
  }

  /**
   * In every run from an empty queue the attempt counter of a row is its claims minus its releases since the last
   * reset, so it stays within the limit, and the claims of the whole run are bounded by the attempts that creations
   * and resets grant plus the releases that hand an attempt back.
   */
  lemma AttemptAccounting(firstId: Id, ops: seq<Op>, maxAttempts: int)
    requires maxAttempts >= 1 && ValidOps(ops)
    ensures var h := Play(Start(firstId), ops, maxAttempts);
      h.db == Run(Db(map[], firstId), ops, maxAttempts) && h.firstId == firstId && Explained(h, maxAttempts)
  {
    StartAccounted(firstId, maxAttempts);
    PlayKeepsAccounts(Start(firstId), ops, maxAttempts);
    PlayIsRun(Start(firstId), ops, maxAttempts);
    CountersExplained(Play(Start(firstId), ops, maxAttempts), maxAttempts);
  }

  lemma StartAccounted(firstId: Id, maxAttempts: int)
    requires maxAttempts >= 1
    ensures Accounted(Start(firstId), maxAttempts)
  {}

  lemma CountersExplained(h: History, maxAttempts: int)
    requires maxAttempts >= 1 && Accounted(h, maxAttempts)
    ensures Explained(h, maxAttempts)
  {
    TotalBound(h, maxAttempts);
  }

  lemma TotalBound(h: History, maxAttempts: int)
    requires maxAttempts >= 1 && Accounted(h, maxAttempts)
    ensures h.totalClaims <= maxAttempts * (h.db.nextId - h.firstId + h.totalResets) + h.totalReleases
  {
    NetSumBound(h, maxAttempts, h.db.nextId);
    TimesIsProduct(maxAttempts, h.db.nextId - h.firstId);
    TimesIsProduct(maxAttempts, h.totalResets);
    Distribute(maxAttempts, h.db.nextId - h.firstId, h.totalResets);
  }

  lemma Distribute(m: int, a: int, b: int)
    ensures m * (a + b) == m * a + m * b
  {}

  /** Without resets and releases, N tasks are claimed at most M * N times. */
  lemma {:induction false} ClaimsBounded(firstId: Id, ops: seq<Op>, maxAttempts: int)
    requires maxAttempts >= 1 && ValidOps(ops)
    requires forall i | 0 <= i < |ops| :: !ops[i].Reset? && !ops[i].ReleasePending?
    ensures var h := Play(Start(firstId), ops, maxAttempts); h.totalClaims <= maxAttempts * (h.db.nextId - firstId)
  {
    NoHandouts(Start(firstId), ops, maxAttempts);
    AttemptAccounting(firstId, ops, maxAttempts);
  }

  lemma {:induction false} NoHandouts(h: History, ops: seq<Op>, maxAttempts: int)
    requires forall i | 0 <= i < |ops| :: !ops[i].Reset? && !ops[i].ReleasePending?
    ensures var h' := Play(h, ops, maxAttempts); h'.totalReleases == h.totalReleases && h'.totalResets == h.totalResets
  {
    if ops != [] {
      NoHandouts(h, ops[..|ops| - 1], maxAttempts);
    }
  }

  /** The `ELSE 0` arm of the release is dead: every release in a reachable table finds a positive counter. */
  lemma ReleaseFindsPositiveCounter(db: Db, ops: seq<Op>, maxAttempts: int, op: Op)
    requires maxAttempts >= 1 && ValidOps(ops) && TableInv(db, maxAttempts)
    requires Releases(Run(db, ops, maxAttempts), op)
    ensures Run(db, ops, maxAttempts).tasks[op.id].retryCount > 0
  {
    RunKeepsInv(db, ops, maxAttempts);
  }
}
