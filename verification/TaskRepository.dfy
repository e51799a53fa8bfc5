/** The task repository: each method is one transaction or statement over the stored rows. */
module TaskRepository {
  import opened Wrappers
  import opened TaskTable
  import FileRecords

  datatype RowError = NotFound | Conflict

  function Limit(maxAttempts: int): int {
    if maxAttempts <= 0 then 1 else maxAttempts
  }

  lemma FirstIsUnique(tasks: Table, ids: set<Id>, a: Id, b: Id)
    requires forall j | j in ids :: j in tasks
    requires IsFirst(tasks, ids, a) && IsFirst(tasks, ids, b)
    ensures a == b
  {}

  /** A file version may be marked uploaded only if the row still describes that version and target. */
  predicate MarkApplies(file: FileRecords.FileRecord, fingerprint: string, remoteName: string, remotePath: string) {
    && (fingerprint != "" ==> file.fingerprint == fingerprint)
    && file.remoteName == remoteName && file.remotePath == remotePath
  }

  /** The job itself: what is to be copied where. */
  predicate SameJob(a: Task, b: Task) {
    && a.fileId == b.fileId && a.folder == b.folder && a.fingerprint == b.fingerprint
    && a.remoteName == b.remoteName && a.remotePath == b.remotePath && a.key == b.key && a.priority == b.priority
  }

  /** Column by column, what a worker that claims `before` holds. */
  predicate LeaseGranted(before: Task, after: Task, owner: string, lease: Time, now: Time) {
    && (before.status == Pending || before.status == Running)
    && after.status == Running && after.leaseOwner == owner && after.leaseExpiresAt == Some(now + lease)
    && after.heartbeatAt == after.startedAt == after.lastStatusAt == Some(now)
    && after.finishedAt.None? && after.nextRetryAt.None? && after.cancelRequestedAt.None?
    && after.retryCount == before.retryCount + 1 && after.failures == before.failures
    && after.progress == before.progress && after.speed == before.speed && SameJob(before, after)
  }

  /** Column by column, what is left of a lease that has ended for good at `at`. */
  predicate LeaseEnded(before: Task, after: Task, at: Time) {
    && after.leaseOwner == "" && after.leaseExpiresAt.None? && after.heartbeatAt.None?
    && after.finishedAt == after.lastStatusAt == Some(at) && after.nextRetryAt.None? && after.cancelRequestedAt.None?
    && after.retryCount == before.retryCount && after.startedAt == before.startedAt && SameJob(before, after)
  }

  /** The row starts over: as a task just created, except for its number of recorded failures and time stamps. */
  predicate IsAnew(before: Task, after: Task) {
    && after.status == Pending && after.retryCount == 0 && after.leaseOwner == "" && after.leaseExpiresAt.None?
    && after.nextRetryAt.None? && after.cancelRequestedAt.None? && after.canceledAt.None?
    && after.startedAt.None? && after.finishedAt.None? && after.progress == 0.0 && after.speed == 0
    && SameJob(before, after)
  }

  lemma ClaimGrants(t: Task, owner: string, lease: Time, now: Time, maxAttempts: int)
    requires Eligible(t, now, maxAttempts)
    ensures LeaseGranted(t, Claimed(t, owner, lease, now), owner, lease, now)
  {}

  class TaskRepository {
    var tasks: Table
    var nextId: Id
    var files: FileRecords.Rows

    ghost function State(): Db
      reads this
    {
      Db(tasks, nextId)
    }

    ghost predicate Valid()
      reads this
    {
      forall id | id in tasks :: id < nextId
    }

    constructor ()
      ensures Valid() && tasks == map[] && files == map[]
    {
      tasks, nextId, files := map[], 1, map[];
    }

    /**
     * Claim one due task.  The three sweeps and the claim commit together; when nothing is claimable the
     * transaction is rolled back and the sweeps with it.
     */
    method ClaimNext(
        owner: string, lease: Time, maxAttempts: int, now: Time, locked: set<Id>) returns (claimed: Option<Id>)
      modifies this`tasks
      ensures State() ==
        Apply(old(State()), Claim(owner, lease, now, locked), if maxAttempts <= 0 then 1 else maxAttempts)
      ensures claimed.None? ==>
        tasks == old(tasks) && forall id | id in tasks && id !in locked :: !Eligible(tasks[id], now, Limit(maxAttempts))
      ensures claimed.Some? ==> var id := claimed.value;
        && id in old(tasks) && id !in locked && Eligible(old(tasks)[id], now, Limit(maxAttempts))
        && (forall j | j in old(tasks) && j !in locked && Eligible(old(tasks)[j], now, Limit(maxAttempts)) ::
          || old(tasks)[j].priority < old(tasks)[id].priority
          || (old(tasks)[j].priority == old(tasks)[id].priority && id <= j))
        && tasks.Keys == old(tasks).Keys
        && LeaseGranted(old(tasks)[id], tasks[id], owner, lease, now)
        && forall j | j in tasks && j != id :: tasks[j] == Swept(old(tasks)[j], now, Limit(maxAttempts))
    {
      var limit := Limit(maxAttempts);
      var before := tasks;
      Sweep(now, limit);
      var ids := Candidates(tasks, now, limit, locked);
      SameCandidates(before, now, limit, locked);
      if ids == {} {
        tasks := before;
        NothingClaimed(before, owner, lease, now, limit, locked);
        return None;
      }
      ghost var first := FirstExists(tasks, ids);
      var id :| id in ids && IsFirst(tasks, ids, id);
      tasks := tasks[id := Claimed(tasks[id], owner, lease, now)];
      ClaimApplied(before, id, owner, lease, now, limit, locked);
      FirstMeans(before, now, limit, locked, id);
      ClaimGrants(before[id], owner, lease, now, limit);
      claimed := Some(id);
    }

    /** The three UPDATE statements that precede the claim. */
    method Sweep(now: Time, limit: int)
      modifies this`tasks
      ensures tasks == SweptTable(old(tasks), now, limit)
    {
      tasks := map id | id in tasks :: SweepQueued(tasks[id], now);
      tasks := map id | id in tasks :: SweepAbandoned(tasks[id], now);
      tasks := map id | id in tasks :: SweepExhausted(tasks[id], now, limit);
    }

    method RenewLease(id: Id, owner: string, lease: Time, now: Time) returns (active: bool)
      modifies this`tasks
      ensures State() == Apply(old(State()), Renew(id, owner, lease, now), 0)
      ensures active <==> id in old(tasks) && Owns(old(tasks)[id], owner) && old(tasks)[id].cancelRequestedAt.None?
      ensures active ==>
        tasks == old(tasks)[id := old(tasks)[id].(leaseExpiresAt := Some(now + lease), heartbeatAt := Some(now))]
      ensures !active ==> tasks == old(tasks)
    {
      active := id in tasks && Owns(tasks[id], owner) && tasks[id].cancelRequestedAt.None?;
      if active {
        tasks := tasks[id := Renewed(tasks[id], lease, now)];
      }
    }

    method UpdateProgress(id: Id, owner: string, percent: real, speed: int, now: Time)
      modifies this`tasks
      ensures State() == Apply(old(State()), Progress(id, owner, percent, speed, now), 0)
      ensures tasks ==
        if id in old(tasks) && old(tasks)[id].status == Running && old(tasks)[id].leaseOwner == owner then
          old(tasks)[id := old(tasks)[id].(progress := percent, speed := speed, lastProgressAt := Some(now))]
        else old(tasks)
    {
      if id in tasks && Owns(tasks[id], owner) {
        tasks := tasks[id := tasks[id].(progress := percent, speed := speed, lastProgressAt := Some(now))];
      }
    }

    /** The task transition and the upload mark commit together or not at all. */
    method FinishSuccess(
        id: Id, owner: string, fileId: nat, fingerprint: string, remoteName: string, remotePath: string, at: Time)
      returns (transitioned: bool, marked: bool)
      modifies this`tasks, this`files
      ensures State() == Apply(old(State()), Succeed(id, owner, at), 0)
      ensures transitioned <==>
        id in old(tasks) && Owns(old(tasks)[id], owner) && old(tasks)[id].cancelRequestedAt.None?
      ensures transitioned ==> tasks == old(tasks)[id := tasks[id]] && LeaseEnded(old(tasks)[id], tasks[id], at)
      ensures transitioned ==> tasks[id].status == Success && tasks[id].progress == 100.0
      ensures marked <==> transitioned && fileId in old(files) && var row := old(files)[fileId];
        && row.remoteName == remoteName && row.remotePath == remotePath
        && (fingerprint == "" || row.fingerprint == fingerprint)
      ensures marked ==> files == old(files)[fileId := old(files)[fileId].(uploadedAt := Some(at))]
      ensures !marked ==> files == old(files)
    {
      transitioned, marked := false, false;
      if id in tasks && Owns(tasks[id], owner) && tasks[id].cancelRequestedAt.None? {
        tasks := tasks[id := Succeeded(tasks[id], at)];
        transitioned := true;
        if fileId in files && MarkApplies(files[fileId], fingerprint, remoteName, remotePath) {
          files := files[fileId := files[fileId].(uploadedAt := Some(at))];
          marked := true;
        }
      }
    }

    method FinishCanceled(id: Id, owner: string, at: Time) returns (transitioned: bool)
      modifies this`tasks
      ensures State() == Apply(old(State()), FinishCancel(id, owner, at), 0)
      ensures transitioned <==> id in old(tasks) && Owns(old(tasks)[id], owner)
      ensures transitioned ==> tasks == old(tasks)[id := tasks[id]] && LeaseEnded(old(tasks)[id], tasks[id], at)
      ensures transitioned ==> tasks[id].status == Canceled && tasks[id].canceledAt == Some(at)
    {
      transitioned := id in tasks && Owns(tasks[id], owner);
      if transitioned {
        tasks := tasks[id := CanceledByWorker(tasks[id], at)];
      }
    }

    /** The reported status is the one committed. */
    method FailOrRetry(
        id: Id, owner: string, retryAt: Time, maxAttempts: int, now: Time) returns (r: Result<Status, RowError>)
      modifies this`tasks
      ensures State() == Apply(old(State()), Fail(id, owner, retryAt, now), maxAttempts)
      ensures r.Ok? <==> id in old(tasks) && Owns(old(tasks)[id], owner)
      ensures r.Ok? ==> id in tasks && tasks[id].status == r.value
      ensures r.Ok? && old(tasks)[id].cancelRequestedAt.Some? ==> r.value == Canceled
      ensures r.Ok? && old(tasks)[id].cancelRequestedAt.None? ==>
        (r.value == Pending <==> old(tasks)[id].retryCount < maxAttempts)
      ensures r.Err? ==> tasks == old(tasks)
    {
      if id !in tasks || !Owns(tasks[id], owner) {
        return Err(NotFound);
      }
      var task := tasks[id];
      var status, retry, finished := Failed, None, Some(now);
      if task.cancelRequestedAt.Some? {
        status := Canceled;
      } else if task.retryCount < maxAttempts {
        status, retry, finished := Pending, Some(retryAt), None;
      }
      var row := task.(status := status, finishedAt := finished, lastStatusAt := Some(now), nextRetryAt := retry,
                       leaseOwner := "", leaseExpiresAt := None, heartbeatAt := None, failures := task.failures + 1);
      if status == Canceled {
        row := row.(canceledAt := Some(now), cancelRequestedAt := None);
      }
      tasks := tasks[id := row];
      return Ok(status);
    }

    /**
     * Two statements: with nothing in between, a cancel request becomes a cancellation and any other lease goes back to
     * the queue.
     */
    method ReleaseLease(id: Id, owner: string, now: Time)
      modifies this`tasks
      ensures State() ==
        Apply(Apply(old(State()), ReleaseCanceled(id, owner, now), 0), ReleasePending(id, owner, now), 0)
    {
      if id in tasks && Owns(tasks[id], owner) && tasks[id].cancelRequestedAt.Some? {
        tasks := tasks[id := CanceledByWorker(tasks[id], now)];
        return;
      }
      if id in tasks && Owns(tasks[id], owner) && tasks[id].cancelRequestedAt.None? {
        tasks := tasks[id := Released(tasks[id])];
      }
    }

    method RequestCancelTask(id: Id, at: Time) returns (r: Result<Status, RowError>)
      modifies this`tasks
      ensures State() == Apply(old(State()), RequestCancel(id, at), 0)
      ensures r.Err? <==> id !in old(tasks)
      ensures r.Ok? ==> id in tasks && tasks[id].status == r.value
      ensures r.Ok? ==>
        r.value == Success || r.value == Canceled || (r.value == Running && tasks[id].cancelRequestedAt == Some(at))
    {
      if id !in tasks {
        return Err(NotFound);
      }
      var task := tasks[id];
      if task.status == Success || task.status == Canceled {
        return Ok(task.status);
      }
      var row := task.(cancelRequestedAt := Some(at), lastStatusAt := Some(at));
      if task.status != Running {
        row := row.(status := Canceled, canceledAt := Some(at), finishedAt := Some(at), nextRetryAt := None,
          cancelRequestedAt := None);
      }
      tasks := tasks[id := row];
      return Ok(row.status);
    }

    method ResetForRetry(id: Id, at: Time) returns (reset: bool)
      modifies this`tasks
      ensures State() == Apply(old(State()), Reset(id, at), 0)
      ensures reset <==> id in old(tasks) && old(tasks)[id].status in {Failed, Canceled, Paused}
      ensures reset ==> tasks == old(tasks)[id := tasks[id]] && IsAnew(old(tasks)[id], tasks[id])
    {
      reset := id in tasks && Resettable(tasks[id]);
      if reset {
        tasks := tasks[id := ResetRow(tasks[id], at)];
      }
    }

    method PauseIfNotRunning(id: Id, at: Time) returns (paused: bool)
      modifies this`tasks
      ensures State() == Apply(old(State()), Pause(id, at), 0)
      ensures paused <==> id in old(tasks) && old(tasks)[id].status in {Pending, Failed, Canceled, Paused}
      ensures paused ==>
        tasks == old(tasks)[id := old(tasks)[id].(status := Paused, lastStatusAt := Some(at), nextRetryAt := None)]
    {
      paused := id in tasks && Pausable(tasks[id]);
      if paused {
        tasks := tasks[id := PausedRow(tasks[id], at)];
      }
    }

    /** The bulk cancellation shared by destination changes and folder deletion: two statements in one transaction. */
    method CancelFolderTasks(folders: set<nat>, now: Time)
      modifies this`tasks
      ensures State() == Apply(old(State()), CancelFolders(folders, now), 0)
    {
      ghost var before := tasks;
      tasks := map id | id in tasks :: FlagRunning(tasks[id], folders, now);
      tasks := map id | id in tasks :: CancelQueued(tasks[id], folders, now);
      forall id | id in before ensures tasks[id] == RowAfter(id, before[id], CancelFolders(folders, now), None, 0) {
        BothStatements(before[id], folders, now);
      }
    }

    /** Every requested identifier is either removed or reported with the reason it was not. */
    method DeleteMany(ids: seq<Id>, now: Time) returns (failed: map<Id, RowError>)
      modifies this`tasks
      ensures State() == Apply(old(State()), Delete((set id | id in ids), now), 0)
      ensures forall id :: id in failed <==> id in ids && (id !in old(tasks) || old(tasks)[id].status == Running)
      ensures forall id | id in failed :: failed[id] == if id in old(tasks) then Conflict else NotFound
      ensures forall id | id in ids && id !in failed :: id in old(tasks) && id !in tasks
    {
      var deletable;
      failed, deletable := ClassifyForDelete(tasks, ids);
      tasks := map id | id in tasks && !(id in deletable && tasks[id].status != Running) :: tasks[id];
    }

    /** Insert one task unless its key is present: the unique index decides. */
    method CreateIfAbsent(n: NewTask, now: Time) returns (created: bool)
      requires Valid()
      modifies this`tasks, this`nextId
      ensures Valid() && State() == Created(old(State()), n) == Apply(old(State()), Create(n, now), 0)
      ensures created <==> !HasKey(old(tasks), n.key)
      ensures HasKey(tasks, n.key)
      ensures created ==> old(nextId) !in old(tasks) && tasks == old(tasks)[old(nextId) := FreshTask(n)]
      ensures created ==> var t := tasks[old(nextId)];
        && IsAnew(t, t) && t.fileId == n.fileId && t.folder == n.folder && t.fingerprint == n.fingerprint
        && t.remoteName == n.remoteName && t.remotePath == n.remotePath && t.key == n.key && t.priority == n.priority
      ensures !created ==> tasks == old(tasks)
    {
      created := !HasKey(tasks, n.key);
      if created {
        tasks := tasks[nextId := FreshTask(n)];
        assert tasks[nextId].key == n.key;
        nextId := nextId + 1;
      }
    }

    /** Insert every task whose key is not yet present; the unique index decides, row by row. */
    method CreateManyIfAbsent(news: seq<NewTask>, now: Time) returns (inserted: nat)
      requires Valid()
      modifies this`tasks, this`nextId
      ensures Valid()
      ensures State() == CreateAll(old(State()), news)
      ensures Extends(old(tasks), tasks, news)
      ensures forall n | n in news :: HasKey(tasks, n.key)
      ensures inserted == |tasks| - |old(tasks)| && inserted <= |news|
    {
      inserted := 0;
      for i := 0 to |news|
        invariant Valid()
        invariant State() == CreateAll(old(State()), news[..i])
        invariant |tasks| == |old(tasks)| + inserted && inserted <= i
      {
        var created := CreateIfAbsent(news[i], now);
        inserted := inserted + if created then 1 else 0;
        assert news[..i + 1][..i] == news[..i];
      }
      assert news[..|news|] == news;
      CreateAllExtends(old(State()), news);
    }
  }

  /** The insertions one after the other. */
  function CreateAll(db: Db, news: seq<NewTask>): Db {
    if news == [] then db else Created(CreateAll(db, news[..|news| - 1]), news[|news| - 1])
  }

  /** Old rows are untouched; every new row is a fresh task of `news` whose key was absent. */
  ghost predicate Extends(before: Table, after: Table, news: seq<NewTask>) {
    && before.Keys <= after.Keys
    && (forall id | id in before :: after[id] == before[id])
    && forall id | id in after && id !in before :: !HasKey(before, after[id].key) && IsFresh(after[id], news)
  }

  ghost predicate IsFresh(t: Task, news: seq<NewTask>) {
    exists n | n in news :: t == FreshTask(n)
  }

  ghost predicate Bounded(db: Db) {
    forall id | id in db.tasks :: id < db.nextId
  }

  ghost predicate UniqueKeys(tasks: Table) {
    forall a, b | a in tasks && b in tasks && tasks[a].key == tasks[b].key :: a == b
  }

  /** Insert-if-absent: nothing old changes, every key is present afterwards, and keys stay unique. */
  lemma {:induction false} CreateAllExtends(db: Db, news: seq<NewTask>)
    requires Bounded(db)
    ensures var after := CreateAll(db, news);
      && Bounded(after) && Extends(db.tasks, after.tasks, news)
      && (forall n | n in news :: HasKey(after.tasks, n.key))
      && (UniqueKeys(db.tasks) ==> UniqueKeys(after.tasks))
  {
    if news != [] {
      var init, last := news[..|news| - 1], news[|news| - 1];
      CreateAllExtends(db, init);
      assert news == init + [last];
      CreatedExtends(db.tasks, CreateAll(db, init), init, last);
    }
  }

  lemma CreatedExtends(first: Table, mid: Db, news: seq<NewTask>, n: NewTask)
    requires Bounded(mid) && Extends(first, mid.tasks, news)
    ensures var after := Created(mid, n);
      && Bounded(after) && Extends(first, after.tasks, news + [n])
      && HasKey(after.tasks, n.key)
      && (forall key :: HasKey(mid.tasks, key) ==> HasKey(after.tasks, key))
      && (UniqueKeys(mid.tasks) ==> UniqueKeys(after.tasks))
  {
    var after := Created(mid, n);
    assert forall id | id in mid.tasks :: after.tasks[id] == mid.tasks[id];
    forall id | id in mid.tasks && id !in first ensures IsFresh(mid.tasks[id], news + [n]) {
      var m :| m in news && mid.tasks[id] == FreshTask(m);
      assert m in news + [n];
    }
    if !HasKey(mid.tasks, n.key) {
      assert n in news + [n] && after.tasks[mid.nextId] == FreshTask(n);
      forall id | id in first ensures first[id].key != n.key {
        assert mid.tasks[id] == first[id];
      }
    }
  }

  /** What a batch delete does with each requested identifier. */
  method ClassifyForDelete(tasks: Table, ids: seq<Id>) returns (failed: map<Id, RowError>, deletable: set<Id>)
    ensures forall id :: id in failed <==> id in ids && (id !in tasks || tasks[id].status == Running)
    ensures forall id | id in failed :: failed[id] == if id in tasks then Conflict else NotFound
    ensures deletable == set id | id in ids && id in tasks && tasks[id].status != Running
  {
    var found := set id | id in ids && id in tasks;
    failed := map id | id in ids :: NotFound;
    deletable := {};
    var todo := found;
    while todo != {}
      invariant todo <= found
      invariant failed.Keys == (set id | id in ids && (id in found - todo ==> tasks[id].status == Running))
      invariant forall id | id in failed :: failed[id] == if id in found - todo then Conflict else NotFound
      invariant deletable == set id | id in found - todo && tasks[id].status != Running
      decreases todo
    {
      var id :| id in todo;
      todo := todo - {id};
      if tasks[id].status == Running {
        failed := failed[id := Conflict];
      } else {
        failed := failed - {id};
        deletable := deletable + {id};
      }
    }
  }

  function SweptTable(tasks: Table, now: Time, maxAttempts: int): Table {
    map id | id in tasks :: Swept(tasks[id], now, maxAttempts)
  }

  lemma SameCandidates(before: Table, now: Time, maxAttempts: int, locked: set<Id>)
    ensures Candidates(before, now, maxAttempts, locked) ==
      Candidates(SweptTable(before, now, maxAttempts), now, maxAttempts, locked)
  {
    var after := SweptTable(before, now, maxAttempts);
    forall id | id in before ensures Eligible(after[id], now, maxAttempts) <==> Eligible(before[id], now, maxAttempts) {
      SweepsKeepEligibility(before[id], now, maxAttempts);
    }
  }

  lemma NothingClaimed(before: Table, owner: string, lease: Time, now: Time, maxAttempts: int, locked: set<Id>)
    requires Candidates(before, now, maxAttempts, locked) == {}
    ensures Survivors(before, Claim(owner, lease, now, locked), maxAttempts) == before
    ensures forall id | id in before && id !in locked :: !Eligible(before[id], now, maxAttempts)
  {
    forall id | id in before && id !in locked ensures !Eligible(before[id], now, maxAttempts) {
      assert id !in Candidates(before, now, maxAttempts, locked);
    }
  }

  /** The first candidate after the sweeps is the winner of the table before them. */
  lemma ClaimApplied(before: Table, id: Id, owner: string, lease: Time, now: Time, maxAttempts: int, locked: set<Id>)
    requires var swept := SweptTable(before, now, maxAttempts);
      IsFirst(swept, Candidates(swept, now, maxAttempts, locked), id)
    ensures var swept := SweptTable(before, now, maxAttempts);
      && Winner(before, now, maxAttempts, locked) == Some(id)
      && id in before && swept[id] == before[id]
      && IsFirst(before, Candidates(before, now, maxAttempts, locked), id)
      && Survivors(before, Claim(owner, lease, now, locked), maxAttempts) ==
        swept[id := Claimed(before[id], owner, lease, now)]
  {
    SameCandidates(before, now, maxAttempts, locked);
    var ids := Candidates(before, now, maxAttempts, locked);
    var swept := SweptTable(before, now, maxAttempts);
    forall a, b | a in before && b in before ensures Before(before, a, b) <==> Before(swept, a, b) {
      SweepKeepsPriority(before[a], now, maxAttempts);
      SweepKeepsPriority(before[b], now, maxAttempts);
    }
    SweepsKeepEligibility(before[id], now, maxAttempts);
    FirstIsUnique(before, ids, id, Winner(before, now, maxAttempts, locked).value);
  }

  /** No row that could be claimed has a higher priority, and none of the same priority a lower identifier. */
  lemma FirstMeans(tasks: Table, now: Time, maxAttempts: int, locked: set<Id>, id: Id)
    requires IsFirst(tasks, Candidates(tasks, now, maxAttempts, locked), id)
    ensures forall j | j in tasks && j !in locked && Eligible(tasks[j], now, maxAttempts) ::
      || tasks[j].priority < tasks[id].priority
      || (tasks[j].priority == tasks[id].priority && id <= j)
  {
    forall j | j in tasks && j !in locked && Eligible(tasks[j], now, maxAttempts)
      ensures tasks[j].priority < tasks[id].priority || (tasks[j].priority == tasks[id].priority && id <= j)
    {
      assert Before(tasks, id, j);
    }
  }

  lemma SweepKeepsPriority(t: Task, now: Time, maxAttempts: int)
    ensures Swept(t, now, maxAttempts).priority == t.priority
  {}

  function FlagRunning(t: Task, folders: set<nat>, now: Time): Task {
    if t.folder in folders && t.status == Running then t.(cancelRequestedAt := Some(now), lastStatusAt := Some(now))
      else t
  }

  function CancelQueued(t: Task, folders: set<nat>, now: Time): Task {
    if t.folder in folders && Queued(t) then CanceledInQueue(t, now) else t
  }

  lemma BothStatements(t: Task, folders: set<nat>, now: Time)
    ensures CancelQueued(FlagRunning(t, folders, now), folders, now) == if t.folder in folders then
      FolderCanceled(t, now) else t
  {}
}
