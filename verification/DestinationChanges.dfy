/**
 * What a destination change or the deletion of a folder means for the marks of its files, whatever workers, scanners
 * and users do afterwards; and which task an attempt works for.
 */
module DestinationChanges {
  import opened Wrappers
  import opened TaskTable
  import P = TaskProtocol
  import E = TaskEffects
  import U = UploadMarks

  /** Step `k` of the run sets the mark of file `f`: an attempt on it makes its task's transition to success. */
  ghost predicate MarksAt(s: U.State, steps: seq<U.Step>, k: nat, f: nat, maxAttempts: int)
    requires k < |steps|
  {
    var mid := U.Run(s, steps[..k], maxAttempts);
    steps[k].FinishSuccess? && var a := steps[k].attempt;
      && a in mid.attempts && mid.attempts[a].fileId == f && mid.attempts[a].phase == U.Verified
      && U.Transitions(mid.db, mid.attempts[a])
  }

  /** The task whose success step `k` is. */
  ghost function TaskAt(s: U.State, steps: seq<U.Step>, k: nat, f: nat, maxAttempts: int): Id
    requires k < |steps| && MarksAt(s, steps, k, f, maxAttempts)
  {
    U.Run(s, steps[..k], maxAttempts).attempts[steps[k].attempt].task
  }

  lemma OneStepMarks(s: U.State, step: U.Step, f: nat, maxAttempts: int)
    requires f in s.files
    ensures f in U.Next(s, step, maxAttempts).files
    ensures U.Next(s, step, maxAttempts).files[f].uploadedAt.Some? ==>
      s.files[f].uploadedAt.Some? || MarksAt(s, [step], 0, f, maxAttempts)
  {
    assert [step][..0] == [];
  }

  /** A mark on a file that had none was set by some step of the run. */
  lemma {:induction false} MarkWasSet(s: U.State, steps: seq<U.Step>, f: nat, maxAttempts: int) returns (k: nat)
    requires f in s.files && s.files[f].uploadedAt.None?
    ensures f in U.Run(s, steps, maxAttempts).files
    ensures U.Run(s, steps, maxAttempts).files[f].uploadedAt.Some? ==>
      k < |steps| && MarksAt(s, steps, k, f, maxAttempts)
  {
    k := 0;
    if steps != [] {
      var n := |steps| - 1;
      k := MarkWasSet(s, steps[..n], f, maxAttempts);
      var mid := U.Run(s, steps[..n], maxAttempts);
      OneStepMarks(mid, steps[n], f, maxAttempts);
      if mid.files[f].uploadedAt.Some? {
        assert steps[..n][..k] == steps[..k];
      } else {
        k := n;
        assert [steps[n]][..0] == [];
      }
    }
  }

  lemma ResetComesFrom(s: U.State, step: U.Step, op: Op)
    requires U.QueueOp(s, step) == Some(op) && op.Reset?
    ensures step == U.Queue(op)
  {}

  /** A reset in the queue underneath is a reset of the run. */
  lemma {:induction false} ResetIsAStep(s: U.State, steps: seq<U.Step>, maxAttempts: int, op: Op)
    requires op in U.QueueOps(s, steps, maxAttempts) && op.Reset?
    ensures U.Queue(op) in steps
  {
    var n := |steps| - 1;
    if op in U.QueueOps(s, steps[..n], maxAttempts) {
      ResetIsAStep(s, steps[..n], maxAttempts, op);
    } else {
      ResetComesFrom(U.Run(s, steps[..n], maxAttempts), steps[n], op);
    }
  }

  ghost predicate IsReset(steps: seq<U.Step>, k: nat, id: Id)
    requires k <= |steps|
  {
    exists step | step in steps[..k] :: step.Queue? && step.op.Reset? && step.op.id == id
  }

  /** Once its folder's tasks are canceled, a task of the table cannot succeed unless it is reset. */
  lemma OldTaskCannotSucceed(
      s: U.State, folders: set<nat>, now: Time, steps: seq<U.Step>, maxAttempts: int, at: U.Attempt)
    requires maxAttempts >= 1 && P.TableInv(s.db, maxAttempts)
    requires at.task in s.db.tasks && s.db.tasks[at.task].folder in folders && !IsReset(steps, |steps|, at.task)
    ensures var changed := U.Next(s, U.ChangeDestination(folders, now), maxAttempts);
      !U.Transitions(U.Run(changed, steps, maxAttempts).db, at)
  {
    var changed := U.Next(s, U.ChangeDestination(folders, now), maxAttempts);
    U.RunProjects(changed, steps, maxAttempts);
    ChangeCancels(s, folders, now, maxAttempts);
    NoReset(changed, steps, maxAttempts, at.task);
    CanceledCannotSucceed(s.db, folders, now, U.QueueOps(changed, steps, maxAttempts), maxAttempts, at);
  }

  lemma ChangeCancels(s: U.State, folders: set<nat>, now: Time, maxAttempts: int)
    ensures U.Next(s, U.ChangeDestination(folders, now), maxAttempts).db
      == Apply(s.db, CancelFolders(folders, now), maxAttempts)
  {}

  lemma NoReset(s: U.State, steps: seq<U.Step>, maxAttempts: int, id: Id)
    requires !IsReset(steps, |steps|, id)
    ensures forall op | op in U.QueueOps(s, steps, maxAttempts) :: !(op.Reset? && op.id == id)
  {
    assert steps[..|steps|] == steps;
    forall op | op in U.QueueOps(s, steps, maxAttempts) && op.Reset? ensures op.id != id {
      ResetIsAStep(s, steps, maxAttempts, op);
    }
  }

  lemma CanceledCannotSucceed(
      db: Db, folders: set<nat>, now: Time, ops: seq<Op>, maxAttempts: int, at: U.Attempt)
    requires maxAttempts >= 1 && P.TableInv(db, maxAttempts) && P.ValidOps(ops)
    requires at.task in db.tasks && db.tasks[at.task].folder in folders
    requires forall op | op in ops :: !(op.Reset? && op.id == at.task)
    ensures !U.Transitions(P.Run(Apply(db, CancelFolders(folders, now), maxAttempts), ops, maxAttempts), at)
  {
    if db.tasks[at.task].status == Success {
      P.ApplyKeepsInv(db, CancelFolders(folders, now), maxAttempts);
      RowOf(db, CancelFolders(folders, now), maxAttempts, at.task);
      P.SuccessIsAbsorbing(Apply(db, CancelFolders(folders, now), maxAttempts), ops, maxAttempts, at.task);
    } else {
      P.NoSuccessAfterFolderCancellation(db, folders, now, ops, maxAttempts, at.task);
    }
  }

  /**
   * A destination change takes the marks of the folders' files, and whatever happens afterwards, such a file is marked
   * again only by the success of a task that is new, belongs to another folder, or was reset after the change.
   */
  lemma DestinationChangeIsHonoured(
      s: U.State, folders: set<nat>, now: Time, steps: seq<U.Step>, maxAttempts: int, f: nat) returns (k: nat)
    requires maxAttempts >= 1 && P.TableInv(s.db, maxAttempts) && f in s.files && s.files[f].folder in folders
    ensures var changed := U.Next(s, U.ChangeDestination(folders, now), maxAttempts);
      && f in changed.files && changed.files[f].uploadedAt.None? && f in U.Run(changed, steps, maxAttempts).files
      && (U.Run(changed, steps, maxAttempts).files[f].uploadedAt.Some? ==>
        && k < |steps| && MarksAt(changed, steps, k, f, maxAttempts)
        && var id := TaskAt(changed, steps, k, f, maxAttempts);
           id in s.db.tasks ==> s.db.tasks[id].folder !in folders || IsReset(steps, k, id))
  {
    var changed := U.Next(s, U.ChangeDestination(folders, now), maxAttempts);
    k := MarkWasSet(changed, steps, f, maxAttempts);
    if U.Run(changed, steps, maxAttempts).files[f].uploadedAt.Some? {
      var mid := U.Run(changed, steps[..k], maxAttempts);
      var at := mid.attempts[steps[k].attempt];
      if at.task in s.db.tasks && s.db.tasks[at.task].folder in folders && !IsReset(steps, k, at.task) {
        assert steps[..k][..k] == steps[..k];
        OldTaskCannotSucceed(s, folders, now, steps[..k], maxAttempts, at);
      }
    }
  }

  /** Deleting a folder leaves its files and their marks to whoever takes them over, and ends its unfinished tasks. */
  lemma DeletionReleasesFiles(s: U.State, folder: nat, now: Time, maxAttempts: int, f: nat)
    requires f in s.files
    ensures var after := U.Next(s, U.DeleteFolder(folder, now), maxAttempts);
      && f in after.files && after.files[f].version == s.files[f].version && after.files[f].path == s.files[f].path
      && after.files[f].uploadedAt == s.files[f].uploadedAt && (folder != 0 ==> after.files[f].folder != folder)
      && (s.files[f].folder != folder ==> after.files[f] == s.files[f])
      && after.db == Apply(s.db, CancelFolders({folder}, now), maxAttempts)
  {}

  // ---- what the log says was so

  /** When event `i` was logged, after `k` steps, the file on disk had that fingerprint. */
  ghost predicate TrueAt(s: U.State, steps: seq<U.Step>, k: nat, maxAttempts: int, i: nat, path: string, fp: string)
    requires k <= |steps|
  {
    var mid := U.Run(s, steps[..k], maxAttempts);
    |mid.log| == i && path in mid.disk && mid.disk[path] == fp
  }

  lemma OneStepLogs(s: U.State, step: U.Step, maxAttempts: int)
    ensures var log := U.Next(s, step, maxAttempts).log;
      && s.log <= log && |log| <= |s.log| + 1
      && (|log| > |s.log| && log[|s.log|].Matched? ==>
            log[|s.log|].path in s.disk && s.disk[log[|s.log|].path] == log[|s.log|].fingerprint)
  {}

  /** A logged match was one: the file was on disk with that fingerprint at that moment. */
  lemma {:induction false} MatchesAreTrue(s: U.State, steps: seq<U.Step>, maxAttempts: int, i: nat) returns (k: nat)
    requires |s.log| <= i < |U.Run(s, steps, maxAttempts).log| && U.Run(s, steps, maxAttempts).log[i].Matched?
    ensures var e := U.Run(s, steps, maxAttempts).log[i];
      k < |steps| && TrueAt(s, steps, k, maxAttempts, i, e.path, e.fingerprint)
  {
    k := 0;
    if steps != [] {
      var n := |steps| - 1;
      var mid := U.Run(s, steps[..n], maxAttempts);
      OneStepLogs(mid, steps[n], maxAttempts);
      if i < |mid.log| {
        k := MatchesAreTrue(s, steps[..n], maxAttempts, i);
        assert steps[..n][..k] == steps[..k];
      } else {
        k := n;
      }
    }
  }

  // ---- attempts and their tasks

  /** The attempt is at the version and target its task names, for the file and folder of the task. */
  predicate Follows(at: U.Attempt, t: Task) {
    && at.fileId == t.fileId && at.folder == t.folder && at.version.fingerprint == t.fingerprint
    && at.version.remoteName == t.remoteName
  }

  ghost predicate AllFollow(db: Db, attempts: map<nat, U.Attempt>) {
    forall a | a in attempts ::
      && attempts[a].task < db.nextId
      && (attempts[a].task in db.tasks ==> Follows(attempts[a], db.tasks[attempts[a].task]))
  }

  lemma QueueKeepsFollowing(db: Db, attempts: map<nat, U.Attempt>, op: Op, maxAttempts: int)
    requires maxAttempts >= 1 && P.TableInv(db, maxAttempts) && AllFollow(db, attempts)
    ensures AllFollow(Apply(db, op, maxAttempts), attempts)
  {
    var after := Apply(db, op, maxAttempts);
    forall a | a in attempts && attempts[a].task in after.tasks
      ensures Follows(attempts[a], after.tasks[attempts[a].task])
    {
      E.JobKept(db, op, maxAttempts, attempts[a].task);
    }
  }

  /** The attempts after a step: a claim may add one, the others at most enter another phase. */
  lemma StepKeepsFollowing(s: U.State, step: U.Step, maxAttempts: int)
    requires maxAttempts >= 1 && P.TableInv(s.db, maxAttempts) && AllFollow(s.db, s.attempts)
    ensures AllFollow(U.Next(s, step, maxAttempts).db, U.Next(s, step, maxAttempts).attempts)
  {
    var s' := U.Next(s, step, maxAttempts);
    if U.Enabled(s, step, maxAttempts) {
      if U.QueueOp(s, step).Some? {
        QueueKeepsFollowing(s.db, s.attempts, U.QueueOp(s, step).value, maxAttempts);
      }
      U.StepProjects(s, step, maxAttempts);
      if step.Claim? {
        ClaimFollows(s, step, maxAttempts);
      } else {
        OthersKeepAttempts(s, step, maxAttempts);
      }
    }
  }

  lemma OthersKeepAttempts(s: U.State, step: U.Step, maxAttempts: int)
    requires !step.Claim?
    ensures var s' := U.Next(s, step, maxAttempts);
      && s'.attempts.Keys == s.attempts.Keys
      && forall a | a in s.attempts :: s'.attempts[a] == s.attempts[a].(phase := s'.attempts[a].phase)
  {
    if U.OfAttempt(step) {
      WorkMovesOne(s, step, maxAttempts);
    } else {
      RestKeepsAttempts(s, step, maxAttempts);
    }
  }

  lemma RestKeepsAttempts(s: U.State, step: U.Step, maxAttempts: int)
    requires !step.Claim? && !U.OfAttempt(step)
    ensures U.Next(s, step, maxAttempts).attempts == s.attempts
  {}

  /** The step's own attempt enters another phase. */
  lemma WorkMovesOne(s: U.State, step: U.Step, maxAttempts: int)
    requires U.OfAttempt(step)
    ensures var s' := U.Next(s, step, maxAttempts);
      s'.attempts == s.attempts ||
        (step.attempt in s.attempts && exists phase ::
          s'.attempts == s.attempts[step.attempt := s.attempts[step.attempt].(phase := phase)])
  {
    if U.Enabled(s, step, maxAttempts) {
      var s' := U.Next(s, step, maxAttempts);
      var phase := s'.attempts[step.attempt].phase;
      assert s'.attempts == s.attempts[step.attempt := s.attempts[step.attempt].(phase := phase)];
    }
  }

  lemma ClaimFollows(s: U.State, step: U.Step, maxAttempts: int)
    requires maxAttempts >= 1 && P.TableInv(s.db, maxAttempts) && step.Claim? && U.Enabled(s, step, maxAttempts)
    ensures var s', a := U.Next(s, step, maxAttempts), step.attempt;
      && (forall b | b in s'.attempts && b != a :: b in s.attempts && s'.attempts[b] == s.attempts[b])
      && (a in s'.attempts ==> var at := s'.attempts[a];
        && Winner(s.db.tasks, step.now, maxAttempts, step.locked) == Some(at.task) && at.owner == step.owner
        && at.task in s.db.tasks && Follows(at, s.db.tasks[at.task]) && at.version.remotePath == step.remotePath
        && at.task < s'.db.nextId && at.task in s'.db.tasks && Follows(at, s'.db.tasks[at.task]))
  {
    var op := Claim(step.owner, step.lease, step.now, step.locked);
    P.WinnerIsEligible(s.db.tasks, op, maxAttempts);
    var w := Winner(s.db.tasks, step.now, maxAttempts, step.locked);
    if w.Some? {
      RowOf(s.db, op, maxAttempts, w.value);
    }
  }

  /**
   * In every run an attempt works at the fingerprint and remote its task names, for the task's file and folder, as long
   * as the task exists.
   */
  lemma {:induction false} AttemptsFollowTasks(s: U.State, steps: seq<U.Step>, maxAttempts: int)
    requires maxAttempts >= 1 && P.TableInv(s.db, maxAttempts) && AllFollow(s.db, s.attempts)
    ensures var end := U.Run(s, steps, maxAttempts);
      P.TableInv(end.db, maxAttempts) && AllFollow(end.db, end.attempts)
  {
    if steps != [] {
      var n := |steps| - 1;
      AttemptsFollowTasks(s, steps[..n], maxAttempts);
      StepKeepsFollowing(U.Run(s, steps[..n], maxAttempts), steps[n], maxAttempts);
      StepKeepsInv(U.Run(s, steps[..n], maxAttempts), steps[n], maxAttempts);
    }
  }

  lemma StepKeepsInv(s: U.State, step: U.Step, maxAttempts: int)
    requires maxAttempts >= 1 && P.TableInv(s.db, maxAttempts)
    ensures P.TableInv(U.Next(s, step, maxAttempts).db, maxAttempts)
  {
    U.StepProjects(s, step, maxAttempts);
    if U.Enabled(s, step, maxAttempts) && U.QueueOp(s, step).Some? {
      P.ApplyKeepsInv(s.db, U.QueueOp(s, step).value, maxAttempts);
    }
  }
}
