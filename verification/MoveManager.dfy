/**
 * The in-memory manager of asynchronous batch moves.  Every method is one critical section; `retention` is how long a
 * finished operation stays visible.
 */
module MoveManager {
  import opened Wrappers
  import opened MoveExecution
  import RemoteStore
  import BatchMove

  type Time = int

  datatype Status = Queued | Running | Succeeded | Broken

  datatype Stage = InQueue | At(phase: Phase) | GaveUp

  datatype Operation = Operation(
    id: string, routeId: nat, status: Status, stage: Stage, total: nat, processed: nat, percent: nat,
      currentPath: string,
    moved: seq<Moved>, failed: seq<Failure>, createdAt: Time, startedAt: Option<Time>, finishedAt: Option<Time>)

  type Operations = map<string, Operation>

  type Active = map<nat, string>

  datatype ManagerError = Validation | Conflict | NotFound

  predicate Unfinished(op: Operation) {
    op.finishedAt.None?
  }

  // ---- percentages

  /** `remoteMovePercent`. */
  function Percent(processed: int, total: int): (p: nat)
    ensures p <= 100
  {
    if total <= 0 then 0
    else
      var percent := processed * 100 / total;
      if percent < 0 then 0 else if percent > 100 then 100 else percent
  }

  lemma QuotientBounds(x: int, d: nat)
    requires d > 0
    ensures (x / d) * d <= x < (x / d) * d + d
  {}

  lemma TimesIsMonotone(a: int, b: int, d: nat)
    requires a <= b
    ensures a * d <= b * d
  {}

  lemma QuotientIsMonotone(x: int, y: int, d: nat)
    requires x <= y && d > 0
    ensures x / d <= y / d
  {
    var q, r := x / d, y / d;
    QuotientBounds(x, d);
    QuotientBounds(y, d);
    assert (r + 1) * d == r * d + d;
    if r + 1 <= q {
      TimesIsMonotone(r + 1, q, d);
      assert false;
    }
  }

  lemma HundredTotals(total: nat)
    requires total > 0
    ensures total * 100 / total == 100 && (total * 100 - 1) / total < 100
  {
    QuotientBounds(total * 100 - 1, total);
    var q := (total * 100 - 1) / total;
    if q >= 100 {
      TimesIsMonotone(100, q, total);
      assert false;
    }
  }

  lemma PercentIsMonotone(a: int, b: int, total: int)
    requires a <= b
    ensures Percent(a, total) <= Percent(b, total)
  {
    if total > 0 {
      QuotientIsMonotone(a * 100, b * 100, total);
    }
  }

  /** Full exactly when everything is processed. */
  lemma PercentIsFullExactlyWhen(processed: int, total: int)
    requires total > 0
    ensures Percent(processed, total) == 100 <==> processed >= total
  {
    HundredTotals(total);
    if processed >= total {
      QuotientIsMonotone(total * 100, processed * 100, total);
    } else {
      QuotientIsMonotone(processed * 100, total * 100 - 1, total);
    }
  }

  /** Otherwise it is the processed share of the total in whole percent, rounded down. */
  lemma PercentIsTheShare(processed: int, total: int)
    requires 0 <= processed <= total && total > 0
    ensures Percent(processed, total) * total <= processed * 100 < (Percent(processed, total) + 1) * total
    ensures Percent(processed, 0) == 0
  {
    QuotientBounds(processed * 100, total);
    PercentIsMonotone(processed, total, total);
    HundredTotals(total);
    PercentIsMonotone(0, processed, total);
    QuotientIsMonotone(0, processed * 100, total);
    QuotientIsMonotone(processed * 100, total * 100, total);
    var q := processed * 100 / total;
    assert q == Percent(processed, total);
    assert (q + 1) * total == q * total + total;
  }

  // ---- the invariant

  ghost predicate WellKept(id: string, op: Operation) {
    && id != "" && op.id == id && op.percent <= 100
    && (op.finishedAt.Some? <==> op.status == Succeeded || op.status == Broken)
    && (op.status == Succeeded ==> op.percent == 100)
    && (Unfinished(op) ==> op.percent == Percent(op.processed, op.total))
  }

  /** `activeByRoute` maps a route to exactly its unfinished operation, of which there is at most one. */
  ghost predicate Consistent(operations: Operations, active: Active) {
    && (forall id | id in operations :: WellKept(id, operations[id]))
    && (forall route | route in active ::
          active[route] in operations && operations[active[route]].routeId == route
            && Unfinished(operations[active[route]]))
    && (forall id | id in operations && Unfinished(operations[id]) ::
          operations[id].routeId in active && active[operations[id].routeId] == id)
  }

  lemma OneUnfinishedPerRoute(operations: Operations, active: Active, a: string, b: string)
    requires Consistent(operations, active) && a in operations && b in operations
    requires Unfinished(operations[a]) && Unfinished(operations[b]) && operations[a].routeId == operations[b].routeId
    ensures a == b
  {}

  // ---- the manager

  function Kept(operations: Operations, now: Time, retention: Time): Operations {
    map id | id in operations
      && !(operations[id].finishedAt.Some? && now - operations[id].finishedAt.value > retention) :: operations[id]
  }

  /** What finished longer ago than the retention is gone, everything else is as it was. */
  predicate OnlyExpiredGone(before: Operations, after: Operations, now: Time, retention: Time) {
    && (forall id | id in after :: id in before && after[id] == before[id])
    && (forall id | id in before ::
      id !in after <==> before[id].finishedAt.Some? && before[id].finishedAt.value + retention < now)
  }

  // ---- the critical sections as steps

  datatype State = State(operations: Operations, active: Active)

  datatype Step =
    | StartOp(routeId: nat, count: nat, id: string, now: Time)
    | Poll(now: Time)
    | BeginOp(id: string, now: Time)
    | ReportOp(id: string, event: Event)
    | FinishOp(id: string, ok: bool, moved: seq<Moved>, failed: seq<Failure>, now: Time)

  function NewOperation(id: string, routeId: nat, count: nat, now: Time): Operation {
    Operation(id, routeId, Queued, InQueue, count, 0, 0, "", [], [], now, None, None)
  }

  function Begun(op: Operation, now: Time): Operation {
    op.(status := Running, stage := At(Preparing), startedAt := Some(now))
  }

  function Advanced(op: Operation, e: Event): Operation {
    op.(stage := At(e.phase), total := e.total, processed := e.processed, currentPath := e.currentPath,
      percent := Percent(e.processed, e.total))
  }

  function Ended(op: Operation, ok: bool, moved: seq<Moved>, failed: seq<Failure>, now: Time): Operation {
    var done := op.(moved := moved, failed := failed, processed := |moved| + |failed|, currentPath := "",
      finishedAt := Some(now));
    if ok then done.(status := Succeeded, stage := At(Completed), percent := 100)
      else done.(status := Broken, stage := GaveUp)
  }

  function Next(s: State, step: Step, retention: Time): State {
    match step
    case StartOp(routeId, count, id, now) =>
      var kept := Kept(s.operations, now, retention);
      if routeId in s.active then State(kept, s.active)
      else State(kept[id := NewOperation(id, routeId, count, now)], s.active[routeId := id])
    case Poll(now) => State(Kept(s.operations, now, retention), s.active)
    case BeginOp(id, now) => if id in s.operations then
      s.(operations := s.operations[id := Begun(s.operations[id], now)]) else s
    case ReportOp(id, e) => if id in s.operations then
      s.(operations := s.operations[id := Advanced(s.operations[id], e)]) else s
    case FinishOp(id, ok, moved, failed, now) =>
      if id in s.operations then
        var op := s.operations[id];
        State(s.operations[id := Ended(op, ok, moved, failed, now)],
              if Lookup(s.active, op.routeId) == Some(id) then s.active - {op.routeId} else s.active)
      else s
  }

  function Lookup(active: Active, routeId: nat): Option<string> {
    if routeId in active then Some(active[routeId]) else None
  }

  /** A step that fits the operation it is about; the workers below are shown to take no other. */
  predicate Disciplined(s: State, step: Step) {
    match step
    case StartOp(_, _, id, _) => id != "" && id !in s.operations
    case Poll(_) => true
    case BeginOp(id, _) => id in s.operations ==> s.operations[id].status == Queued
    case ReportOp(id, e) => id in s.operations ==>
      var op := s.operations[id]; op.status == Running && e.total == op.total && op.processed <= e.processed
    case FinishOp(id, ok, moved, failed, _) => id in s.operations ==>
      var op := s.operations[id];
        op.status == Running && op.processed <= |moved| + |failed| && (ok ==> |moved| + |failed| == op.total)
  }

  /** What a client polling an operation can see between two of its states. */
  predicate Forward(a: Operation, b: Operation) {
    a.id == b.id && a.routeId == b.routeId && a.total == b.total && a.processed <= b.processed && a.percent <= b.percent
  }

  ghost predicate Good(s: State) {
    Consistent(s.operations, s.active) && forall id | id in s.operations :: Complete(s.operations[id])
  }

  /** A successful operation has processed everything. */
  predicate Complete(op: Operation) {
    op.status == Succeeded ==> op.processed == op.total && op.percent == 100
  }

  lemma CleanupKeepsGood(s: State, now: Time, retention: Time)
    requires Good(s)
    ensures Good(State(Kept(s.operations, now, retention), s.active))
  {
    var kept := Kept(s.operations, now, retention);
    forall route | route in s.active ensures s.active[route] in kept {
      assert Unfinished(s.operations[s.active[route]]);
    }
  }

  lemma StartKeepsGood(s: State, routeId: nat, count: nat, id: string, now: Time)
    requires Good(s) && routeId !in s.active && id != "" && id !in s.operations
    ensures Good(State(s.operations[id := NewOperation(id, routeId, count, now)], s.active[routeId := id]))
  {
    var after := s.operations[id := NewOperation(id, routeId, count, now)];
    assert forall other | other in s.operations :: after[other] == s.operations[other];
  }

  /** An unfinished operation that stays unfinished on its route. */
  lemma ChangeKeepsGood(s: State, id: string, op: Operation)
    requires Good(s) && id in s.operations && Unfinished(s.operations[id])
    requires WellKept(id, op) && Complete(op) && Unfinished(op) && op.routeId == s.operations[id].routeId
    ensures Good(s.(operations := s.operations[id := op]))
  {
    var after := s.operations[id := op];
    assert forall other | other in s.operations && other != id :: after[other] == s.operations[other];
  }

  lemma FinishKeepsGood(s: State, id: string, op: Operation)
    requires Good(s) && id in s.operations && Unfinished(s.operations[id])
    requires WellKept(id, op) && Complete(op) && !Unfinished(op) && op.routeId == s.operations[id].routeId
    ensures Lookup(s.active, op.routeId) == Some(id) && Good(State(s.operations[id := op], s.active - {op.routeId}))
  {
    var after := s.operations[id := op];
    assert forall other | other in s.operations && other != id :: after[other] == s.operations[other];
  }

  lemma StepKeepsGood(s: State, step: Step, retention: Time)
    requires Good(s) && Disciplined(s, step)
    ensures Good(Next(s, step, retention))
  {
    match step
    case StartOp(routeId, count, id, now) =>
      CleanupKeepsGood(s, now, retention);
      if routeId !in s.active {
        StartKeepsGood(State(Kept(s.operations, now, retention), s.active), routeId, count, id, now);
      }
    case Poll(now) => CleanupKeepsGood(s, now, retention);
    case BeginOp(id, now) =>
      if id in s.operations {
        ChangeKeepsGood(s, id, Begun(s.operations[id], now));
      }
    case ReportOp(id, e) =>
      if id in s.operations {
        ChangeKeepsGood(s, id, Advanced(s.operations[id], e));
      }
    case FinishOp(id, ok, moved, failed, now) =>
      if id in s.operations {
        FinishKeepsGood(s, id, Ended(s.operations[id], ok, moved, failed, now));
      }
  }

  lemma StepIsForward(s: State, step: Step, retention: Time, id: string)
    requires Good(s) && Disciplined(s, step) && id in s.operations
    ensures var after := Next(s, step, retention).operations;
      && (id in after ==>
        Forward(s.operations[id], after[id]) && (!Unfinished(s.operations[id]) ==> after[id] == s.operations[id]))
      && (Unfinished(s.operations[id]) ==> id in after)
  {
    if step.ReportOp? && step.id == id {
      PercentIsMonotone(s.operations[id].processed, step.event.processed, step.event.total);
    }
  }

  // ---- every interleaving of clients and workers

  /** What one batch will report and return, whatever that turns out to be. */
  datatype Script = Script(events: seq<Event>, ok: bool, moved: seq<Moved>, failed: seq<Failure>)

  /** The contract of a batch of `total` files: `Batch` below establishes it. */
  predicate ScriptOk(script: Script, total: nat) {
    && Rising(script.events, total, |script.moved| + |script.failed|)
    && (script.ok ==> |script.moved| + |script.failed| == total)
  }

  datatype Progress = Waiting | Reporting(next: nat) | Done

  /** The goroutine of one operation and how far it has come. */
  datatype Worker = Worker(script: Script, progress: Progress)

  /** The manager and the workers it has started; identifiers are never used twice. */
  datatype System = System(state: State, workers: map<string, Worker>)

  datatype Action =
    | Submit(routeId: nat, count: nat, id: string, script: Script, now: Time)
    | Look(now: Time)
    | Work(id: string, now: Time)

  predicate Enabled(y: System, m: Action) {
    match m
    case Submit(_, count, id, script, _) =>
      0 < count <= BatchMove.MAX_BATCH && id != "" && id !in y.workers && ScriptOk(script, count)
    case Look(_) => true
    case Work(id, _) => id in y.workers && !y.workers[id].progress.Done?
  }

  /** The critical section a worker enters next: begin, the next report, or the end. */
  function Section(w: Worker, id: string, now: Time): Step
    requires !w.progress.Done?
  {
    match w.progress
    case Waiting => BeginOp(id, now)
    case Reporting(k) =>
      if k < |w.script.events| then ReportOp(id, w.script.events[k])
      else FinishOp(id, w.script.ok, w.script.moved, w.script.failed, now)
  }

  function Advance(w: Worker): Worker
    requires !w.progress.Done?
  {
    match w.progress
    case Waiting => w.(progress := Reporting(0))
    case Reporting(k) => w.(progress := if k < |w.script.events| then Reporting(k + 1) else Done)
  }

  function StepOf(y: System, m: Action): Step
    requires Enabled(y, m)
  {
    match m
    case Submit(routeId, count, id, _, now) => StartOp(routeId, count, id, now)
    case Look(now) => Poll(now)
    case Work(id, now) => Section(y.workers[id], id, now)
  }

  /** A refused submission starts no worker. */
  function Made(y: System, m: Action, retention: Time): System {
    if !Enabled(y, m) then y
    else
      System(Next(y.state, StepOf(y, m), retention),
        match m
        case Submit(routeId, _, id, script, _) =>
          if routeId in y.state.active then y.workers else y.workers[id := Worker(script, Waiting)]
        case Look(_) => y.workers
        case Work(id, _) => y.workers[id := Advance(y.workers[id])])
  }

  function MadeAll(y: System, moves: seq<Action>, retention: Time): System {
    if moves == [] then y else Made(MadeAll(y, moves[..|moves| - 1], retention), moves[|moves| - 1], retention)
  }

  const IDLE := System(State(map[], map[]), map[])

  /** An operation shows what its worker has reported. */
  predicate Linked(op: Operation, w: Worker) {
    && ScriptOk(w.script, op.total)
    && match w.progress
       case Waiting => op.status == Queued && op.processed == 0
       case Reporting(k) =>
         op.status == Running && k <= |w.script.events|
           && op.processed == (if k == 0 then 0 else w.script.events[k - 1].processed)
       case Done => !Unfinished(op)
  }

  ghost predicate Sound(y: System) {
    && Good(y.state)
    && (forall id | id in y.state.operations :: id in y.workers && Linked(y.state.operations[id], y.workers[id]))
    && (forall id | id in y.workers && !y.workers[id].progress.Done? :: id in y.state.operations)
  }

  /** The next report of a rising stream does not go back, and neither does the end. */
  lemma NextIsForward(op: Operation, w: Worker)
    requires Linked(op, w) && w.progress.Reporting?
    ensures var k, events := w.progress.next, w.script.events;
      if k < |events| then events[k].total == op.total && op.processed <= events[k].processed
      else op.processed <= |w.script.moved| + |w.script.failed|
  {
    var k, events, bound := w.progress.next, w.script.events, |w.script.moved| + |w.script.failed|;
    if k < |events| {
      ProgressNeverFalls(events, op.total, bound, if k == 0 then 0 else k - 1, k);
    } else if k > 0 {
      ProgressNeverFalls(events, op.total, bound, k - 1, k - 1);
    }
  }

  /** Whatever a client or a worker does fits the operation it is about. */
  lemma MovesAreDisciplined(y: System, m: Action)
    requires Sound(y) && Enabled(y, m)
    ensures Disciplined(y.state, StepOf(y, m))
  {
    if m.Work? && y.workers[m.id].progress.Reporting? {
      NextIsForward(y.state.operations[m.id], y.workers[m.id]);
    }
  }

  lemma WorkKeepsLinks(y: System, m: Action, retention: Time)
    requires Sound(y) && Enabled(y, m) && m.Work?
    ensures var z := Made(y, m, retention);
      && z.state.operations.Keys == y.state.operations.Keys
      && (forall id | id in z.state.operations :: Linked(z.state.operations[id], z.workers[id]))
  {
    var z := Made(y, m, retention);
    forall id | id in z.state.operations ensures Linked(z.state.operations[id], z.workers[id]) {
      assert Linked(y.state.operations[id], y.workers[id]);
      if id == m.id && y.workers[id].progress.Reporting? {
        NextIsForward(y.state.operations[id], y.workers[id]);
      }
    }
  }

  lemma MadeKeepsSound(y: System, m: Action, retention: Time)
    requires Sound(y)
    ensures Sound(Made(y, m, retention))
  {
    if Enabled(y, m) {
      var z := Made(y, m, retention);
      MovesAreDisciplined(y, m);
      StepKeepsGood(y.state, StepOf(y, m), retention);
      if m.Work? {
        WorkKeepsLinks(y, m, retention);
      } else {
        forall id | id in z.state.operations ensures id in z.workers && Linked(z.state.operations[id], z.workers[id]) {
          assert id in y.state.operations ==> Linked(y.state.operations[id], y.workers[id]);
        }
        forall id | id in z.workers && !z.workers[id].progress.Done? ensures id in z.state.operations {
          if id in y.workers {
            assert Linked(y.state.operations[id], y.workers[id]);
            assert Unfinished(y.state.operations[id]);
          }
        }
      }
    }
  }

  /**
   * In every interleaving of submissions, polls and workers, from an idle manager on: a route has at most one
   * unfinished operation, `activeByRoute` points at exactly that one, percentages stay within 0 and 100, a successful
   * operation has processed everything, and no step is taken that does not fit its operation.
   */
  lemma {:induction false} RunKeepsGood(moves: seq<Action>, retention: Time)
    ensures Sound(MadeAll(IDLE, moves, retention))
  {
    if moves != [] {
      RunKeepsGood(moves[..|moves| - 1], retention);
      MadeKeepsSound(MadeAll(IDLE, moves[..|moves| - 1], retention), moves[|moves| - 1], retention);
    }
  }

  /** One move leaves an operation at least as far as it was; it removes only finished ones. */
  lemma MadeIsForward(y: System, m: Action, retention: Time, id: string)
    requires Sound(y) && id in y.state.operations
    ensures var z := Made(y, m, retention);
      if id in z.state.operations then Forward(y.state.operations[id], z.state.operations[id])
        else FinishedAt(y.state, id)
  {
    if Enabled(y, m) {
      MovesAreDisciplined(y, m);
      StepIsForward(y.state, StepOf(y, m), retention, id);
    }
  }

  /** A removed operation does not come back. */
  lemma GoneStaysGone(y: System, m: Action, retention: Time, id: string)
    requires Sound(y) && id !in y.state.operations && id in y.workers
    ensures id !in Made(y, m, retention).state.operations && id in Made(y, m, retention).workers
  {}

  /** The operation has been started, and if it is still retained it has not gone back from `op`. */
  ghost predicate NotBehind(op: Operation, y: System, id: string) {
    id in y.workers && (id in y.state.operations ==> Forward(op, y.state.operations[id]))
  }

  lemma StaysNotBehind(op: Operation, y: System, m: Action, retention: Time, id: string)
    requires Sound(y) && NotBehind(op, y, id)
    ensures NotBehind(op, Made(y, m, retention), id)
  {
    if id in y.state.operations {
      MadeIsForward(y, m, retention, id);
    } else {
      GoneStaysGone(y, m, retention, id);
    }
  }

  lemma OneMoreMove(before: seq<Action>, after: seq<Action>, retention: Time)
    requires after != []
    ensures var n := |after| - 1;
      MadeAll(IDLE, before + after, retention) ==
        Made(MadeAll(IDLE, before + after[..n], retention), after[n], retention)
  {
    assert (before + after)[..|before + after| - 1] == before + after[..|after| - 1];
  }

  /**
   * From any reachable point on, in every interleaving, an operation's processed count and percentage never decrease.
   */
  lemma {:induction false} RunIsForward(before: seq<Action>, after: seq<Action>, retention: Time, id: string)
    requires id in MadeAll(IDLE, before, retention).state.operations
    ensures NotBehind(MadeAll(IDLE, before, retention).state.operations[id], MadeAll(IDLE, before + after, retention),
      id)
  {
    RunKeepsGood(before, retention);
    if after == [] {
      assert before + after == before;
    } else {
      var n := |after| - 1;
      RunIsForward(before, after[..n], retention, id);
      RunKeepsGood(before + after[..n], retention);
      OneMoreMove(before, after, retention);
      var op, mid := MadeAll(IDLE, before, retention).state.operations[id],
        MadeAll(IDLE, before + after[..n], retention);
      StaysNotBehind(op, mid, after[n], retention, id);
    }
  }

  /** An operation that has disappeared was finished at some moment before. */
  lemma {:induction false} NoneVanishesUnfinished(before: seq<Action>, after: seq<Action>, retention: Time, id: string)
    returns (k: nat)
    requires id in MadeAll(IDLE, before, retention).state.operations
    requires id !in MadeAll(IDLE, before + after, retention).state.operations
    ensures k <= |after| && FinishedAfter(before, after, k, retention, id)
  {
    assert after == [] ==> before + after == before;
    k := |after| - 1;
    OneMoreMove(before, after, retention);
    var mid := MadeAll(IDLE, before + after[..k], retention);
    if id in mid.state.operations {
      RunKeepsGood(before + after[..k], retention);
      MadeIsForward(mid, after[k], retention, id);
    } else {
      var j := NoneVanishesUnfinished(before, after[..k], retention, id);
      assert after[..k][..j] == after[..j];
      k := j;
    }
  }

  function TimeOf(m: Action): Time {
    match m
    case Submit(_, _, _, _, now) => now
    case Look(now) => now
    case Work(_, now) => now
  }

  lemma FinishedStays(y: System, m: Action, retention: Time, id: string)
    requires Sound(y) && FinishedAt(y.state, id)
    requires TimeOf(m) <= y.state.operations[id].finishedAt.value + retention
    ensures FinishedAt(Made(y, m, retention).state, id)
      && Made(y, m, retention).state.operations[id] == y.state.operations[id]
  {
    assert Linked(y.state.operations[id], y.workers[id]);
  }

  /** In every interleaving a finished operation stays visible, and as it was, until its retention has passed. */
  lemma {:induction false} FinishedIsVisible(before: seq<Action>, after: seq<Action>, retention: Time, id: string)
    requires FinishedAt(MadeAll(IDLE, before, retention).state, id)
    requires var op := MadeAll(IDLE, before, retention).state.operations[id];
      forall m | m in after :: TimeOf(m) <= op.finishedAt.value + retention
    ensures var end := MadeAll(IDLE, before + after, retention).state;
      FinishedAt(end, id) && end.operations[id] == MadeAll(IDLE, before, retention).state.operations[id]
  {
    if after == [] {
      assert before + after == before;
    } else {
      var n := |after| - 1;
      assert forall m | m in after[..n] :: m in after;
      FinishedIsVisible(before, after[..n], retention, id);
      RunKeepsGood(before + after[..n], retention);
      OneMoreMove(before, after, retention);
      FinishedStays(MadeAll(IDLE, before + after[..n], retention), after[n], retention, id);
    }
  }

  /** And the first request after that finds it gone. */
  lemma ExpiredIsGone(y: System, now: Time, retention: Time, id: string)
    requires FinishedAt(y.state, id) && y.state.operations[id].finishedAt.value + retention < now
    ensures id !in Made(y, Look(now), retention).state.operations
  {}

  ghost predicate FinishedAfter(before: seq<Action>, after: seq<Action>, k: nat, retention: Time, id: string)
    requires k <= |after|
  {
    FinishedAt(MadeAll(IDLE, before + after[..k], retention).state, id)
  }

  predicate FinishedAt(s: State, id: string) {
    id in s.operations && !Unfinished(s.operations[id])
  }

  class Manager {
    const retention: Time
    var operations: Operations
    var activeByRoute: Active

    ghost predicate Valid()
      reads this
    {
      Consistent(operations, activeByRoute)
    }

    ghost function Contents(): State
      reads this
    {
      State(operations, activeByRoute)
    }

    constructor (retention: Time)
      ensures Valid() && operations == map[] && activeByRoute == map[]
    {
      this.retention, operations, activeByRoute := retention, map[], map[];
    }

    /** Drop what finished long ago; an unfinished operation always stays. */
    method Cleanup(now: Time)
      requires Valid()
      modifies this`operations
      ensures Valid() && operations == Kept(old(operations), now, retention)
      ensures OnlyExpiredGone(old(operations), operations, now, retention)
      ensures forall id | id in old(operations) && Unfinished(old(operations)[id]) ::
        id in operations && operations[id] == old(operations)[id]
    {
      var todo := operations.Keys;
      while todo != {}
        invariant todo <= old(operations).Keys
        invariant operations == map id | id in old(operations)
          && (id in todo || id in Kept(old(operations), now, retention)) :: old(operations)[id]
        decreases todo
      {
        var id :| id in todo;
        todo := todo - {id};
        var op := operations[id];
        if op.finishedAt.Some? && now - op.finishedAt.value > retention {
          operations := operations - {id};
        }
      }
    }

    /** Queue a new operation, unless the route already has one unfinished.  `id` is the freshly drawn identifier. */
    method Start(routeId: nat, sources: seq<string>, id: string, now: Time) returns (r: Result<Operation, ManagerError>)
      requires Valid() && id != "" && id !in operations
      modifies this
      ensures Valid()
      ensures r == Err(Validation) <==> |sources| == 0 || |sources| > 100
      ensures r == Err(Validation) ==> Contents() == old(Contents())
      ensures r != Err(Validation) ==>
        Contents() == Next(old(Contents()), StartOp(routeId, |sources|, id, now), retention)
      ensures r != Err(Validation) ==> (r == Err(Conflict) <==> HasUnfinished(old(operations), routeId))
      ensures r.Err? ==> r.error != NotFound
      ensures r.Ok? ==> id in operations && r.value == operations[id]
      ensures r.Ok? ==>
        r.value == Operation(id, routeId, Queued, InQueue, |sources|, 0, 0, "", [], [], now, None, None)
      ensures r != Err(Validation) ==>
        OnlyExpiredGone(old(operations), if r.Ok? then operations - {id} else operations, now, retention)
    {
      if |sources| == 0 || |sources| > BatchMove.MAX_BATCH {
        return Err(Validation);
      }
      Cleanup(now);
      if routeId in activeByRoute {
        assert Unfinished(old(operations)[activeByRoute[routeId]]);
        return Err(Conflict);
      }
      var op := Enqueue(routeId, |sources|, id, now);
      return Ok(op);
    }

    /** Store a new operation as the route's active one. */
    method Enqueue(routeId: nat, count: nat, id: string, now: Time) returns (op: Operation)
      requires Valid() && id != "" && id !in operations && routeId !in activeByRoute
      modifies this
      ensures Valid() && op == NewOperation(id, routeId, count, now)
      ensures operations == old(operations)[id := op] && operations - {id} == old(operations)
      ensures activeByRoute == old(activeByRoute)[routeId := id]
    {
      op := NewOperation(id, routeId, count, now);
      operations := operations[id := op];
      activeByRoute := activeByRoute[routeId := id];
      assert operations - {id} == old(operations);
    }

    method Get(routeId: nat, id: string, now: Time) returns (r: Result<Operation, ManagerError>)
      requires Valid()
      modifies this`operations
      ensures Valid() && Contents() == Next(old(Contents()), Poll(now), retention)
      ensures OnlyExpiredGone(old(operations), operations, now, retention)
      ensures r == if id in operations && operations[id].routeId == routeId then Ok(operations[id]) else Err(NotFound)
    {
      Cleanup(now);
      if id !in operations || operations[id].routeId != routeId {
        return Err(NotFound);
      }
      return Ok(operations[id]);
    }

    /** The worker picks the operation up. */
    method Begin(id: string, now: Time)
      requires Valid() && Disciplined(Contents(), BeginOp(id, now))
      modifies this`operations
      ensures Valid() && Contents() == Next(old(Contents()), BeginOp(id, now), retention)
      ensures id in operations ==> operations[id].status == Running && operations[id].startedAt == Some(now)
    {
      if id in operations {
        operations :=
          operations[id := operations[id].(status := Running, stage := At(Preparing), startedAt := Some(now))];
      }
    }

    /** One progress report of the worker. */
    method UpdateProgress(id: string, e: Event)
      requires Valid() && Disciplined(Contents(), ReportOp(id, e))
      modifies this`operations
      ensures Valid() && Contents() == Next(old(Contents()), ReportOp(id, e), retention)
      ensures id in operations ==>
        operations[id].stage == At(e.phase) && operations[id].processed == e.processed
          && operations[id].total == e.total && operations[id].currentPath == e.currentPath
    {
      if id in operations {
        operations := operations[id := operations[id].(stage := At(e.phase), total := e.total, processed := e.processed,
          currentPath := e.currentPath, percent := Percent(e.processed, e.total))];
      }
    }

    /** The worker is done: record the outcome and free the route. */
    method Finish(id: string, routeId: nat, ok: bool, moved: seq<Moved>, failed: seq<Failure>, now: Time)
      requires Valid() && Disciplined(Contents(), FinishOp(id, ok, moved, failed, now))
      requires id in operations ==> operations[id].routeId == routeId
      modifies this
      ensures Valid() && Contents() == Next(old(Contents()), FinishOp(id, ok, moved, failed, now), retention)
      ensures id in operations ==> Outcome(operations[id], ok, moved, failed, now)
      ensures old(id in operations) ==> id in operations && routeId !in activeByRoute
    {
      if id in operations {
        var op := operations[id].(moved := moved, failed := failed, processed := |moved| + |failed|, currentPath := "",
          finishedAt := Some(now));
        if ok {
          op := op.(status := Succeeded, stage := At(Completed), percent := 100);
        } else {
          op := op.(status := Broken, stage := GaveUp);
        }
        operations := operations[id := op];
      }
      if routeId in activeByRoute && activeByRoute[routeId] == id {
        activeByRoute := activeByRoute - {routeId};
      }
    }
  }

  /** What a finished operation shows: the lists of the batch, and when it ended. */
  predicate Outcome(op: Operation, ok: bool, moved: seq<Moved>, failed: seq<Failure>, now: Time) {
    && op.moved == moved && op.failed == failed && op.processed == |moved| + |failed|
    && op.finishedAt == Some(now) && op.currentPath == ""
    && op.status == (if ok then Succeeded else Broken) && op.stage == (if ok then At(Completed) else GaveUp)
  }

  predicate HasUnfinished(operations: Operations, routeId: nat) {
    exists id | id in operations :: Unfinished(operations[id]) && operations[id].routeId == routeId
  }

  // ---- the worker's own code, among the others

  ghost predicate AllForward(trace: seq<Operation>) {
    forall i, j | 0 <= i <= j < |trace| :: Forward(trace[i], trace[j])
  }

  lemma ForwardNext(trace: seq<Operation>, op: Operation)
    requires AllForward(trace) && trace != [] && Forward(trace[|trace| - 1], op)
    ensures AllForward(trace + [op])
  {
    var more := trace + [op];
    forall i, j | 0 <= i <= j < |more| ensures Forward(more[i], more[j]) {
      if j == |trace| && i < |trace| {
        assert Forward(trace[i], trace[|trace| - 1]);
      }
    }
  }

  predicate About(step: Step, id: string) {
    match step
    case StartOp(_, _, x, _) => x == id
    case Poll(_) => false
    case BeginOp(x, _) => x == id
    case ReportOp(x, _) => x == id
    case FinishOp(x, _, _, _, _) => x == id
  }

  /** Any critical section of somebody else. */
  method Other(manager: Manager, id: string, step: Step)
    requires manager.Valid() && id in manager.operations && Unfinished(manager.operations[id])
    requires Disciplined(manager.Contents(), step) && !About(step, id)
    modifies manager
    ensures manager.Valid() && id in manager.operations && manager.operations[id] == old(manager.operations)[id]
  {
    match step {
      case StartOp(routeId, count, other, now) =>
        var r := manager.Start(routeId, seq(count, _ => ""), other, now);
      case Poll(now) => var r := manager.Get(0, id, now);
      case BeginOp(other, now) => manager.Begin(other, now);
      case ReportOp(other, e) => manager.UpdateProgress(other, e);
      case FinishOp(other, ok, moved, failed, now) =>
        if other in manager.operations {
          manager.Finish(other, manager.operations[other].routeId, ok, moved, failed, now);
        }
    }
  }

  /** Any number of critical sections of clients and other workers. */
  method Others(manager: Manager, id: string)
    requires manager.Valid() && id in manager.operations && Unfinished(manager.operations[id])
    modifies manager
    ensures manager.Valid() && id in manager.operations && manager.operations[id] == old(manager.operations)[id]
  {
    var many: int := *;
    var n: nat := if many < 0 then 0 else many;
    for i := 0 to n
      invariant manager.Valid() && id in manager.operations && manager.operations[id] == old(manager.operations)[id]
    {
      var step: Step := *;
      if Disciplined(State(manager.operations, manager.activeByRoute), step) && !About(step, id) {
        Other(manager, id, step);
      }
    }
  }

  /** The batch itself, as the worker sees it: its reports and its outcome are a script the manager can follow. */
  method Batch(remote: RemoteStore.Remote, route: Option<BatchMove.Route>, sources: seq<string>, target: string)
    returns (script: Script, ghost folder: string, ghost names: seq<string>, ghost calls: seq<RemoteStore.Call>)
    requires route.Some? ==> BatchMove.ValidRoute(route.value)
    modifies remote
    ensures ScriptOk(script, |sources|)
    ensures !script.ok ==> remote.objects == old(remote.objects)
    ensures script.ok ==> route.Some? && BatchMove.NormalizedTo(sources, names)
    ensures script.ok ==>
      BatchMove.Done(
        old(remote.objects), remote.objects, calls, route.value, folder, names, script.moved, script.failed)
  {
    var err, moved, failed, events;
    err, moved, failed, events, folder, names, calls := BatchMove.MoveFiles(remote, route, sources, target);
    script := Script(events, err.None?, moved, failed);
  }

  /** One report: it fits the operation and goes forward. */
  method PublishReport(manager: Manager, id: string, script: Script, k: nat)
    requires manager.Valid() && id in manager.operations && Linked(manager.operations[id], Worker(script, Reporting(k)))
    requires k < |script.events|
    modifies manager`operations
    ensures manager.Valid() && id in manager.operations
    ensures Linked(manager.operations[id], Worker(script, Reporting(k + 1)))
    ensures Forward(old(manager.operations)[id], manager.operations[id])
  {
    var op := manager.operations[id];
    NextIsForward(op, Worker(script, Reporting(k)));
    PercentIsMonotone(op.processed, script.events[k].processed, op.total);
    manager.UpdateProgress(id, script.events[k]);
  }

  /**
   * The worker of one operation, with clients and other workers coming in between: begin, publish the batch's reports,
   * finish.  Every state it publishes goes forward; a batch that succeeds ends with everything processed and 100
   * percent, a failed one has moved nothing, and the route is free again.
   */
  method Run(
      manager: Manager, id: string, remote: RemoteStore.Remote, route: Option<BatchMove.Route>, sources: seq<string>,
      target: string, begun: Time, finished: Time)
    returns (ok: bool, ghost trace: seq<Operation>, ghost folder: string, ghost names: seq<string>,
      ghost calls: seq<RemoteStore.Call>)
    requires manager.Valid() && id in manager.operations && (route.Some? ==> BatchMove.ValidRoute(route.value))
    requires var op := manager.operations[id]; op.status == Queued && op.total == |sources| && op.processed == 0
    modifies manager, remote
    ensures manager.Valid() && trace != [] && trace[0] == old(manager.operations)[id] && AllForward(trace)
    ensures id in manager.operations && manager.operations[id] == trace[|trace| - 1]
    ensures var last := trace[|trace| - 1];
      last.finishedAt == Some(finished) && last.status == (if ok then Succeeded else Broken) &&
      if ok then last.processed == last.total && last.percent == 100 else remote.objects == old(remote.objects)
    ensures ok ==> route.Some? && BatchMove.NormalizedTo(sources, names)
    ensures ok ==> var last := trace[|trace| - 1];
      BatchMove.Done(old(remote.objects), remote.objects, calls, route.value, folder, names, last.moved, last.failed)
    ensures old(manager.operations)[id].routeId !in manager.activeByRoute
  {
    ghost var first := manager.operations[id];
    manager.Begin(id, begun);
    trace := [first];
    ForwardNext(trace, manager.operations[id]);
    trace := trace + [manager.operations[id]];
    var script;
    script, folder, names, calls := Batch(remote, route, sources, target);
    ok := script.ok;
    trace := Publish(manager, id, script, trace);
    Others(manager, id);
    trace := Conclude(manager, id, script, trace, finished);
  }

  /** The end of a worker whose reports are all out. */
  method Conclude(manager: Manager, id: string, script: Script, ghost before: seq<Operation>, finished: Time)
    returns (ghost trace: seq<Operation>)
    requires manager.Valid() && id in manager.operations
    requires Linked(manager.operations[id], Worker(script, Reporting(|script.events|)))
    requires before != [] && AllForward(before) && before[|before| - 1] == manager.operations[id]
    modifies manager
    ensures manager.Valid() && id in manager.operations && Forward(before[|before| - 1], manager.operations[id])
    ensures Outcome(manager.operations[id], script.ok, script.moved, script.failed, finished)
    ensures script.ok ==> manager.operations[id].processed == manager.operations[id].total
    ensures script.ok ==> manager.operations[id].percent == 100
    ensures trace == before + [manager.operations[id]] && AllForward(trace)
    ensures old(manager.operations)[id].routeId !in manager.activeByRoute
  {
    NextIsForward(manager.operations[id], Worker(script, Reporting(|script.events|)));
    manager.Finish(id, manager.operations[id].routeId, script.ok, script.moved, script.failed, finished);
    ForwardNext(before, manager.operations[id]);
    trace := before + [manager.operations[id]];
  }

  /** All reports of a batch, among the others. */
  method Publish(manager: Manager, id: string, script: Script, ghost before: seq<Operation>)
    returns (ghost trace: seq<Operation>)
    requires manager.Valid() && id in manager.operations && Linked(manager.operations[id], Worker(script, Reporting(0)))
    requires before != [] && AllForward(before) && before[|before| - 1] == manager.operations[id]
    modifies manager
    ensures manager.Valid() && id in manager.operations
    ensures Linked(manager.operations[id], Worker(script, Reporting(|script.events|)))
    ensures trace != [] && before <= trace && AllForward(trace) && trace[|trace| - 1] == manager.operations[id]
  {
    trace := before;
    for k := 0 to |script.events|
      invariant manager.Valid() && id in manager.operations
      invariant Linked(manager.operations[id], Worker(script, Reporting(k)))
      invariant trace != [] && before <= trace && AllForward(trace) && trace[|trace| - 1] == manager.operations[id]
    {
      Others(manager, id);
      PublishReport(manager, id, script, k);
      ForwardNext(trace, manager.operations[id]);
      trace := trace + [manager.operations[id]];
    }
  }
}
