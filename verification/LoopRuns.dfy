/** What holds of one event loop over whole runs, in terms of the unindexed store. */
module LoopRuns {
  import opened Common
  import opened Work
  import opened TaskQueues
  import opened EventLoops

  // ---------------------------------------------------------------------------
  // What a batch dispatches
  // ---------------------------------------------------------------------------

  /** The ids one operation cancels. */
  function Cancels(s: LoopState, op: Op): set<nat> {
    match op
    case CancelIfQueued(id) => {id}
    case ClearJsTimer(timer) => if timer in s.jsTimers then {s.jsTimers[timer]} else {}
    case _ => {}
  }

  function CancelledByOps(s: LoopState, ops: seq<Op>): set<nat> {
    if ops == [] then {}
    else CancelledByOps(s, ops[..|ops| - 1]) + Cancels(LoopOps(s, ops[..|ops| - 1]), ops[|ops| - 1])
  }

  function CancelledByTask(s: LoopState, id: nat, task: Task): set<nat> {
    CancelledByOps(s, task.body)
    + CancelledByOps(Requeued(LoopOps(s, task.body), id, task.again), task.tail)
  }

  /** The ids the tasks of a batch cancel. */
  function CancelledByBatch(s: LoopState, ids: seq<nat>): set<nat> {
    if ids == [] then {}
    else
      var b, id := RunBatch(s, ids[..|ids| - 1]), ids[|ids| - 1];
      CancelledByBatch(s, ids[..|ids| - 1]) +
      if id !in b.state.entries then {}
      else CancelledByTask(b.state.(entries := b.state.entries - {id}), id, b.state.entries[id].task)
  }

  /** The tasks of `ids` as `s` holds them, in order, without those cancelled before their turn. */
  function Expected(s: LoopState, ids: seq<nat>): seq<Dispatch>
    requires forall id :: id in ids ==> id in s.entries
  {
    if ids == [] then []
    else
      var rest, id := ids[..|ids| - 1], ids[|ids| - 1];
      if id in CancelledByBatch(s, rest) then Expected(s, rest)
      else Expected(s, rest) + [Dispatch(id, s.entries[id].task)]
  }

  lemma {:induction false} OpCancels(s: LoopState, op: Op, id: nat)
    requires LoopInv(s) && id in s.entries
    ensures id in LoopOp(s, op).entries <==> id !in Cancels(s, op)
  {
  }

  lemma {:induction false} OpsCancel(s: LoopState, ops: seq<Op>, id: nat)
    requires LoopInv(s) && id in s.entries
    ensures id in LoopOps(s, ops).entries <==> id !in CancelledByOps(s, ops)
  {
    if ops == [] {
    } else {
      var front, last := ops[..|ops| - 1], ops[|ops| - 1];
      OpsCancel(s, front, id);
      OpsKeepInv(s, front);
      var t := LoopOps(s, front);
      if id in t.entries {
        OpCancels(t, last, id);
      } else {
        OpKeepsInv(t, last);
      }
    }
  }

  lemma {:induction false} OpsKeepAbsent(s: LoopState, ops: seq<Op>, id: nat)
    requires LoopInv(s) && id !in s.entries && id < s.nextId
    ensures id !in LoopOps(s, ops).entries
  {
    OpsKeepInv(s, ops);
  }

  lemma {:induction false} TaskCancels(s: LoopState, running: nat, task: Task, id: nat)
    requires LoopInv(s) && running !in s.entries && running < s.nextId && id in s.entries
    ensures id in TaskRun(s, running, task).entries <==> id !in CancelledByTask(s, running, task)
  {
    OpsCancel(s, task.body, id);
    OpsKeepInv(s, task.body);
    var u := Requeued(LoopOps(s, task.body), running, task.again);
    if id in u.entries {
      OpsCancel(u, task.tail, id);
    } else {
      OpsKeepAbsent(u, task.tail, id);
    }
  }

  ghost predicate Distinct(ids: seq<nat>) {
    forall i, j :: 0 <= i < j < |ids| ==> ids[i] != ids[j]
  }

  /** An entry whose turn has not come is as it was, or was cancelled. */
  ghost predicate Pending(s: LoopState, t: LoopState, cancelled: set<nat>, id: nat) {
    && (id in t.entries <==> id !in cancelled)
    && (id in t.entries ==> id in s.entries && t.entries[id].task == s.entries[id].task)
  }

  ghost predicate Dispatched(ran: seq<Dispatch>, id: nat) {
    exists d :: d in ran && d.id == id
  }

  lemma {:induction false} DispatchedLonger(ran: seq<Dispatch>, d: Dispatch, id: nat)
    ensures Dispatched(ran + [d], id) <==> Dispatched(ran, id) || d.id == id
  {
    if Dispatched(ran, id) {
      var e :| e in ran && e.id == id;
      assert e in ran + [d];
    }
    assert d in ran + [d];
  }

  /** It is still so after another entry ran. */
  lemma {:induction false} StaysPending(s: LoopState, t: LoopState, cancelled: set<nat>, running: nat, id: nat)
    requires LoopInv(s) && LoopInv(t) && s.nextId <= t.nextId && id in s.entries
    requires Pending(s, t, cancelled, id) && running in t.entries && running != id
    ensures
      var u, task := t.(entries := t.entries - {running}), t.entries[running].task;
      Pending(s, TaskRun(u, running, task), cancelled + CancelledByTask(u, running, task), id)
  {
    var u, task := t.(entries := t.entries - {running}), t.entries[running].task;
    TaskKeepsInv(u, running, task);
    if id in u.entries {
      TaskCancels(u, running, task, id);
    }
  }

  /** So are all entries that are not among `ids`. */
  ghost predicate OthersPending(s: LoopState, t: LoopState, cancelled: set<nat>, ids: seq<nat>) {
    forall id :: id in s.entries && id !in ids ==> Pending(s, t, cancelled, id)
  }

  lemma {:induction false} OthersStayPending(s: LoopState, t: LoopState, cancelled: set<nat>, rest: seq<nat>, last: nat)
    requires LoopInv(s) && LoopInv(t) && s.nextId <= t.nextId
    requires OthersPending(s, t, cancelled, rest) && last in t.entries
    ensures
      var u, task := t.(entries := t.entries - {last}), t.entries[last].task;
      OthersPending(s, TaskRun(u, last, task), cancelled + CancelledByTask(u, last, task), rest + [last])
  {
    var u, task := t.(entries := t.entries - {last}), t.entries[last].task;
    forall id | id in s.entries && id !in rest + [last]
      ensures Pending(s, TaskRun(u, last, task), cancelled + CancelledByTask(u, last, task), id)
    {
      assert last in rest + [last] && (id in rest ==> id in rest + [last]);
      StaysPending(s, t, cancelled, last, id);
    }
  }

  /** Mid-batch, after the tasks of `ids`. */
  ghost predicate BatchSoFar(s: LoopState, ids: seq<nat>, b: Batch)
    requires forall id :: id in ids ==> id in s.entries
  {
    && LoopInv(b.state) && s.nextId <= b.state.nextId
    && b.ran == Expected(s, ids)
    && OthersPending(s, b.state, CancelledByBatch(s, ids), ids)
    && (forall id :: id in ids && id in b.state.entries ==> Dispatched(b.ran, id))
  }

  lemma {:induction false} DispatchedSoFar(before: Batch, last: nat, rest: seq<nat>)
    requires LoopInv(before.state) && last in before.state.entries
    requires forall id :: id in rest && id in before.state.entries ==> Dispatched(before.ran, id)
    requires forall id :: id in rest ==> id < before.state.nextId
    ensures var b := RunOne(before, last);
      forall id :: id in rest + [last] && id in b.state.entries ==> Dispatched(b.ran, id)
  {
    var b := RunOne(before, last);
    var task := before.state.entries[last].task;
    TaskKeepsInv(before.state.(entries := before.state.entries - {last}), last, task);
    forall id | id in rest + [last] && id in b.state.entries
      ensures Dispatched(b.ran, id)
    {
      assert id == last || id in rest;
      DispatchedLonger(before.ran, Dispatch(last, task), id);
    }
  }

  /** A batch dispatches its tasks as they were when it was drawn up, in order and once each, except
      the ones cancelled before their turn. A task not dispatched is no longer queued. */
  lemma {:induction false} BatchDispatches(s: LoopState, ids: seq<nat>)
    requires LoopInv(s) && Distinct(ids)
    requires forall id :: id in ids ==> id in s.entries
    ensures BatchSoFar(s, ids, RunBatch(s, ids))
  {
    if ids == [] {
    } else {
      var rest, last := ids[..|ids| - 1], ids[|ids| - 1];
      assert ids == rest + [last];
      BatchDispatches(s, rest);
      var before := RunBatch(s, rest);
      assert last !in rest && Pending(s, before.state, CancelledByBatch(s, rest), last);
      if last in before.state.entries {
        TaskKeepsInv(before.state.(entries := before.state.entries - {last}), last, before.state.entries[last].task);
        OthersStayPending(s, before.state, CancelledByBatch(s, rest), rest, last);
        DispatchedSoFar(before, last, rest);
      }
    }
  }

  /** `d` is a task that was ready in `s`, as `s` holds it. */
  predicate WasReady(s: LoopState, d: Dispatch) {
    d.id in s.entries && s.entries[d.id].ready && d.task == s.entries[d.id].task
  }

  function DispatchKey(s: LoopState, d: Dispatch): Key
    requires d.id in s.entries
  {
    Key(s.entries[d.id].deadline, d.id)
  }

  /** `ran` lists tasks ready in `s`, in strictly increasing key order. */
  ghost predicate InOrder(s: LoopState, ran: seq<Dispatch>) {
    && (forall d :: d in ran ==> WasReady(s, d))
    && (forall i, j :: 0 <= i < j < |ran| ==>
        ran[i].id in s.entries && ran[j].id in s.entries
        && Before(DispatchKey(s, ran[i]), DispatchKey(s, ran[j])))
  }

  lemma {:induction false} AppendInOrder(s: LoopState, ran: seq<Dispatch>, d: Dispatch)
    requires InOrder(s, ran) && WasReady(s, d)
    requires forall e :: e in ran ==> e.id in s.entries && Before(DispatchKey(s, e), DispatchKey(s, d))
    ensures InOrder(s, ran + [d])
  {
  }

  lemma {:induction false} LastIsLast(keys: seq<Key>)
    requires Sorted(keys) && keys != []
    ensures forall k :: k in keys[..|keys| - 1] ==> k in keys && Before(k, keys[|keys| - 1])
  {
  }

  lemma {:induction false} ExpectedInOrder(s: LoopState, keys: seq<Key>)
    requires Sorted(keys)
    requires forall k :: k in keys ==> IsReady(s.entries, k)
    requires forall id :: id in Ids(keys) ==> id in s.entries
    ensures var ran := Expected(s, Ids(keys));
      InOrder(s, ran) && forall d :: d in ran ==> d.id in s.entries && DispatchKey(s, d) in keys
  {
    if keys == [] {
    } else {
      var front, last := keys[..|keys| - 1], keys[|keys| - 1];
      assert last in keys && last.id in Ids(keys);
      assert Ids(keys)[..|keys| - 1] == Ids(front);
      LastIsLast(keys);
      ExpectedInOrder(s, front);
      AppendInOrder(s, Expected(s, Ids(front)), Dispatch(last.id, s.entries[last.id].task));
    }
  }

  /** One step dispatches exactly the tasks ready once its timers are expired: each as it was then,
      at most once, in key order, and without those an earlier task of the batch cancelled. Nothing
      queued, signalled or re-queued meanwhile runs in it, and a ready task that did not run is no
      longer queued. */
  lemma {:induction false} StepDispatches(s: LoopState, now: nat)
    requires LoopInv(s)
    ensures var t := s.(entries := Expired(s.entries, now));
      var order, b := ReadyOrder(t.entries), StepRun(s, now);
      && LoopInv(b.state)
      && (forall id :: id in Ids(order) ==> id in t.entries)
      && b.ran == Expected(t, Ids(order))
      && InOrder(t, b.ran)
      && (forall k :: k in order && k.id in b.state.entries ==> Dispatched(b.ran, k.id))
  {
    var t := s.(entries := Expired(s.entries, now));
    var order := ReadyOrder(t.entries);
    var ids := Ids(order);
    forall i, j | 0 <= i < j < |ids|
      ensures ids[i] != ids[j]
    {
      assert order[i] in order && order[j] in order;
    }
    forall id | id in ids
      ensures id in t.entries
    {
      var i :| 0 <= i < |ids| && ids[i] == id;
      assert order[i] in order;
    }
    BatchDispatches(t, ids);
    ExpectedInOrder(t, order);
    forall k | k in order
      ensures k.id in ids
    {
      var i :| 0 <= i < |order| && order[i] == k;
      assert ids[i] == k.id;
    }
  }

  /** The tasks of `ids` before `id` cancel it. */
  ghost predicate CancelledBefore(s: LoopState, ids: seq<nat>, id: nat) {
    exists i :: 0 <= i < |ids| && ids[i] == id && id in CancelledByBatch(s, ids[..i])
  }

  lemma {:induction false} CancelledBeforeLonger(s: LoopState, rest: seq<nat>, last: nat, id: nat)
    ensures CancelledBefore(s, rest + [last], id) <==>
      CancelledBefore(s, rest, id) || (id == last && id in CancelledByBatch(s, rest))
  {
    var ids := rest + [last];
    assert forall i :: 0 <= i <= |rest| ==> rest[..i] == ids[..i];
    assert rest[..|rest|] == rest;
    if CancelledBefore(s, rest, id) {
      var i :| 0 <= i < |rest| && rest[i] == id && id in CancelledByBatch(s, rest[..i]);
      assert ids[i] == id && id in CancelledByBatch(s, ids[..i]);
    }
    if id == last && id in CancelledByBatch(s, rest) {
      assert ids[|rest|] == id && id in CancelledByBatch(s, ids[..|rest|]);
    }
  }

  lemma {:induction false} ExpectedUnlessCancelled(s: LoopState, ids: seq<nat>, id: nat)
    requires Distinct(ids) && forall k :: k in ids ==> k in s.entries
    ensures Dispatched(Expected(s, ids), id) <==> id in ids && !CancelledBefore(s, ids, id)
  {
    if ids == [] {
    } else {
      var rest, last := ids[..|ids| - 1], ids[|ids| - 1];
      assert ids == rest + [last];
      assert last !in rest && (id in ids <==> id in rest || id == last);
      ExpectedUnlessCancelled(s, rest, id);
      CancelledBeforeLonger(s, rest, last, id);
      if last !in CancelledByBatch(s, rest) {
        DispatchedLonger(Expected(s, rest), Dispatch(last, s.entries[last].task), id);
      }
    }
  }

  /** A step runs a task exactly when it is ready or its deadline is at or before the step's time, and
      no task that runs before it in the step cancels it. */
  lemma {:induction false} StepRunsExactlyIf(s: LoopState, now: nat, id: nat)
    requires LoopInv(s) && id in s.entries
    ensures var t := s.(entries := Expired(s.entries, now));
      Dispatched(StepRun(s, now).ran, id) <==>
      (s.entries[id].ready || IsDue(s.entries[id], now))
      && !CancelledBefore(t, Ids(ReadyOrder(t.entries)), id)
  {
    var t := s.(entries := Expired(s.entries, now));
    var order := ReadyOrder(t.entries);
    var ids := Ids(order);
    StepDispatches(s, now);
    forall i, j | 0 <= i < j < |ids|
      ensures ids[i] != ids[j]
    {
      assert order[i] in order && order[j] in order;
    }
    ExpectedUnlessCancelled(t, ids, id);
    if t.entries[id].ready {
      var k := Key(t.entries[id].deadline, id);
      assert k in order;
      var i :| 0 <= i < |order| && order[i] == k;
      assert ids[i] == id;
    }
    if id in ids {
      var i :| 0 <= i < |ids| && ids[i] == id;
      assert order[i] in order;
    }
  }

  /** A running interval is queued again, under its own id, exactly when its timer was not cleared or
      released by its handler and the microtasks after it do not cancel it. */
  lemma {:induction false} IntervalRepeatsExactlyIf(s: LoopState, id: nat, task: Task)
    requires LoopInv(s) && id !in s.entries && id < s.nextId && task.again.Some?
    ensures
      var handled := LoopOps(s, task.body);
      var again := task.again.value;
      var live := again.timer in handled.jsTimers && handled.jsTimers[again.timer] == id;
      var requeued := Requeued(handled, id, task.again);
      var t := TaskRun(s, id, task);
      && (id in t.entries <==> live && id !in CancelledByOps(requeued, task.tail))
      && (id in t.entries ==> t.entries[id].task == again.task && t.entries[id].deadline == Some(again.deadline))
  {
    OpsKeepInv(s, task.body);
    var requeued := Requeued(LoopOps(s, task.body), id, task.again);
    OpsKeepInv(requeued, task.tail);
    if id in requeued.entries {
      OpsCancel(requeued, task.tail, id);
    }
  }

  // ---------------------------------------------------------------------------
  // Runs of one loop, and cleared timers
  // ---------------------------------------------------------------------------

  /** What drives a loop from outside: steps, taking one ready task to run it by hand, advancing its
      timers, and operations between steps. */
  datatype Action =
    | StepAt(now: nat)
    | PopAndRun
    | AdvanceTo(now: nat)
    | Outside(ops: seq<Op>)

  datatype Trace = Trace(state: LoopState, ran: seq<Dispatch>)

  ghost function Act(s: LoopState, a: Action): Trace {
    match a
    case StepAt(now) => var b := StepRun(s, now); Trace(b.state, b.ran)
    case PopAndRun =>
      var order := ReadyOrder(s.entries);
      if order == [] then Trace(s, [])
      else assert order[0] in order; var b := RunBatch(s, [order[0].id]); Trace(b.state, b.ran)
    case AdvanceTo(now) => Trace(s.(entries := Expired(s.entries, now)), [])
    case Outside(ops) => Trace(LoopOps(s, ops), [])
  }

  ghost function Run(s: LoopState, actions: seq<Action>): Trace {
    if actions == [] then Trace(s, [])
    else
      var before := Run(s, actions[..|actions| - 1]);
      var t := Act(before.state, actions[|actions| - 1]);
      Trace(t.state, before.ran + t.ran)
  }

  lemma {:induction false} PopRunsTheFirst(s: LoopState)
    requires ReadyOrder(s.entries) != []
    ensures var id := ReadyOrder(s.entries)[0].id;
      && id in s.entries
      && Act(s, PopAndRun) == Trace(
          TaskRun(s.(entries := s.entries - {id}), id, s.entries[id].task), [Dispatch(id, s.entries[id].task)])
  {
    var order := ReadyOrder(s.entries);
    assert order[0] in order;
    var id := order[0].id;
    assert [id][..0] == [];
    assert RunBatch(s, [id]) == RunOne(Batch(s, [], []), id);
  }

  const NEW_LOOP := LoopState(0, map[], map[], map[], 0, false)

  lemma {:induction false} BatchKeepsInv(s: LoopState, ids: seq<nat>)
    requires LoopInv(s)
    ensures LoopInv(RunBatch(s, ids).state)
  {
    if ids == [] {
    } else {
      var before := RunBatch(s, ids[..|ids| - 1]).state;
      BatchKeepsInv(s, ids[..|ids| - 1]);
      var id := ids[|ids| - 1];
      if id in before.entries {
        TaskKeepsInv(before.(entries := before.entries - {id}), id, before.entries[id].task);
      }
    }
  }

  /** In every state that runs reach from a new loop each id in use was issued, so nothing is overwritten
      by a fresh id, and no two timers share a task. */
  lemma {:induction false} RunKeepsInv(s: LoopState, actions: seq<Action>)
    requires LoopInv(s)
    ensures LoopInv(Run(s, actions).state) && LoopInv(NEW_LOOP)
  {
    if actions == [] {
    } else {
      var before := Run(s, actions[..|actions| - 1]).state;
      RunKeepsInv(s, actions[..|actions| - 1]);
      match actions[|actions| - 1]
      case StepAt(now) => StepDispatches(before, now);
      case PopAndRun =>
        if ReadyOrder(before.entries) != [] {
          BatchKeepsInv(before, [ReadyOrder(before.entries)[0].id]);
        }
      case AdvanceTo(now) =>
      case Outside(ops) => OpsKeepInv(before, ops);
    }
  }

  /** Task `id` is out of the store, and nothing can put it back. */
  ghost predicate Gone(s: LoopState, id: nat) {
    id < s.nextId && id !in s.entries && forall t :: t in s.jsTimers ==> s.jsTimers[t] != id
  }

  lemma {:induction false} OpKeepsGone(s: LoopState, op: Op, id: nat)
    requires Gone(s, id)
    ensures Gone(LoopOp(s, op), id)
  {
  }

  lemma {:induction false} OpsKeepGone(s: LoopState, ops: seq<Op>, id: nat)
    requires Gone(s, id)
    ensures Gone(LoopOps(s, ops), id)
  {
    if ops == [] {
    } else {
      OpsKeepGone(s, ops[..|ops| - 1], id);
      OpKeepsGone(LoopOps(s, ops[..|ops| - 1]), ops[|ops| - 1], id);
    }
  }

  /** Also when it is `id` itself that runs: its re-queue is dropped. */
  lemma {:induction false} TaskKeepsGone(s: LoopState, running: nat, task: Task, id: nat)
    requires Gone(s, id)
    ensures Gone(TaskRun(s, running, task), id)
  {
    OpsKeepGone(s, task.body, id);
    OpsKeepGone(Requeued(LoopOps(s, task.body), running, task.again), task.tail, id);
  }

  lemma {:induction false} BatchKeepsGone(s: LoopState, ids: seq<nat>, id: nat)
    requires Gone(s, id)
    ensures var b := RunBatch(s, ids); Gone(b.state, id) && forall d :: d in b.ran ==> d.id != id
  {
    if ids == [] {
    } else {
      var before, next := RunBatch(s, ids[..|ids| - 1]).state, ids[|ids| - 1];
      BatchKeepsGone(s, ids[..|ids| - 1], id);
      if next in before.entries {
        TaskKeepsGone(before.(entries := before.entries - {next}), next, before.entries[next].task, id);
      }
    }
  }

  lemma {:induction false} RunKeepsGone(s: LoopState, actions: seq<Action>, id: nat)
    requires Gone(s, id)
    ensures var r := Run(s, actions); Gone(r.state, id) && forall d :: d in r.ran ==> d.id != id
  {
    if actions == [] {
    } else {
      var before := Run(s, actions[..|actions| - 1]).state;
      RunKeepsGone(s, actions[..|actions| - 1], id);
      match actions[|actions| - 1]
      case StepAt(now) =>
        var t := before.(entries := Expired(before.entries, now));
        BatchKeepsGone(t, Ids(ReadyOrder(t.entries)), id);
      case PopAndRun =>
        if ReadyOrder(before.entries) != [] {
          BatchKeepsGone(before, [ReadyOrder(before.entries)[0].id], id);
        }
      case AdvanceTo(now) =>
      case Outside(ops) => OpsKeepGone(before, ops, id);
    }
  }

  /** Once a timer is cleared its task never runs again. The clear may come from anywhere: here from
      the body of the running task, which may be the timer's own, with the rest of that body, its
      re-queue, its microtasks, the rest of the batch and any further run still to come. */
  lemma {:induction false} ClearedNeverRuns(s: LoopState, timer: nat, running: nat, body: seq<Op>, again: Option<Again>,
                         tail: seq<Op>, batch: seq<nat>, actions: seq<Action>)
    requires LoopInv(s) && timer in s.jsTimers
    ensures
      var id := s.jsTimers[timer];
      var cleared := LoopOp(s, ClearJsTimer(timer));
      var task := LoopOps(Requeued(LoopOps(cleared, body), running, again), tail);
      var b := RunBatch(task, batch);
      && id !in task.entries
      && forall d :: d in b.ran + Run(b.state, actions).ran ==> d.id != id
  {
    var id := s.jsTimers[timer];
    var cleared := LoopOp(s, ClearJsTimer(timer));
    OpsKeepGone(cleared, body, id);
    var requeued := Requeued(LoopOps(cleared, body), running, again);
    OpsKeepGone(requeued, tail, id);
    var task := LoopOps(requeued, tail);
    BatchKeepsGone(task, batch, id);
    RunKeepsGone(RunBatch(task, batch).state, actions, id);
  }

  // ---------------------------------------------------------------------------
  // Timers are never early
  // ---------------------------------------------------------------------------

  /** No signal, neither from the operation nor from any task it queues. */
  ghost predicate Unsignalled(op: Op) {
    match op
    case Queue(task) => UnsignalledTask(task)
    case QueueReady(task) => UnsignalledTask(task)
    case QueueTimer(task, _) => UnsignalledTask(task)
    case QueueJsTimer(task, _, _) => UnsignalledTask(task)
    case SignalReady(_) => false
    case _ => true
  }

  ghost predicate UnsignalledTask(task: Task) {
    && (forall o :: o in task.body ==> Unsignalled(o))
    && (forall o :: o in task.tail ==> Unsignalled(o))
    && (task.again.Some? ==> UnsignalledTask(task.again.value.task))
  }

  /** Every ready timer's deadline is at or before `clock`, and stays a matter of deadlines alone. */
  ghost predicate TimersPast(s: LoopState, clock: nat) {
    forall id :: id in s.entries ==>
      && UnsignalledTask(s.entries[id].task)
      && (s.entries[id].ready && s.entries[id].deadline.Some? ==> s.entries[id].deadline.value <= clock)
  }

  lemma {:induction false} OpsKeepPast(s: LoopState, ops: seq<Op>, clock: nat)
    requires TimersPast(s, clock) && forall o :: o in ops ==> Unsignalled(o)
    ensures TimersPast(LoopOps(s, ops), clock)
  {
    if ops == [] {
    } else {
      var front, last := ops[..|ops| - 1], ops[|ops| - 1];
      assert last in ops;
      OpsKeepPast(s, front, clock);
      OpKeepsPast(LoopOps(s, front), last, clock);
    }
  }

  lemma {:induction false} OpKeepsPast(s: LoopState, op: Op, clock: nat)
    requires TimersPast(s, clock) && Unsignalled(op)
    ensures TimersPast(LoopOp(s, op), clock)
  {
  }

  lemma {:induction false} TaskKeepsPast(s: LoopState, id: nat, task: Task, clock: nat)
    requires TimersPast(s, clock) && UnsignalledTask(task)
    ensures TimersPast(TaskRun(s, id, task), clock)
  {
    OpsKeepPast(s, task.body, clock);
    OpsKeepPast(Requeued(LoopOps(s, task.body), id, task.again), task.tail, clock);
  }

  lemma {:induction false} BatchKeepsPast(s: LoopState, ids: seq<nat>, clock: nat)
    requires TimersPast(s, clock)
    ensures TimersPast(RunBatch(s, ids).state, clock)
  {
    if ids == [] {
    } else {
      var before, id := RunBatch(s, ids[..|ids| - 1]).state, ids[|ids| - 1];
      BatchKeepsPast(s, ids[..|ids| - 1], clock);
      if id in before.entries {
        TaskKeepsPast(before.(entries := before.entries - {id}), id, before.entries[id].task, clock);
      }
    }
  }

  function Later(a: nat, b: nat): nat {
    if a < b then b else a
  }

  /** The latest time any action has read. */
  function Latest(actions: seq<Action>): nat {
    if actions == [] then 0
    else match actions[|actions| - 1]
      case StepAt(now) => Later(Latest(actions[..|actions| - 1]), now)
      case AdvanceTo(now) => Later(Latest(actions[..|actions| - 1]), now)
      case _ => Latest(actions[..|actions| - 1])
  }

  lemma {:induction false} RunKeepsPast(actions: seq<Action>)
    requires forall a :: a in actions && a.Outside? ==> forall o :: o in a.ops ==> Unsignalled(o)
    ensures TimersPast(Run(NEW_LOOP, actions).state, Latest(actions))
  {
    if actions == [] {
    } else {
      var front, last := actions[..|actions| - 1], actions[|actions| - 1];
      var before, clock := Run(NEW_LOOP, front).state, Latest(actions);
      assert last in actions;
      RunKeepsPast(front);
      match last
      case StepAt(now) =>
        var t := before.(entries := Expired(before.entries, now));
        BatchKeepsPast(t, Ids(ReadyOrder(t.entries)), clock);
      case PopAndRun =>
        if ReadyOrder(before.entries) != [] {
          BatchKeepsPast(before, [ReadyOrder(before.entries)[0].id], clock);
        }
      case AdvanceTo(now) =>
      case Outside(ops) => OpsKeepPast(before, ops, clock);
    }
  }

  /** Over every run in which nothing is signalled by hand, no timer, and no re-queued interval, is
      dispatched before its deadline: not by a step, and not by popping it. */
  lemma {:induction false} TimersNeverEarly(actions: seq<Action>, next: Action)
    requires forall a :: a in actions && a.Outside? ==> forall o :: o in a.ops ==> Unsignalled(o)
    ensures var s, clock := Run(NEW_LOOP, actions).state, Latest(actions + [next]);
      forall d :: d in Act(s, next).ran ==>
        && d.id in s.entries
        && (s.entries[d.id].deadline.Some? ==> s.entries[d.id].deadline.value <= clock)
  {
    var s := Run(NEW_LOOP, actions).state;
    assert (actions + [next])[..|actions|] == actions;
    RunKeepsPast(actions);
    RunKeepsInv(NEW_LOOP, actions);
    match next
    case StepAt(now) => StepDispatches(s, now);
    case PopAndRun =>
      if ReadyOrder(s.entries) != [] {
        PopRunsTheFirst(s);
        assert ReadyOrder(s.entries)[0] in ReadyOrder(s.entries);
      }
    case AdvanceTo(_) =>
    case Outside(_) =>
  }
}
