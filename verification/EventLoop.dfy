/** The event loop: its registry of tasks and timers, and the batch a step runs. */
module EventLoops {
  import opened Common
  import opened Work
  import opened TaskQueues
  import opened TimerIds
  import opened Futures

  // ---------------------------------------------------------------------------
  // The specification: a loop over the unindexed store
  // ---------------------------------------------------------------------------

  /** A loop's state. `jsTimers` maps the timer ids JavaScript sees to the tasks they control, and
      `counters` is the shared source of timer ids. */
  datatype LoopState = LoopState(
    nextId: nat,
    entries: Store,
    jsTimers: map<nat, nat>,
    counters: map<nat, nat>,
    interest: nat,
    stop: bool)

  /** Ids in use were issued, and a task belongs to at most one timer. */
  ghost predicate LoopInv(s: LoopState) {
    && WellKeyed(s.entries)
    && (forall id :: id in s.entries ==> id < s.nextId)
    && (forall t :: t in s.jsTimers ==> s.jsTimers[t] < s.nextId)
    && (forall t, u :: t in s.jsTimers && u in s.jsTimers && s.jsTimers[t] == s.jsTimers[u] ==> t == u)
  }

  function Enqueued(s: LoopState, task: Task, ready: bool, deadline: Option<nat>): LoopState {
    s.(entries := s.entries[s.nextId := TaskEntry(s.nextId, task, ready, deadline)], nextId := s.nextId + 1)
  }

  /** The effect of one operation on the loop. Operations on futures have none. */
  function LoopOp(s: LoopState, op: Op): LoopState {
    match op
    case Queue(task) => Enqueued(s, task, false, None)
    case QueueReady(task) => Enqueued(s, task, true, None)
    case QueueTimer(task, deadline) => Enqueued(s, task, false, Some(deadline))
    case QueueJsTimer(task, deadline, global) =>
      var a := Allocate(CounterOf(s.counters, global), s.jsTimers.Keys);
      var t := s.(counters := s.counters[global := a.counter]);
      if a.id.None? then t
      else Enqueued(t, task, false, Some(deadline)).(jsTimers := s.jsTimers[a.id.value := s.nextId])
    case SignalReady(id) => s.(entries := Marked(s.entries, id))
    case CancelIfQueued(id) => s.(entries := s.entries - {id})
    case ClearJsTimer(timer) =>
      if timer in s.jsTimers
      then s.(jsTimers := s.jsTimers - {timer}, entries := s.entries - {s.jsTimers[timer]})
      else s
    case JsTimerFired(timer) => s.(jsTimers := s.jsTimers - {timer})
    case AcquireInterest => s.(interest := s.interest + 1)
    case ReleaseInterest => if s.interest > 0 then s.(interest := s.interest - 1) else s
    case RequestStop => s.(stop := true)
    case Spawn(_, _) => s
    case CancelFuture(_) => s
  }

  function LoopOps(s: LoopState, ops: seq<Op>): LoopState {
    if ops == [] then s else LoopOp(LoopOps(s, ops[..|ops| - 1]), ops[|ops| - 1])
  }

  /** Task `id` re-queues itself, if its timer still controls it. */
  function Requeued(s: LoopState, id: nat, again: Option<Again>): LoopState {
    match again
    case Some(Again(timer, task, deadline)) =>
      if timer in s.jsTimers && s.jsTimers[timer] == id
      then s.(entries := s.entries[id := TaskEntry(id, task, false, Some(deadline))])
      else s
    case None => s
  }

  /** Run `task`, which was taken from the store under `id`. */
  function TaskRun(s: LoopState, id: nat, task: Task): LoopState {
    LoopOps(Requeued(LoopOps(s, task.body), id, task.again), task.tail)
  }

  datatype Dispatch = Dispatch(id: nat, task: Task)

  /** A batch under way: the state, what was dispatched, and every operation performed. */
  datatype Batch = Batch(state: LoopState, ran: seq<Dispatch>, performed: seq<Op>)

  function RunOne(b: Batch, id: nat): Batch {
    if id !in b.state.entries then b
    else
      var task := b.state.entries[id].task;
      Batch(TaskRun(b.state.(entries := b.state.entries - {id}), id, task),
            b.ran + [Dispatch(id, task)],
            b.performed + task.body + task.tail)
  }

  function RunBatch(s: LoopState, ids: seq<nat>): Batch {
    if ids == [] then Batch(s, [], []) else RunOne(RunBatch(s, ids[..|ids| - 1]), ids[|ids| - 1])
  }

  function Ids(keys: seq<Key>): (ids: seq<nat>)
    ensures |ids| == |keys| && forall i :: 0 <= i < |keys| ==> ids[i] == keys[i].id
  {
    seq(|keys|, i requires 0 <= i < |keys| => keys[i].id)
  }

  /** One step at time `now`: expire timers by a scan, sort the ready tasks, and run those. */
  ghost function StepRun(s: LoopState, now: nat): Batch {
    var t := s.(entries := Expired(s.entries, now));
    RunBatch(t, Ids(ReadyOrder(t.entries)))
  }

  datatype StepOutcome = Done | Idle | Progressed

  /** Whether the loop has something left: a task, interest, or a future it may drive. */
  predicate Alive(s: LoopState, f: FutState, el: nat) {
    s.entries != map[] || s.interest > 0 || HasFutures(f, el)
  }

  function Outcome(b: Batch, f: FutState, el: nat): StepOutcome {
    if b.ran != [] then Progressed else if Alive(b.state, f, el) then Idle else Done
  }

  // ---------------------------------------------------------------------------
  // Facts the loop relies on
  // ---------------------------------------------------------------------------

  /** An operation inserts no id issued before, and changes nothing of an entry but to mark it ready. */
  ghost predicate OldEntriesKept(s: LoopState, t: LoopState) {
    && s.nextId <= t.nextId
    && forall id :: id in t.entries && id < s.nextId ==>
        id in s.entries && (t.entries[id] == s.entries[id] || t.entries[id] == s.entries[id].(ready := true))
  }

  lemma {:induction false} QueueJsTimerKeepsInv(s: LoopState, op: Op)
    requires LoopInv(s) && op.QueueJsTimer?
    ensures LoopInv(LoopOp(s, op)) && OldEntriesKept(s, LoopOp(s, op))
  {
    AllocateFindsTheFirst(CounterOf(s.counters, op.global), s.jsTimers.Keys);
  }

  lemma {:induction false} OpKeepsInv(s: LoopState, op: Op)
    requires LoopInv(s)
    ensures LoopInv(LoopOp(s, op)) && OldEntriesKept(s, LoopOp(s, op))
  {
    if op.QueueJsTimer? {
      QueueJsTimerKeepsInv(s, op);
    }
  }

  lemma {:induction false} OpsKeepInv(s: LoopState, ops: seq<Op>)
    requires LoopInv(s)
    ensures LoopInv(LoopOps(s, ops)) && OldEntriesKept(s, LoopOps(s, ops))
  {
    if ops == [] {
    } else {
      OpsKeepInv(s, ops[..|ops| - 1]);
      OpKeepsInv(LoopOps(s, ops[..|ops| - 1]), ops[|ops| - 1]);
    }
  }

  /** Running a task that is out of the store touches old entries only to mark them ready, except
      that it may put itself back. */
  lemma {:induction false} TaskKeepsInv(s: LoopState, id: nat, task: Task)
    requires LoopInv(s) && id !in s.entries && id < s.nextId
    ensures var t := TaskRun(s, id, task);
      && LoopInv(t)
      && s.nextId <= t.nextId
      && forall k :: k in t.entries && k < s.nextId && k != id ==>
          k in s.entries && (t.entries[k] == s.entries[k] || t.entries[k] == s.entries[k].(ready := true))
  {
    OpsKeepInv(s, task.body);
    var u := Requeued(LoopOps(s, task.body), id, task.again);
    OpsKeepInv(u, task.tail);
  }

  /** A re-queue of a task that is still queued may leave a stale key behind: here of a timer due at 1,
      re-queued for 2. Making the task ready, which is what expiring the stale key does, removes the
      other key, so the stale one would stay first for ever. */
  lemma {:induction false} RequeueMayLeaveAStaleKey(task: Task)
    ensures
      var was, now := TaskEntry(0, task, false, Some(1)), TaskEntry(0, task, false, Some(2));
      var s := LoopState(1, map[0 := was], map[1 := 0], map[], 0, false);
      var t := Requeued(s, 0, Some(Again(1, task, 2)));
      && LoopInv(s) && Indexed(s.entries, [], [KeyOf(was)])
      && t.entries == s.entries[0 := now]
      && TimersWith([KeyOf(was)], now) == [KeyOf(was), KeyOf(now)]
      && !Indexed(t.entries, ReadyWith([], now), TimersWith([KeyOf(was)], now))
      && Removed([KeyOf(was), KeyOf(now)], KeyOf(now)) == [KeyOf(was)]
  {
    var was, now := TaskEntry(0, task, false, Some(1)), TaskEntry(0, task, false, Some(2));
    var entries := map[0 := was];
    assert Inserted([KeyOf(was)], KeyOf(now)) == [KeyOf(was), KeyOf(now)];
    assert Removed([KeyOf(now)], KeyOf(now)) == [];
    InsertNeedsAFreshSlot(entries, [], [KeyOf(was)], now);
  }

  lemma {:induction false} FutOpsConcat(f: FutState, a: seq<Op>, b: seq<Op>)
    ensures FutOps(f, a + b) == FutOps(FutOps(f, a), b)
  {
    if b == [] {
      assert a + b == a;
    } else {
      FutOpsConcat(f, a, b[..|b| - 1]);
      assert (a + b)[..|a + b| - 1] == a + b[..|b| - 1];
    }
  }

  /** What running one more task adds to a batch does not depend on the batch so far. */
  lemma {:induction false} RunOneAfter(b: Batch, id: nat)
    ensures var one := RunOne(Batch(b.state, [], []), id);
      RunOne(b, id) == Batch(one.state, b.ran + one.ran, b.performed + one.performed)
  {
    assert b.performed + [] == b.performed && b.ran + [] == b.ran;
    if id in b.state.entries {
      var task := b.state.entries[id].task;
      assert b.performed + task.body + task.tail == b.performed + ([] + task.body + task.tail);
    }
  }

  // ---------------------------------------------------------------------------
  // The loop
  // ---------------------------------------------------------------------------

  /** The process-wide source of loop ids. Id 0 stands for no loop. */
  class LoopIds {
    var next: nat
    ghost var issued: set<nat>

    ghost predicate Valid()
      reads this
    {
      next > 0 && forall id :: id in issued ==> 0 < id < next
    }

    constructor ()
      ensures Valid() && issued == {}
    {
      next, issued := 1, {};
    }

    method Issue() returns (id: nat)
      requires Valid()
      modifies this
      ensures Valid() && id != 0 && id !in old(issued) && issued == old(issued) + {id}
    {
      id := next;
      next := next + 1;
      issued := issued + {id};
    }
  }

  class EventLoop {
    const loopId: nat
    var nextId: nat
    const tasks: TaskQueue
    var jsTimers: map<nat, nat>
    var batchBuf: seq<nat>
    var stopRequested: bool
    var interest: nat
    const registry: ClassRegistry
    const tls: PromiseTls

    ghost function State(): LoopState
      reads this, tasks, registry
    {
      LoopState(nextId, tasks.entries, jsTimers, registry.counters, interest, stopRequested)
    }

    ghost predicate Valid()
      reads this, tasks, registry, tls
    {
      loopId != 0 && tasks.Valid() && tls.Valid() && LoopInv(State())
    }

    /** A new loop is empty, and no loop before it has its id. */
    constructor (ids: LoopIds, registry: ClassRegistry, tls: PromiseTls)
      requires ids.Valid() && tls.Valid()
      modifies ids
      ensures ids.Valid() && loopId !in old(ids.issued) && ids.issued == old(ids.issued) + {loopId}
      ensures Valid() && fresh(tasks) && this.registry == registry && this.tls == tls
      ensures batchBuf == [] && State() == LoopState(0, map[], map[], registry.counters, 0, false)
    {
      var id := ids.Issue();
      this.loopId, this.registry, this.tls := id, registry, tls;
      nextId, jsTimers, batchBuf, stopRequested, interest := 0, map[], [], false, 0;
      tasks := new TaskQueue();
    }

    method NextTaskId() returns (id: nat)
      modifies this`nextId
      ensures id == old(nextId) && nextId == id + 1
    {
      id := nextId;
      nextId := nextId + 1;
    }

    method Enqueue(task: Task, ready: bool, deadline: Option<nat>) returns (id: nat)
      requires Valid()
      modifies this`nextId, tasks
      ensures Valid() && id == old(nextId) && State() == Enqueued(old(State()), task, ready, deadline)
    {
      id := NextTaskId();
      tasks.Insert(TaskEntry(id, task, ready, deadline));
    }

    method CancelIfQueued(id: nat) returns (found: bool)
      requires Valid()
      modifies tasks
      ensures Valid() && State() == LoopOp(old(State()), Op.CancelIfQueued(id))
      ensures found <==> id in old(tasks.entries)
    {
      var entry := tasks.Remove(id);
      return entry.Some?;
    }

    /** None where the program stops because the counter has run out. */
    method QueueJsTimer(task: Task, deadline: nat, global: nat) returns (timer: Option<nat>)
      requires Valid()
      modifies this`nextId, this`jsTimers, tasks, registry
      ensures Valid() && State() == LoopOp(old(State()), Op.QueueJsTimer(task, deadline, global))
      ensures timer.Some? ==> timer.value != 0 && timer.value !in old(jsTimers)
      ensures timer.Some? ==> timer.value in jsTimers && jsTimers[timer.value] == old(nextId)
      ensures timer.None? <==>
        forall i: nat :: CounterOf(old(registry.counters), global) <= i < MAX_ID ==> i == 0 || i in old(jsTimers)
    {
      AllocateFindsTheFirst(CounterOf(registry.counters, global), jsTimers.Keys);
      timer := registry.AllocateId(global, jsTimers.Keys);
      if timer.Some? {
        var id := Enqueue(task, false, Some(deadline));
        jsTimers := jsTimers[timer.value := id];
      }
    }

    /** Whether the re-queue of task `id` overwrites nothing that another place of an index lists. */
    predicate MayRequeue(timer: nat, id: nat, task: Task, deadline: nat)
      reads this, tasks
    {
      timer in jsTimers && jsTimers[timer] == id ==>
        FreshSlot(tasks.entries, TaskEntry(id, task, false, Some(deadline)))
    }

    /** An interval re-queues itself as it runs, when its id is out of the queue. A call at another time
        may break the indexes. */
    method RequeueJsTimer(timer: nat, id: nat, task: Task, deadline: nat)
      requires Valid()
      modifies tasks
      ensures State() == Requeued(old(State()), id, Some(Again(timer, task, deadline)))
      ensures Valid() <==> old(MayRequeue(timer, id, task, deadline))
      ensures id !in old(tasks.entries) ==> Valid()
    {
      if timer in jsTimers && jsTimers[timer] == id {
        tasks.Insert(TaskEntry(id, task, false, Some(deadline)));
      }
    }

    method ClearJsTimer(timer: nat)
      requires Valid()
      modifies this`jsTimers, tasks
      ensures Valid() && State() == LoopOp(old(State()), Op.ClearJsTimer(timer))
    {
      if timer in jsTimers {
        var id := jsTimers[timer];
        jsTimers := jsTimers - {timer};
        var found := CancelIfQueued(id);
      }
    }

    method PerformOnLoop(op: Op)
      requires Valid()
      modifies this, tasks, registry
      ensures Valid() && batchBuf == old(batchBuf) && State() == LoopOp(old(State()), op)
    {
      match op {
        case Queue(task) => var id := Enqueue(task, false, None);
        case QueueReady(task) => var id := Enqueue(task, true, None);
        case QueueTimer(task, deadline) => var id := Enqueue(task, false, Some(deadline));
        case QueueJsTimer(task, deadline, global) => var timer := QueueJsTimer(task, deadline, global);
        case SignalReady(id) => var found := tasks.MarkReady(id);
        case CancelIfQueued(id) => var found := CancelIfQueued(id);
        case ClearJsTimer(timer) => ClearJsTimer(timer);
        case JsTimerFired(timer) => jsTimers := jsTimers - {timer};
        case AcquireInterest => interest := interest + 1;
        case ReleaseInterest => if interest > 0 { interest := interest - 1; }
        case RequestStop => stopRequested := true;
        case _ =>
      }
    }

    method PerformAllOnLoop(ops: seq<Op>)
      requires Valid()
      modifies this, tasks, registry
      ensures Valid() && batchBuf == old(batchBuf) && State() == LoopOps(old(State()), ops)
    {
      for i := 0 to |ops|
        invariant Valid() && batchBuf == old(batchBuf)
        invariant State() == LoopOps(old(State()), ops[..i])
      {
        assert ops[..i + 1][..i] == ops[..i];
        PerformOnLoop(ops[i]);
      }
      assert ops[..|ops|] == ops;
    }

    method Perform(op: Op)
      requires Valid()
      modifies this, tasks, registry, tls
      ensures Valid() && batchBuf == old(batchBuf)
      ensures State() == LoopOp(old(State()), op) && tls.State() == FutOp(old(tls.State()), op)
    {
      PerformOnLoop(op);
      tls.Perform(op);
    }

    method PerformAll(ops: seq<Op>)
      requires Valid()
      modifies this, tasks, registry, tls
      ensures Valid() && batchBuf == old(batchBuf)
      ensures State() == LoopOps(old(State()), ops) && tls.State() == FutOps(old(tls.State()), ops)
    {
      for i := 0 to |ops|
        invariant Valid() && batchBuf == old(batchBuf)
        invariant State() == LoopOps(old(State()), ops[..i])
        invariant tls.State() == FutOps(old(tls.State()), ops[..i])
      {
        assert ops[..i + 1][..i] == ops[..i];
        Perform(ops[i]);
      }
      assert ops[..|ops|] == ops;
    }

    /** Poll the future once, now, then queue what is left of it. A future that finished keeps its
        outcome for the next poll. The microtasks of one that did not are left to the caller's drain. */
    method SpawnPolled(promise: nat, future: Future) returns (jobs: seq<Op>)
      requires Valid()
      modifies this, tasks, registry, tls
      ensures Valid() && batchBuf == old(batchBuf)
      ensures State() == LoopOps(old(State()), future.effects)
      ensures tls.State() == FutOps(old(tls.State()), future.effects + [Spawn(promise, PolledOnce(future))])
      ensures jobs == if future.Waits? then future.jobs else []
    {
      PerformAll(future.effects);
      ghost var ops := future.effects + [Spawn(promise, PolledOnce(future))];
      assert ops[..|ops| - 1] == future.effects;
      tls.SpawnFuture(promise, PolledOnce(future));
      return if future.Waits? then future.jobs else [];
    }

    /** Run a task taken from the queue, then the microtasks. */
    method Run(id: nat, task: Task)
      requires Valid() && id !in tasks.entries && id < nextId
      modifies this, tasks, registry, tls
      ensures Valid() && batchBuf == old(batchBuf)
      ensures State() == TaskRun(old(State()), id, task)
      ensures tls.State() == FutOps(old(tls.State()), task.body + task.tail)
    {
      OpsKeepInv(State(), task.body);
      PerformAll(task.body);
      match task.again {
        case Some(Again(timer, next, deadline)) => RequeueJsTimer(timer, id, next, deadline);
        case None =>
      }
      FutOpsConcat(old(tls.State()), task.body, task.tail);
      PerformAll(task.tail);
    }

    lemma {:induction false} ReadyIsOrdered()
      requires Valid()
      ensures tasks.ready == ReadyOrder(tasks.entries)
    {
      SortedUnique(tasks.ready, ReadyOrder(tasks.entries));
    }

    /** The next ready task in dispatch order, taken out of the queue. */
    method PopReady() returns (popped: Option<Dispatch>)
      requires Valid()
      modifies tasks
      ensures Valid()
      ensures var order := ReadyOrder(old(tasks.entries));
        if order == [] then popped == None && State() == old(State())
        else
          var id := order[0].id;
          && id in old(tasks.entries)
          && popped == Some(Dispatch(id, old(tasks.entries)[id].task))
          && State() == LoopOp(old(State()), Op.CancelIfQueued(id))
    {
      ReadyIsOrdered();
      if tasks.ready == [] {
        return None;
      }
      var first := tasks.ready[0];
      assert first in tasks.ready;
      var entry := tasks.Remove(first.id);
      return Some(Dispatch(entry.value.id, entry.value.task));
    }

    method AdvanceTimers(now: nat) returns (count: nat)
      requires Valid()
      modifies tasks
      ensures Valid() && State() == old(State()).(entries := Expired(old(tasks.entries), now))
      ensures count == |Due(old(tasks.entries), now)|
    {
      count := tasks.ExpireTimers(now);
    }

    /** How long to wait until some timer is due: not a moment longer, and not at all if one is. None if
        there is no timer to wait for. */
    method TimeToNextTimer(now: nat) returns (wait: Option<nat>)
      requires Valid()
      ensures wait.None? <==>
        forall id :: id in tasks.entries ==> tasks.entries[id].ready || tasks.entries[id].deadline.None?
      ensures wait.Some? ==> Due(tasks.entries, now + wait.value) != {}
      ensures wait.Some? && wait.value > 0 ==> Due(tasks.entries, now + wait.value - 1) == {}
    {
      assert forall id :: id in tasks.entries && !tasks.entries[id].ready && tasks.entries[id].deadline.Some? ==>
          Key(tasks.entries[id].deadline, id) in tasks.timers;
      if tasks.timers == [] {
        return None;
      }
      var first := tasks.timers[0];
      assert first in tasks.timers;
      var deadline := first.deadline.value;
      assert first.id in Due(tasks.entries, if deadline > now then deadline else now);
      return Some(if deadline > now then deadline - now else 0);
    }

    predicate HasPending()
      reads tasks
    {
      tasks.entries != map[]
    }

    predicate HasReady(): (has: bool)
      requires Valid()
      reads this, tasks, registry, tls
      ensures has <==> exists id :: id in tasks.entries && tasks.entries[id].ready
    {
      assert tasks.ready != [] ==> tasks.ready[0] in tasks.ready;
      assert forall id :: id in tasks.entries && tasks.entries[id].ready ==>
          Key(tasks.entries[id].deadline, id) in tasks.ready;
      tasks.ready != []
    }

    predicate IsAlive(): (alive: bool)
      reads this, tasks, registry, tls
      ensures alive == Alive(State(), tls.State(), loopId)
    {
      HasPending() || interest > 0 || tls.HasPendingFutures(loopId)
    }

    /** Take task `id` and run it, unless it is no longer queued. */
    method RunIfQueued(id: nat) returns (ran: bool, ghost b: Batch)
      requires Valid()
      modifies this, tasks, registry, tls
      ensures Valid() && batchBuf == old(batchBuf)
      ensures b == RunOne(Batch(old(State()), [], []), id) && ran == (b.ran != [])
      ensures State() == b.state && tls.State() == FutOps(old(tls.State()), b.performed)
    {
      b := RunOne(Batch(State(), [], []), id);
      var entry := tasks.Remove(id);
      if entry.None? {
        assert tasks.entries == old(tasks.entries);
        return false, b;
      }
      var task := entry.value.task;
      assert [] + task.body + task.tail == task.body + task.tail;
      Run(id, task);
      return true, b;
    }

    /** Run the tasks of `batch` that are still queued when their turn comes. */
    method RunTasks(batch: seq<nat>) returns (ranAny: bool, ghost b: Batch)
      requires Valid()
      modifies this, tasks, registry, tls
      ensures Valid() && batchBuf == old(batchBuf)
      ensures b == RunBatch(old(State()), batch) && ranAny == (b.ran != [])
      ensures State() == b.state && tls.State() == FutOps(old(tls.State()), b.performed)
    {
      ranAny := false;
      b := Batch(State(), [], []);
      for i := 0 to |batch|
        invariant Valid() && batchBuf == old(batchBuf)
        invariant b == RunBatch(old(State()), batch[..i]) && ranAny == (b.ran != [])
        invariant State() == b.state && tls.State() == FutOps(old(tls.State()), b.performed)
      {
        assert batch[..i + 1][..i] == batch[..i];
        ghost var before := b;
        var ran, one := RunIfQueued(batch[i]);
        RunOneAfter(before, batch[i]);
        FutOpsConcat(old(tls.State()), before.performed, one.performed);
        b := RunOne(before, batch[i]);
        ranAny := ranAny || ran;
      }
      assert batch[..|batch|] == batch;
    }

    /** Run the tasks that are ready now, one batch. */
    method RunReady() returns (ranAny: bool, ghost b: Batch)
      requires Valid() && batchBuf == []
      modifies this, tasks, registry, tls
      ensures Valid() && batchBuf == []
      ensures b == RunBatch(old(State()), Ids(ReadyOrder(old(tasks.entries)))) && ranAny == (b.ran != [])
      ensures State() == b.state && tls.State() == FutOps(old(tls.State()), b.performed)
    {
      ReadyIsOrdered();
      var batch := batchBuf + Ids(tasks.ready);
      assert batch == Ids(ReadyOrder(tasks.entries));
      batchBuf := [];
      ranAny, b := RunTasks(batch);
      batchBuf := [];
    }

    /** Advance timers, then run the tasks that are ready. */
    method Step(now: nat) returns (outcome: StepOutcome, ghost b: Batch)
      requires Valid() && batchBuf == []
      modifies this, tasks, registry, tls
      ensures Valid() && batchBuf == []
      ensures b == StepRun(old(State()), now)
      ensures State() == b.state && tls.State() == FutOps(old(tls.State()), b.performed)
      ensures outcome == Outcome(b, tls.State(), loopId)
    {
      var count := AdvanceTimers(now);
      var ranAny;
      ranAny, b := RunReady();
      if ranAny {
        return Progressed, b;
      }
      return if IsAlive() then Idle else Done, b;
    }
  }
}
