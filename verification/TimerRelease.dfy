/** Releasing the id of a one-shot timer that fired, and what that does to other timers. */
module TimerReleases {
  import opened Common
  import opened Work
  import opened TaskQueues
  import opened TimerIds
  import opened EventLoops
  import L = LoopRuns

  // ---------------------------------------------------------------------------
  // Which tasks can still be cleared
  // ---------------------------------------------------------------------------

  /** Task `id` is queued, and some timer maps to it. */
  ghost predicate Controlled(s: LoopState, id: nat) {
    id in s.entries && exists timer :: timer in s.jsTimers && s.jsTimers[timer] == id
  }

  /** Clearing some timer finishes task `id` for good. */
  ghost predicate Clearable(s: LoopState, id: nat) {
    exists timer :: L.Gone(LoopOp(s, ClearJsTimer(timer)), id)
  }

  /** A queued task can be cleared exactly while a timer maps to it. */
  lemma {:induction false} ClearableWhileControlled(s: LoopState, id: nat)
    requires LoopInv(s) && id in s.entries
    ensures Clearable(s, id) <==> Controlled(s, id)
  {
    if Controlled(s, id) {
      var timer :| timer in s.jsTimers && s.jsTimers[timer] == id;
      assert L.Gone(LoopOp(s, ClearJsTimer(timer)), id);
    }
  }

  /** The release leaves every task that could be cleared so. */
  ghost predicate Harmless(s: LoopState, timer: nat) {
    forall id :: Controlled(s, id) ==> Controlled(LoopOp(s, JsTimerFired(timer)), id)
  }

  /** Releasing a timer id is harmless exactly when it does not map to a queued task. */
  lemma {:induction false} HarmlessExactlyIf(s: LoopState, timer: nat)
    requires LoopInv(s)
    ensures Harmless(s, timer) <==> (timer in s.jsTimers ==> s.jsTimers[timer] !in s.entries)
  {
    var t := LoopOp(s, JsTimerFired(timer));
    if timer in s.jsTimers && s.jsTimers[timer] in s.entries {
      assert Controlled(s, s.jsTimers[timer]);
      assert !Controlled(t, s.jsTimers[timer]);
    } else {
      forall id | Controlled(s, id)
        ensures Controlled(t, id)
      {
        var u :| u in s.jsTimers && s.jsTimers[u] == id;
        assert u in t.jsTimers && t.jsTimers[u] == id;
      }
    }
  }

  // ---------------------------------------------------------------------------
  // When a one-shot's release is harmless
  // ---------------------------------------------------------------------------

  /** A counter runs out during `ops`, which stops the program. */
  ghost predicate RunsOut(s: LoopState, ops: seq<Op>) {
    if ops == [] then false
    else
      var t, op := LoopOps(s, ops[..|ops| - 1]), ops[|ops| - 1];
      || RunsOut(s, ops[..|ops| - 1])
      || (op.QueueJsTimer? && Allocate(CounterOf(t.counters, op.global), t.jsTimers.Keys).id.None?)
  }

  /** The counter of every global that `ops` set timers of has passed `timer`. */
  ghost predicate Passed(s: LoopState, ops: seq<Op>, timer: nat) {
    forall op :: op in ops && op.QueueJsTimer? ==> timer < CounterOf(s.counters, op.global)
  }

  /** A timer's own global has passed it as soon as it is set. */
  lemma {:induction false} SettingPasses(s: LoopState, op: Op)
    requires LoopInv(s) && op.QueueJsTimer?
    ensures var t := LoopOp(s, op);
      forall timer :: timer in t.jsTimers && t.jsTimers[timer] == s.nextId ==>
        timer < CounterOf(t.counters, op.global)
  {
    AllocateFindsTheFirst(CounterOf(s.counters, op.global), s.jsTimers.Keys);
  }

  /** No counter moves back. */
  lemma {:induction false} CountersGrow(s: LoopState, ops: seq<Op>, global: nat)
    requires !RunsOut(s, ops)
    ensures CounterOf(s.counters, global) <= CounterOf(LoopOps(s, ops).counters, global)
  {
    if ops == [] {
    } else {
      var t, op := LoopOps(s, ops[..|ops| - 1]), ops[|ops| - 1];
      CountersGrow(s, ops[..|ops| - 1], global);
      if op.QueueJsTimer? {
        AllocateFindsTheFirst(CounterOf(t.counters, op.global), t.jsTimers.Keys);
      }
    }
  }

  /** An id that every counter in use has passed is not given out again. */
  lemma {:induction false} NotGivenOutAgain(s: LoopState, ops: seq<Op>, timer: nat)
    requires !RunsOut(s, ops) && Passed(s, ops, timer)
    ensures var t := LoopOps(s, ops);
      timer in t.jsTimers ==> timer in s.jsTimers && t.jsTimers[timer] == s.jsTimers[timer]
  {
    if ops == [] {
    } else {
      var t, op := LoopOps(s, ops[..|ops| - 1]), ops[|ops| - 1];
      NotGivenOutAgain(s, ops[..|ops| - 1], timer);
      if op.QueueJsTimer? {
        assert op in ops;
        CountersGrow(s, ops[..|ops| - 1], op.global);
        AllocateFindsTheFirst(CounterOf(t.counters, op.global), t.jsTimers.Keys);
      }
    }
  }

  /** A one-shot running as task `id` releases its timer after its handler. That is harmless exactly
      when the handler did not make the id map to another task that is still queued. It never does if
      each global it sets timers of has passed the id, as the global that issued the id has. */
  lemma {:induction false} OneShotReleasesItsOwn(s: LoopState, id: nat, timer: nat, handler: seq<Op>)
    requires LoopInv(s) && id !in s.entries && id < s.nextId
    requires timer in s.jsTimers && s.jsTimers[timer] == id
    ensures var t := LoopOps(s, handler);
      && (Harmless(t, timer) <==> (timer in t.jsTimers && t.jsTimers[timer] != id ==> t.jsTimers[timer] !in t.entries))
      && (!RunsOut(s, handler) && Passed(s, handler, timer) ==> Harmless(t, timer))
  {
    var t := LoopOps(s, handler);
    OpsKeepInv(s, handler);
    HarmlessExactlyIf(t, timer);
    if !RunsOut(s, handler) && Passed(s, handler, timer) {
      NotGivenOutAgain(s, handler, timer);
    }
  }

  // ---------------------------------------------------------------------------
  // A loop fed by one global
  // ---------------------------------------------------------------------------

  ghost predicate TaskRunsOut(s: LoopState, id: nat, task: Task) {
    RunsOut(s, task.body) || RunsOut(Requeued(LoopOps(s, task.body), id, task.again), task.tail)
  }

  ghost predicate BatchRunsOut(s: LoopState, ids: seq<nat>) {
    if ids == [] then false
    else
      var t, id := RunBatch(s, ids[..|ids| - 1]).state, ids[|ids| - 1];
      || BatchRunsOut(s, ids[..|ids| - 1])
      || (id in t.entries && TaskRunsOut(t.(entries := t.entries - {id}), id, t.entries[id].task))
  }

  ghost predicate ActRunsOut(s: LoopState, a: L.Action) {
    match a
    case StepAt(now) =>
      var t := s.(entries := Expired(s.entries, now));
      BatchRunsOut(t, Ids(ReadyOrder(t.entries)))
    case PopAndRun => ReadyOrder(s.entries) != [] && BatchRunsOut(s, [ReadyOrder(s.entries)[0].id])
    case AdvanceTo(_) => false
    case Outside(ops) => RunsOut(s, ops)
  }

  ghost predicate RunRunsOut(s: LoopState, actions: seq<L.Action>) {
    if actions == [] then false
    else
      || RunRunsOut(s, actions[..|actions| - 1])
      || ActRunsOut(L.Run(s, actions[..|actions| - 1]).state, actions[|actions| - 1])
  }

  lemma {:induction false} CountersGrowInBatch(s: LoopState, ids: seq<nat>, global: nat)
    requires !BatchRunsOut(s, ids)
    ensures CounterOf(s.counters, global) <= CounterOf(RunBatch(s, ids).state.counters, global)
  {
    if ids == [] {
    } else {
      var t, id := RunBatch(s, ids[..|ids| - 1]).state, ids[|ids| - 1];
      CountersGrowInBatch(s, ids[..|ids| - 1], global);
      if id in t.entries {
        var u, task := t.(entries := t.entries - {id}), t.entries[id].task;
        CountersGrow(u, task.body, global);
        CountersGrow(Requeued(LoopOps(u, task.body), id, task.again), task.tail, global);
      }
    }
  }

  lemma {:induction false} CountersGrowInRun(s: LoopState, actions: seq<L.Action>, global: nat)
    requires !RunRunsOut(s, actions)
    ensures CounterOf(s.counters, global) <= CounterOf(L.Run(s, actions).state.counters, global)
  {
    if actions == [] {
    } else {
      var t := L.Run(s, actions[..|actions| - 1]).state;
      CountersGrowInRun(s, actions[..|actions| - 1], global);
      match actions[|actions| - 1]
      case StepAt(now) =>
        var u := t.(entries := Expired(t.entries, now));
        CountersGrowInBatch(u, Ids(ReadyOrder(u.entries)), global);
      case PopAndRun =>
        if ReadyOrder(t.entries) != [] {
          CountersGrowInBatch(t, [ReadyOrder(t.entries)[0].id], global);
        }
      case AdvanceTo(_) =>
      case Outside(ops) => CountersGrow(t, ops, global);
    }
  }

  /** The state in which a one-shot's task `id` starts: its timer was set by `setting`, a run followed, and
      so did some tasks of the batch it is in. */
  ghost function Started(
      s: LoopState, setting: Op, actions: seq<L.Action>, now: nat, batch: seq<nat>, id: nat): LoopState
  {
    var u := L.Run(LoopOp(s, setting), actions).state;
    var v := RunBatch(u.(entries := Expired(u.entries, now)), batch).state;
    v.(entries := v.entries - {id})
  }

  ghost predicate NoneRunsOut(s: LoopState, setting: Op, actions: seq<L.Action>, now: nat, batch: seq<nat>) {
    var u := L.Run(LoopOp(s, setting), actions).state;
    !RunRunsOut(LoopOp(s, setting), actions) && !BatchRunsOut(u.(entries := Expired(u.entries, now)), batch)
  }

  /** However long ago its timer was set, and whatever ran since, the release is harmless after the
      handler of a one-shot that sets timers of its own global only. */
  lemma {:induction false} OneGlobalIsHarmless(
      s: LoopState, setting: Op, actions: seq<L.Action>, now: nat, batch: seq<nat>,
      timer: nat, handler: seq<Op>)
    requires LoopInv(s) && setting.QueueJsTimer? && NoneRunsOut(s, setting, actions, now, batch)
    requires forall op :: op in handler && op.QueueJsTimer? ==> op.global == setting.global
    requires var id, queued := s.nextId, LoopOp(s, setting);
      timer in queued.jsTimers && queued.jsTimers[timer] == id
    requires var v := Started(s, setting, actions, now, batch, s.nextId);
      timer in v.jsTimers && v.jsTimers[timer] == s.nextId && !RunsOut(v, handler)
    ensures Harmless(LoopOps(Started(s, setting, actions, now, batch, s.nextId), handler), timer)
  {
    var queued := LoopOp(s, setting);
    OpKeepsInv(s, setting);
    SettingPasses(s, setting);
    L.RunKeepsInv(queued, actions);
    CountersGrowInRun(queued, actions, setting.global);
    var u := L.Run(queued, actions).state;
    var expired := u.(entries := Expired(u.entries, now));
    L.BatchKeepsInv(expired, batch);
    CountersGrowInBatch(expired, batch, setting.global);
    OneShotReleasesItsOwn(Started(s, setting, actions, now, batch, s.nextId), s.nextId, timer, handler);
  }

  // ---------------------------------------------------------------------------
  // A harmful release
  // ---------------------------------------------------------------------------

  lemma {:induction false} OneOp(s: LoopState, a: Op)
    ensures LoopOps(s, [a]) == LoopOp(s, a)
  {
    assert [a][..0] == [];
  }

  lemma {:induction false} ThreeOps(s: LoopState, a: Op, b: Op, c: Op)
    ensures LoopOps(s, [a, b, c]) == LoopOp(LoopOp(LoopOp(s, a), b), c)
  {
    assert [a, b, c][..2] == [a, b] && [a, b][..1] == [a];
    OneOp(s, a);
    assert LoopOps(s, [a, b]) == LoopOp(LoopOp(s, a), b);
  }

  lemma {:induction false} OneAction(s: LoopState, a: L.Action)
    ensures L.Run(s, [a]) == L.Act(s, a)
  {
    assert [a][..0] == [];
    assert [] + L.Act(s, a).ran == L.Act(s, a).ran;
  }

  lemma {:induction false} TwoActions(s: LoopState, a: L.Action, b: L.Action)
    ensures var t := L.Act(s, a);
      var u := L.Act(t.state, b);
      L.Run(s, [a, b]) == L.Trace(u.state, t.ran + u.ran)
  {
    var both := [a, b];
    assert both[..|both| - 1] == [a] && both[|both| - 1] == b;
    OneAction(s, a);
  }

  /** A step whose one task is due runs just that task. */
  lemma {:induction false} OnlyTaskRuns(s: LoopState, id: nat, task: Task, deadline: nat, now: nat)
    requires s.entries == map[id := TaskEntry(id, task, false, Some(deadline))] && deadline <= now
    ensures var b := StepRun(s, now);
      b.ran == [Dispatch(id, task)] && b.state == TaskRun(s.(entries := map[]), id, task)
  {
    var entries := map[id := TaskEntry(id, task, true, Some(deadline))];
    assert Expired(s.entries, now) == entries;
    var t := s.(entries := entries);
    var k := Key(Some(deadline), id);
    SortedUnique(ReadyOrder(entries), [k]);
    assert Ids([k]) == [id] && [id][..0] == [];
    assert RunBatch(t, [id]) == RunOne(Batch(t, [], []), id);
    assert entries - {id} == map[];
  }

  function Handler(timeout: Task): seq<Op> {
    [ClearJsTimer(1), QueueJsTimer(timeout, 5, 2), JsTimerFired(1)]
  }

  function OneShot(timeout: Task): Task {
    Task(Handler(timeout), None, [])
  }

  /** The loop once the handler ran: its new timer's task is queued, and no timer maps to it. */
  function Fired(timeout: Task): LoopState {
    LoopState(2, map[1 := TaskEntry(1, timeout, false, Some(5))], map[], map[1 := 2, 2 := 2], 0, false)
  }

  /** The handler clears its own timer 1, of global 1, and sets a timer of global 2, whose counter
      gives 1 again. The release of the fired timer's id then releases the new timer's. */
  lemma {:induction false} HandlerLosesItsTimer(timeout: Task)
    ensures TaskRun(LoopState(1, map[], map[1 := 0], map[1 := 2], 0, false), 0, OneShot(timeout)) == Fired(timeout)
  {
    var s := LoopState(1, map[], map[1 := 0], map[1 := 2], 0, false);
    var h := Handler(timeout);
    ThreeOps(s, h[0], h[1], h[2]);
    var cleared := LoopOp(s, h[0]);
    assert cleared == LoopState(1, map[], map[], map[1 := 2], 0, false);
    assert Allocate(0, {}) == Allocate(1, {}) == Allocation(Some(1), 2);
    assert LoopOp(cleared, h[1])
      == LoopState(2, map[1 := TaskEntry(1, timeout, false, Some(5))], map[1 := 1], map[1 := 2, 2 := 2], 0, false);
  }

  lemma {:induction false} FirstTimer(task: Task)
    ensures L.Act(L.NEW_LOOP, L.Outside([QueueJsTimer(task, 0, 1)]))
      == L.Trace(LoopState(1, map[0 := TaskEntry(0, task, false, Some(0))], map[1 := 0], map[1 := 2], 0, false), [])
  {
    OneOp(L.NEW_LOOP, QueueJsTimer(task, 0, 1));
    assert L.NEW_LOOP.jsTimers.Keys == {};
    assert Allocate(0, {}) == Allocate(1, {}) == Allocation(Some(1), 2);
  }

  lemma {:induction false} FirstTimerFires(timeout: Task, s: LoopState)
    requires
      var entries := map[0 := TaskEntry(0, OneShot(timeout), false, Some(0))];
      s == LoopState(1, entries, map[1 := 0], map[1 := 2], 0, false)
    ensures L.Act(s, L.StepAt(0)) == L.Trace(Fired(timeout), [Dispatch(0, OneShot(timeout))])
  {
    OnlyTaskRuns(s, 0, OneShot(timeout), 0, 0);
    HandlerLosesItsTimer(timeout);
    assert s.(entries := map[]) == LoopState(1, map[], map[1 := 0], map[1 := 2], 0, false);
  }

  lemma {:induction false} FiredIsOutOfReach(timeout: Task)
    ensures LoopOp(Fired(timeout), ClearJsTimer(1)) == Fired(timeout)
    ensures StepRun(Fired(timeout), 5).ran == [Dispatch(1, timeout)]
  {
    OnlyTaskRuns(Fired(timeout), 1, timeout, 5, 5);
  }

  lemma {:induction false} FirstTimerRuns(timeout: Task)
    ensures L.Run(L.NEW_LOOP, [L.Outside([QueueJsTimer(OneShot(timeout), 0, 1)]), L.StepAt(0)])
      == L.Trace(Fired(timeout), [Dispatch(0, OneShot(timeout))])
  {
    var first := L.Outside([QueueJsTimer(OneShot(timeout), 0, 1)]);
    TwoActions(L.NEW_LOOP, first, L.StepAt(0));
    FirstTimer(OneShot(timeout));
    FirstTimerFires(timeout, L.Act(L.NEW_LOOP, first).state);
  }

  /** A release that is not harmless, in a run of a new loop: global 1 sets one-shot timer 1, it fires,
      and afterwards clearing timer 1 changes nothing, and the task of the timer set last runs. */
  lemma {:induction false} FiredMayReleaseAnotherTimer(timeout: Task)
    ensures
      var r := L.Run(L.NEW_LOOP, [L.Outside([QueueJsTimer(OneShot(timeout), 0, 1)]), L.StepAt(0)]);
      && r == L.Trace(Fired(timeout), [Dispatch(0, OneShot(timeout))])
      && LoopOp(r.state, ClearJsTimer(1)) == r.state
      && StepRun(r.state, 5).ran == [Dispatch(1, timeout)]
  {
    FirstTimerRuns(timeout);
    FiredIsOutOfReach(timeout);
  }
}
