/** Which task runs first, and what running it does, in terms of the tasks alone. */
module DispatchOrders {
  import opened Common
  import opened Work
  import opened TaskQueues
  import opened TimerIds
  import opened EventLoops
  import L = LoopRuns

  // ---------------------------------------------------------------------------
  // The order
  // ---------------------------------------------------------------------------

  /** `e` runs before `f`: tasks that are not timers first, in the order they were queued, then timers
      by deadline, and those of one deadline in the order they were queued. */
  predicate RunsFirst(e: TaskEntry, f: TaskEntry) {
    match e.deadline
    case None => f.deadline.Some? || e.id < f.id
    case Some(d) => f.deadline.Some? && (d < f.deadline.value || (d == f.deadline.value && e.id < f.id))
  }

  /** Of any two tasks a step runs, the earlier is not a timer while the later is, or has the earlier
      deadline, or, all else equal, was queued first. */
  lemma {:induction false} StepRunsInOrder(s: LoopState, now: nat)
    requires LoopInv(s)
    ensures var ran := StepRun(s, now).ran;
      && (forall d :: d in ran ==> d.id in s.entries && d.task == s.entries[d.id].task)
      && forall i, j :: 0 <= i < j < |ran| ==>
          && ran[i].id in s.entries && ran[j].id in s.entries
          && RunsFirst(s.entries[ran[i].id], s.entries[ran[j].id])
  {
    L.StepDispatches(s, now);
    var t, ran := s.(entries := Expired(s.entries, now)), StepRun(s, now).ran;
    forall i, j | 0 <= i < j < |ran|
      ensures ran[i].id in s.entries && ran[j].id in s.entries
      ensures RunsFirst(s.entries[ran[i].id], s.entries[ran[j].id])
    {
      assert ran[i] in ran && ran[j] in ran;
      assert Before(L.DispatchKey(t, ran[i]), L.DispatchKey(t, ran[j]));
    }
  }

  /** Popping runs the ready task that runs before all other ready ones, and nothing if none is. */
  lemma {:induction false} PopRunsTheFirst(s: LoopState)
    requires LoopInv(s)
    ensures var ran := L.Act(s, L.PopAndRun).ran;
      if forall id :: id in s.entries ==> !s.entries[id].ready then ran == []
      else
        && |ran| == 1 && ran[0].id in s.entries
        && s.entries[ran[0].id].ready && ran[0].task == s.entries[ran[0].id].task
        && forall id :: id in s.entries && s.entries[id].ready && id != ran[0].id ==>
            RunsFirst(s.entries[ran[0].id], s.entries[id])
  {
    var order := ReadyOrder(s.entries);
    if order != [] {
      L.PopRunsTheFirst(s);
      var first := order[0];
      assert first in order;
      forall id | id in s.entries && s.entries[id].ready && id != first.id
        ensures RunsFirst(s.entries[first.id], s.entries[id])
      {
        var k := Key(s.entries[id].deadline, id);
        assert k in order;
        assert Before(first, k);
      }
    } else {
      forall id | id in s.entries
        ensures !s.entries[id].ready
      {
        assert Key(s.entries[id].deadline, id) !in order;
      }
    }
  }

  // ---------------------------------------------------------------------------
  // First queued, first run
  // ---------------------------------------------------------------------------

  /** Two tasks queued alike: as ready, or for the same time. */
  predicate QueuedAlike(a: Op, b: Op) {
    || (a.QueueReady? && b.QueueReady?)
    || (a.QueueTimer? && b.QueueTimer? && a.deadline == b.deadline)
  }

  function DeadlineOf(op: Op): Option<nat>
    requires op.QueueReady? || op.QueueTimer?
  {
    if op.QueueTimer? then Some(op.deadline) else None
  }

  lemma {:induction false} OneOp(s: LoopState, op: Op)
    ensures LoopOps(s, [op]) == LoopOp(s, op)
  {
    assert [op][..0] == [];
  }

  lemma {:induction false} OpsThenOp(s: LoopState, ops: seq<Op>, op: Op)
    ensures LoopOps(s, ops + [op]) == LoopOp(LoopOps(s, ops), op)
  {
    assert (ops + [op])[..|ops|] == ops;
  }

  lemma {:induction false} OpsThenOps(s: LoopState, a: seq<Op>, b: seq<Op>)
    ensures LoopOps(s, a + b) == LoopOps(LoopOps(s, a), b)
  {
    if b == [] {
      assert a + b == a;
    } else {
      OpsThenOps(s, a, b[..|b| - 1]);
      assert (a + b)[..|a + b| - 1] == a + b[..|b| - 1];
    }
  }

  /** What a task was queued with stays while it is queued. */
  lemma {:induction false} QueuedStays(s: LoopState, op: Op, more: seq<Op>)
    requires LoopInv(s) && (op.QueueReady? || op.QueueTimer?)
    ensures var t := LoopOps(s, [op] + more);
      && LoopInv(t) && s.nextId < t.nextId
      && (s.nextId in t.entries ==>
          t.entries[s.nextId].task == op.task && t.entries[s.nextId].deadline == DeadlineOf(op))
  {
    OneOp(s, op);
    OpsThenOps(s, [op], more);
    OpKeepsInv(s, op);
    OpsKeepInv(LoopOp(s, op), more);
  }

  /** Both tasks keep what they were queued with. */
  lemma {:induction false} BothStay(s: LoopState, a: Op, between: seq<Op>, b: Op)
    requires LoopInv(s) && QueuedAlike(a, b)
    ensures
      var u, t := LoopOps(s, [a] + between), LoopOps(s, [a] + between + [b]);
      && LoopInv(t) && s.nextId < u.nextId
      && forall id :: id in t.entries && (id == s.nextId || id == u.nextId) ==> t.entries[id].deadline == DeadlineOf(a)
  {
    var u := LoopOps(s, [a] + between);
    QueuedStays(s, a, between);
    OpsThenOp(s, [a] + between, b);
    assert [b] + [] == [b];
    OneOp(u, b);
    QueuedStays(u, b, []);
    assert [a] + between + [b] == [a] + (between + [b]);
    QueuedStays(s, a, between + [b]);
  }

  /** Of two tasks queued alike, with any operations in between, a step runs the one queued first
      first. */
  lemma {:induction false} FirstQueuedRunsFirst(s: LoopState, a: Op, between: seq<Op>, b: Op, now: nat)
    requires LoopInv(s) && QueuedAlike(a, b)
    ensures
      var first, second := s.nextId, LoopOps(s, [a] + between).nextId;
      var ran := StepRun(LoopOps(s, [a] + between + [b]), now).ran;
      forall i, j :: 0 <= i < |ran| && 0 <= j < |ran| && ran[i].id == first && ran[j].id == second ==> i < j
  {
    var t := LoopOps(s, [a] + between + [b]);
    BothStay(s, a, between, b);
    StepRunsInOrder(t, now);
    var ran := StepRun(t, now).ran;
    forall i, j | 0 <= i < |ran| && 0 <= j < |ran| && ran[i].id < ran[j].id
      && t.entries[ran[i].id].deadline == t.entries[ran[j].id].deadline
      ensures i < j
    {
    }
    assert forall i :: 0 <= i < |ran| ==> ran[i] in ran;
  }

  /** Two tasks just queued alike are all that is ready, when nothing else is by then. */
  lemma {:induction false} BothReady(s: LoopState, a: Op, b: Op, now: nat)
    requires LoopInv(s) && QueuedAlike(a, b)
    requires a.QueueTimer? ==> a.deadline <= now
    requires forall id :: id in s.entries ==> !s.entries[id].ready && !IsDue(s.entries[id], now)
    ensures
      var t, first := L.Act(LoopOps(s, [a, b]), L.AdvanceTo(now)).state, s.nextId;
      && LoopInv(t)
      && (forall id :: id in t.entries && t.entries[id].ready <==> id == first || id == first + 1)
      && t.entries[first] == TaskEntry(first, a.task, true, DeadlineOf(a))
      && t.entries[first + 1] == TaskEntry(first + 1, b.task, true, DeadlineOf(a))
  {
    assert [a, b] == [a] + [b];
    OneOp(s, a);
    OpsThenOp(s, [a], b);
    OpKeepsInv(s, a);
    OpKeepsInv(LoopOp(s, a), b);
    var first, deadline, u := s.nextId, DeadlineOf(a), LoopOps(s, [a, b]);
    var e := TaskEntry(first, a.task, a.QueueReady?, deadline);
    var f := TaskEntry(first + 1, b.task, a.QueueReady?, deadline);
    assert u.entries == s.entries[first := e][first + 1 := f];
    BothExpire(s.entries, e, f, now);
  }

  lemma {:induction false} BothExpire(entries: Store, e: TaskEntry, f: TaskEntry, now: nat)
    requires forall id :: id in entries ==> !entries[id].ready && !IsDue(entries[id], now)
    requires (e.ready || IsDue(e, now)) && (f.ready || IsDue(f, now)) && e.id != f.id
    ensures
      var t := Expired(entries[e.id := e][f.id := f], now);
      && (forall id :: id in t && t[id].ready <==> id == e.id || id == f.id)
      && t[e.id] == e.(ready := true) && t[f.id] == f.(ready := true)
  {
  }

  /** Of two tasks just queued alike, popping takes the one queued first, when no other is ready by
      then. */
  lemma {:induction false} FirstQueuedPopsFirst(s: LoopState, a: Op, b: Op, now: nat)
    requires LoopInv(s) && QueuedAlike(a, b)
    requires a.QueueTimer? ==> a.deadline <= now
    requires forall id :: id in s.entries ==> !s.entries[id].ready && !IsDue(s.entries[id], now)
    ensures
      var t := L.Act(LoopOps(s, [a, b]), L.AdvanceTo(now)).state;
      L.Act(t, L.PopAndRun).ran == [Dispatch(s.nextId, a.task)]
  {
    BothReady(s, a, b, now);
    var t, first := L.Act(LoopOps(s, [a, b]), L.AdvanceTo(now)).state, s.nextId;
    PopRunsTheFirst(t);
    var ran := L.Act(t, L.PopAndRun).ran;
    assert t.entries[first].ready;
    assert ran[0].id != first ==> RunsFirst(t.entries[ran[0].id], t.entries[first]);
  }

  // ---------------------------------------------------------------------------
  // What a queued task runs as
  // ---------------------------------------------------------------------------

  /** A queued task runs, as it was queued, in a step exactly when it was queued as ready, signalled, or
      is a timer whose deadline has come, and the step does not cancel it before its turn. */
  lemma {:induction false} QueuedRunsExactlyIf(s: LoopState, op: Op, signalled: bool, now: nat)
    requires LoopInv(s) && (op.Queue? || op.QueueReady? || op.QueueTimer?)
    ensures
      var id, u := s.nextId, LoopOps(s, if signalled then [op, SignalReady(s.nextId)] else [op]);
      var t := u.(entries := Expired(u.entries, now));
      Dispatch(id, op.task) in StepRun(u, now).ran <==>
      (op.QueueReady? || signalled || (op.QueueTimer? && op.deadline <= now))
      && !L.CancelledBefore(t, Ids(ReadyOrder(t.entries)), id)
  {
    var id, queued := s.nextId, LoopOp(s, op);
    OpKeepsInv(s, op);
    OpKeepsInv(queued, SignalReady(id));
    OneOp(s, op);
    OpsThenOp(s, [op], SignalReady(id));
    assert [op] + [SignalReady(id)] == [op, SignalReady(id)];
    var u := if signalled then LoopOp(queued, SignalReady(id)) else queued;
    RunsAsQueued(u, now, id);
  }

  /** So does the task of a JavaScript timer, and the timer id it got maps to it. */
  lemma {:induction false} JsTimerRunsExactlyIf(s: LoopState, op: Op, signalled: bool, now: nat)
    requires LoopInv(s) && op.QueueJsTimer?
    requires Allocate(CounterOf(s.counters, op.global), s.jsTimers.Keys).id.Some?
    ensures
      var id, u := s.nextId, LoopOps(s, if signalled then [op, SignalReady(s.nextId)] else [op]);
      var timer := Allocate(CounterOf(s.counters, op.global), s.jsTimers.Keys).id.value;
      var t := u.(entries := Expired(u.entries, now));
      && u.jsTimers == s.jsTimers[timer := id]
      && (Dispatch(id, op.task) in StepRun(u, now).ran <==>
          (signalled || op.deadline <= now) && !L.CancelledBefore(t, Ids(ReadyOrder(t.entries)), id))
  {
    var id, queued := s.nextId, LoopOp(s, op);
    OpKeepsInv(s, op);
    OpKeepsInv(queued, SignalReady(id));
    OneOp(s, op);
    OpsThenOp(s, [op], SignalReady(id));
    assert [op] + [SignalReady(id)] == [op, SignalReady(id)];
    var u := if signalled then LoopOp(queued, SignalReady(id)) else queued;
    RunsAsQueued(u, now, id);
  }

  lemma {:induction false} RunsAsQueued(s: LoopState, now: nat, id: nat)
    requires LoopInv(s) && id in s.entries
    ensures var t := s.(entries := Expired(s.entries, now));
      Dispatch(id, s.entries[id].task) in StepRun(s, now).ran <==>
      (s.entries[id].ready || IsDue(s.entries[id], now))
      && !L.CancelledBefore(t, Ids(ReadyOrder(t.entries)), id)
  {
    L.StepRunsExactlyIf(s, now, id);
    StepRunsInOrder(s, now);
    var ran := StepRun(s, now).ran;
    if L.Dispatched(ran, id) {
      var d :| d in ran && d.id == id;
      assert d == Dispatch(id, s.entries[id].task);
    }
  }

  // ---------------------------------------------------------------------------
  // What a step performs
  // ---------------------------------------------------------------------------

  /** The handlers of the tasks, each followed by the microtasks drained after it. */
  function OpsOf(ran: seq<Dispatch>): seq<Op> {
    if ran == [] then []
    else
      var last := ran[|ran| - 1].task;
      OpsOf(ran[..|ran| - 1]) + (last.body + last.tail)
  }

  /** A batch performs, in dispatch order, exactly what its tasks do. */
  lemma {:induction false} BatchPerforms(s: LoopState, ids: seq<nat>)
    ensures RunBatch(s, ids).performed == OpsOf(RunBatch(s, ids).ran)
  {
    if ids == [] {
    } else {
      var before, b, id := RunBatch(s, ids[..|ids| - 1]), RunBatch(s, ids), ids[|ids| - 1];
      BatchPerforms(s, ids[..|ids| - 1]);
      if id in before.state.entries {
        assert b.ran[..|b.ran| - 1] == before.ran;
      }
    }
  }

  lemma {:induction false} StepPerforms(s: LoopState, now: nat)
    ensures StepRun(s, now).performed == OpsOf(StepRun(s, now).ran)
  {
    var t := s.(entries := Expired(s.entries, now));
    BatchPerforms(t, Ids(ReadyOrder(t.entries)));
  }
}
