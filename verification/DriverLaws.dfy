/** What the driver does, in terms of what is queued, performed and asked for. */
module DriverLaws {
  import opened Common
  import opened Work
  import opened TaskQueues
  import opened TimerIds
  import opened Futures
  import F = FutureRuns
  import opened EventLoops
  import L = LoopRuns
  import O = DispatchOrders
  import P = PollContents
  import K = KeepingAlive
  import opened Drivers

  // ---------------------------------------------------------------------------
  // Steps
  // ---------------------------------------------------------------------------

  /** A task is queued, interest is held, or a future of loop `el`, or an unowned one, is queued. */
  ghost predicate SomethingLeft(w: World, el: nat) {
    || (exists id :: id in w.loop.entries)
    || w.loop.interest > 0
    || (exists f :: f in w.futs.active + w.futs.pending && (f.owner == el || f.owner == 0))
  }

  /** A step's outcome tells what it ran and left: progress if it ran a task, else idle if something is
      left, else done. */
  lemma {:induction false} OutcomeTells(w: World, el: nat, now: nat)
    ensures
      var ran, left := StepRun(w.loop, now).ran, SomethingLeft(StepWorld(w, el, now), el);
      && (StepOutcomeOf(w, el, now) == Progressed <==> ran != [])
      && (StepOutcomeOf(w, el, now) == Idle <==> ran == [] && left)
      && (StepOutcomeOf(w, el, now) == Done <==> ran == [] && !left)
  {
    var entries := StepWorld(w, el, now).loop.entries;
    assert entries != map[] <==> exists id :: id in entries by {
      if forall id :: id !in entries {
        assert entries == map[];
      }
    }
  }

  function Spawns(ops: seq<Op>): nat {
    if ops == [] then 0 else Spawns(ops[..|ops| - 1]) + if ops[|ops| - 1].Spawn? then 1 else 0
  }

  lemma {:induction false} SpawnsAreOwned(s: FutState, ops: seq<Op>)
    ensures var t := FutOps(s, ops);
      && t.owner == s.owner && s.spawned <= t.spawned && |t.spawned| == |s.spawned| + Spawns(ops)
      && forall n :: |s.spawned| <= n < |t.spawned| ==> t.spawned[n] == s.owner
  {
    if ops == [] {
    } else {
      SpawnsAreOwned(s, ops[..|ops| - 1]);
    }
  }

  /** A step's tasks do to the futures, with the loop active, what they do in dispatch order. Whatever
      they spawn is the loop's. */
  lemma {:induction false} StepDoes(w: World, el: nat, now: nat)
    ensures
      var ops, t := O.OpsOf(StepRun(w.loop, now).ran), StepWorld(w, el, now).futs;
      && t == F.Act(w.futs, F.Within(el, ops))
      && |t.spawned| == |w.futs.spawned| + Spawns(ops)
      && forall n :: |w.futs.spawned| <= n < |t.spawned| ==> t.spawned[n] == el
  {
    O.StepPerforms(w.loop, now);
    SpawnsAreOwned(w.futs.(owner := el), StepRun(w.loop, now).performed);
  }

  // ---------------------------------------------------------------------------
  // Polls
  // ---------------------------------------------------------------------------

  /** Polling and settling performs on the loop what the polled futures do, in spawn order, and then
      what they leave to run. It does the same to the futures, with the loop active both times, and it
      ends a wait exactly if some future finished or left microtasks. */
  lemma {:induction false} PollAndSettleDoes(w: World, el: nat)
    requires F.Inv(w.futs)
    ensures
      var queue := w.futs.active + w.futs.pending;
      var settled := F.Act(F.Act(w.futs, F.PollBy(el)), F.Within(el, P.ToRun(queue, el)));
      && PollAndSettle(w, el) == World(LoopOps(w.loop, P.Effects(queue, el) + P.ToRun(queue, el)), settled)
      && (PollEndsWait(w, el) <==> P.SomeProgress(queue, el))
  {
    var s, queue := w.futs.(owner := el), w.futs.active + w.futs.pending;
    F.OwnerAside(w.futs, el);
    P.PollDoes(s, el);
    O.OpsThenOps(w.loop, P.Effects(queue, el), P.ToRun(queue, el));
  }

  /** What is spawned while polling and settling is the loop's. */
  lemma {:induction false} PollAndSettleSpawns(w: World, el: nat)
    requires F.Inv(w.futs)
    ensures
      var queue, t := w.futs.active + w.futs.pending, PollAndSettle(w, el).futs;
      && |t.spawned| == |w.futs.spawned| + Spawns(P.Effects(queue, el)) + Spawns(P.ToRun(queue, el))
      && forall n :: |w.futs.spawned| <= n < |t.spawned| ==> t.spawned[n] == el
  {
    var s, queue := w.futs.(owner := el), w.futs.active + w.futs.pending;
    F.OwnerAside(w.futs, el);
    P.PollDoes(s, el);
    PollAndSettleDoes(w, el);
    SpawnsAreOwned(s.(active := [], pending := []), P.Effects(queue, el));
    SpawnsAreOwned(F.Act(w.futs, F.PollBy(el)).(owner := el), P.ToRun(queue, el));
  }

  /** What events do to the futures: what reaches the loop from outside acts under the owner in force,
      and other loops act as themselves. */
  function ActionsOf(owner: nat, events: seq<Event>): seq<F.Action> {
    if events == [] then []
    else
      ActionsOf(owner, events[..|events| - 1]) +
      match events[|events| - 1]
      case Outside(op) => [F.Within(owner, [op])]
      case Elsewhere(action) => [action]
      case TimersSet(_, _) => []
  }

  lemma {:induction false} EventsAct(w: World, events: seq<Event>)
    ensures var futs := HappenAll(w, events).futs;
      futs == F.Run(w.futs, ActionsOf(w.futs.owner, events)) && futs.owner == w.futs.owner
  {
    if events == [] {
    } else {
      var front, last := events[..|events| - 1], events[|events| - 1];
      var v, actions := HappenAll(w, front), ActionsOf(w.futs.owner, front);
      EventsAct(w, front);
      match last
      case Outside(op) =>
        F.OneOp(v.futs, op);
        SpawnsAreOwned(v.futs, [op]);
        assert v.futs.(owner := w.futs.owner) == v.futs;
        RunThenAct(w.futs, actions, F.Within(w.futs.owner, [op]));
      case Elsewhere(action) =>
        OwnerIsRestored(v.futs, action);
        RunThenAct(w.futs, actions, action);
      case TimersSet(_, _) =>
        assert ActionsOf(w.futs.owner, events) == actions;
    }
  }

  /** How many ids of `global` other loops take. */
  function TakenElsewhere(events: seq<Event>, global: nat): nat {
    if events == [] then 0
    else
      var last := events[|events| - 1];
      TakenElsewhere(events[..|events| - 1], global) +
      if last.TimersSet? && last.global == global then last.count else 0
  }

  /** Ids that other loops take of a shared global move its counter here too. */
  lemma {:induction false} TakenElsewhereCounts(w: World, events: seq<Event>, global: nat)
    requires forall e :: e in events ==> !(e.Outside? && e.op.QueueJsTimer?)
    ensures CounterOf(HappenAll(w, events).loop.counters, global)
      == CounterOf(w.loop.counters, global) + TakenElsewhere(events, global)
  {
    if events == [] {
    } else {
      var front, last := events[..|events| - 1], events[|events| - 1];
      TakenElsewhereCounts(w, front, global);
      assert last in events;
    }
  }

  lemma {:induction false} RunThenAct(s: FutState, actions: seq<F.Action>, a: F.Action)
    ensures F.Run(s, actions + [a]) == F.Act(F.Run(s, actions), a)
  {
    assert (actions + [a])[..|actions|] == actions;
  }

  lemma {:induction false} OwnerIsRestored(s: FutState, a: F.Action)
    ensures F.Act(s, a).owner == s.owner
  {
  }

  // ---------------------------------------------------------------------------
  // What the loop performs over turns
  // ---------------------------------------------------------------------------

  function EventOps(events: seq<Event>): seq<Op> {
    if events == [] then []
    else
      var last := events[|events| - 1];
      EventOps(events[..|events| - 1]) + if last.Outside? then [last.op] else []
  }

  ghost function PollOps(w: World, el: nat): seq<Op> {
    var queue := w.futs.active + w.futs.pending;
    P.Effects(queue, el) + P.ToRun(queue, el)
  }

  ghost function WaitOps(w: World, el: nat, rounds: seq<seq<Event>>, pause: seq<Event>): seq<Op>
    decreases |rounds|
  {
    if rounds == [] then EventOps(pause)
    else
      var v := HappenAll(w, rounds[0]);
      EventOps(rounds[0]) + PollOps(v, el) +
      if P.SomeProgress(v.futs.active + v.futs.pending, el) then []
      else WaitOps(PollAndSettle(v, el), el, rounds[1..], pause)
  }

  /** All that is performed on the loop in a turn: by its step's tasks, and, unless the turn ends the
      driver, by events and polls. */
  ghost function TurnOps(w: World, el: nat, c: Choices): seq<Op> {
    var ran, v := StepRun(w.loop, c.now).ran, StepWorld(w, el, c.now);
    O.OpsOf(ran) +
    if Turn(w, el, c).verdict != Continues then []
    else if ran != [] then EventOps(c.pause) + PollOps(HappenAll(v, c.pause), el)
    else WaitOps(v, el, c.rounds, c.pause)
  }

  ghost function DriveOps(w: World, el: nat, turns: seq<Choices>): seq<Op> {
    if turns == [] then []
    else
      var before := Drive(w, el, turns[..|turns| - 1]);
      DriveOps(w, el, turns[..|turns| - 1]) +
      if before.verdict != Continues then [] else TurnOps(before.world, el, turns[|turns| - 1])
  }

  lemma {:induction false} EventsFollow(w: World, events: seq<Event>)
    ensures K.Follows(w.loop, EventOps(events), HappenAll(w, events).loop)
  {
    if events == [] {
    } else {
      var front, last := events[..|events| - 1], events[|events| - 1];
      var v := HappenAll(w, front);
      EventsFollow(w, front);
      if last.Outside? {
        O.OneOp(v.loop, last.op);
        K.FollowsOn(w.loop, EventOps(front), v.loop, [last.op]);
      } else {
        assert EventOps(events) == EventOps(front);
      }
    }
  }

  lemma {:induction false} PollFollows(w: World, el: nat)
    requires F.Inv(w.futs)
    ensures K.Follows(w.loop, PollOps(w, el), PollAndSettle(w, el).loop)
  {
    PollAndSettleDoes(w, el);
  }

  lemma {:induction false} EventsAndPollFollow(w: World, el: nat, events: seq<Event>)
    requires WorldInv(w)
    ensures
      var v := HappenAll(w, events);
      K.Follows(w.loop, EventOps(events) + PollOps(v, el), PollAndSettle(v, el).loop)
      && WorldInv(v) && WorldInv(PollAndSettle(v, el))
  {
    var v := HappenAll(w, events);
    EventsFollow(w, events);
    AllHappensOnward(w, events);
    PollFollows(v, el);
    PollsOnward(v, el);
    K.FollowsThrough(w.loop, EventOps(events), v.loop, PollOps(v, el), PollAndSettle(v, el).loop);
  }

  lemma {:induction false} WaitFollows(w: World, el: nat, rounds: seq<seq<Event>>, pause: seq<Event>)
    requires WorldInv(w)
    ensures K.Follows(w.loop, WaitOps(w, el, rounds, pause), Wait(w, el, rounds, pause).loop)
    decreases |rounds|
  {
    if rounds == [] {
      EventsFollow(w, pause);
    } else {
      var v := HappenAll(w, rounds[0]);
      var first, u := EventOps(rounds[0]) + PollOps(v, el), PollAndSettle(v, el);
      EventsAndPollFollow(w, el, rounds[0]);
      PollAndSettleDoes(v, el);
      if PollEndsWait(v, el) {
        assert WaitOps(w, el, rounds, pause) == first;
      } else {
        var rest := WaitOps(u, el, rounds[1..], pause);
        WaitFollows(u, el, rounds[1..], pause);
        K.FollowsThrough(w.loop, first, u.loop, rest, Wait(u, el, rounds[1..], pause).loop);
        assert WaitOps(w, el, rounds, pause) == first + rest;
      }
    }
  }

  lemma {:induction false} TurnFollows(w: World, el: nat, c: Choices)
    requires WorldInv(w)
    ensures K.Follows(w.loop, TurnOps(w, el, c), Turn(w, el, c).world.loop)
  {
    var ran, v := StepRun(w.loop, c.now).ran, StepWorld(w, el, c.now);
    var first, t := O.OpsOf(ran), Turn(w, el, c).world;
    K.StepFollows(w.loop, c.now);
    StepsOnward(w, el, c.now);
    OutcomeTells(w, el, c.now);
    if Turn(w, el, c).verdict != Continues {
      assert TurnOps(w, el, c) == first;
    } else if ran != [] {
      EventsAndPollFollow(v, el, c.pause);
      var rest := EventOps(c.pause) + PollOps(HappenAll(v, c.pause), el);
      K.FollowsThrough(w.loop, first, v.loop, rest, t.loop);
      assert TurnOps(w, el, c) == first + rest;
    } else {
      WaitFollows(v, el, c.rounds, c.pause);
      var rest := WaitOps(v, el, c.rounds, c.pause);
      K.FollowsThrough(w.loop, first, v.loop, rest, t.loop);
      assert TurnOps(w, el, c) == first + rest;
    }
  }

  lemma {:induction false} DriveFollows(w: World, el: nat, turns: seq<Choices>)
    requires WorldInv(w) && el != 0
    ensures K.Follows(w.loop, DriveOps(w, el, turns), Drive(w, el, turns).world.loop)
  {
    if turns == [] {
    } else {
      var front, last := turns[..|turns| - 1], turns[|turns| - 1];
      var before := Drive(w, el, front);
      DriveFollows(w, el, front);
      if before.verdict == Continues {
        ReturnsWhenQuiet(w, el, front);
        TurnFollows(before.world, el, last);
        K.FollowsThrough(w.loop, DriveOps(w, el, front), before.world.loop,
                         TurnOps(before.world, el, last), Drive(w, el, turns).world.loop);
      } else {
        assert DriveOps(w, el, turns) == DriveOps(w, el, front);
      }
    }
  }

  // ---------------------------------------------------------------------------
  // Interest and stop requests
  // ---------------------------------------------------------------------------

  /** While more interest was taken than given up, from any moment on and in whatever is performed
      since, the driver does not return for want of work, and a step's outcome is not `Done`. */
  lemma {:induction false} HeldInterestKeepsDriving(
      s: LoopState, futs: FutState, el: nat, before: seq<Op>, since: seq<Op>, turns: seq<Choices>, now: nat)
    requires WorldInv(World(LoopOps(s, before + since), futs)) && el != 0
    ensures
      var w := World(LoopOps(s, before + since), futs);
      var t := Drive(w, el, turns);
      var released := K.Released(since) + K.Released(DriveOps(w, el, turns));
      var byStep := K.Released(O.OpsOf(StepRun(t.world.loop, now).ran));
      && (K.Acquired(since) > released ==> t.verdict != Finished && t.world.loop.interest > 0)
      && (K.Acquired(since) > released + byStep ==> StepOutcomeOf(t.world, el, now) != Done)
  {
    var w := World(LoopOps(s, before + since), futs);
    var ops, t := DriveOps(w, el, turns), Drive(w, el, turns);
    K.InterestIsHeld(s, before, since);
    DriveFollows(w, el, turns);
    K.InterestBalances(w.loop, ops);
    ReturnsWhenQuiet(w, el, turns);
    K.StepFollows(t.world.loop, now);
    K.InterestBalances(t.world.loop, O.OpsOf(StepRun(t.world.loop, now).ran));
  }

  /** And once all that was taken is given up, interest no longer keeps the loop alive. */
  lemma {:induction false} GivenUpInterestIsGone(s: LoopState, ops: seq<Op>)
    requires forall i :: 0 <= i <= |ops| ==> s.interest + K.Acquired(ops[..i]) >= K.Released(ops[..i])
    ensures LoopOps(s, ops).interest == 0 <==> s.interest + K.Acquired(ops) == K.Released(ops)
  {
    K.InterestBalances(s, ops);
    assert ops[..|ops|] == ops;
  }

  /** Each turn returns for one reason, in this order: a stop was requested by then, which drops the
      loop's own futures and no others; the caller wants to stop, which leaves everything in place; or
      nothing ran and nothing is left. */
  lemma {:induction false} TurnReturnsExactlyIf(w: World, el: nat, c: Choices)
    requires el != 0
    ensures
      var ran, v, t := StepRun(w.loop, c.now).ran, StepWorld(w, el, c.now), Turn(w, el, c);
      var stop := w.loop.stop || RequestStop in O.OpsOf(ran);
      && (t.verdict == Stopped <==> stop)
      && (t.verdict == CallerDone <==> !stop && c.callerStop)
      && (t.verdict == Finished <==> !stop && !c.callerStop && ran == [] && !SomethingLeft(v, el))
      && (t.verdict == CallerDone || t.verdict == Finished ==> t.world == v)
      && (t.verdict == Stopped ==>
            && t.world.loop == v.loop
            && forall f :: f in t.world.futs.active + t.world.futs.pending <==>
                f in v.futs.active + v.futs.pending && f.owner != el)
  {
    var b := StepRun(w.loop, c.now);
    K.StepFollows(w.loop, c.now);
    K.StopIsRequested(w.loop, O.OpsOf(b.ran));
    OutcomeTells(w, el, c.now);
  }

  /** A stop requested in any turn, by a task, a poll, a reaction or from outside, is what the driver
      returns for, in that turn or the next. */
  lemma {:induction false} RequestedStopStops(w: World, el: nat, turns: seq<Choices>, c: Choices)
    requires WorldInv(w) && el != 0 && RequestStop in DriveOps(w, el, turns)
    requires Drive(w, el, turns).verdict == Continues
    ensures Drive(w, el, turns + [c]).verdict == Stopped
  {
    var t := Drive(w, el, turns);
    DriveFollows(w, el, turns);
    K.StopIsRequested(w.loop, DriveOps(w, el, turns));
    assert (turns + [c])[..|turns|] == turns;
    TurnReturnsExactlyIf(t.world, el, c);
  }

  // ---------------------------------------------------------------------------
  // Waking up
  // ---------------------------------------------------------------------------

  /** A task queued as ready from outside, which ends an idle wait, runs in the step that follows,
      unless that step cancels it before its turn. */
  lemma {:induction false} WokenTaskRuns(w: World, el: nat, c: Choices, events: seq<Event>, task: Task, now: nat)
    requires WorldInv(w) && c.rounds == [] && c.pause == events + [Outside(QueueReady(task))]
    requires StepRun(w.loop, c.now).ran == [] && Turn(w, el, c).verdict == Continues
    ensures
      var id := HappenAll(StepWorld(w, el, c.now), events).loop.nextId;
      var woken := Turn(w, el, c).world.loop;
      var t := woken.(entries := Expired(woken.entries, now));
      Dispatch(id, task) in StepRun(woken, now).ran <==> !L.CancelledBefore(t, Ids(ReadyOrder(t.entries)), id)
  {
    var v := StepWorld(w, el, c.now);
    var u := HappenAll(v, events);
    StepsOnward(w, el, c.now);
    AllHappensOnward(v, events);
    assert c.pause[..|c.pause| - 1] == events;
    var woken := LoopOp(u.loop, QueueReady(task));
    assert Turn(w, el, c).world.loop == woken;
    O.OneOp(u.loop, QueueReady(task));
    O.QueuedRunsExactlyIf(u.loop, QueueReady(task), false, now);
  }
}
