/** The driver that runs a loop to its end, with other loops and the host taking turns wherever it
    awaits. */
module Drivers {
  import opened Work
  import opened TimerIds
  import opened Futures
  import F = FutureRuns
  import opened EventLoops
  import L = LoopRuns

  /** One loop, and the futures it shares with the others. */
  datatype World = World(loop: LoopState, futs: FutState)

  /** What can happen while the driver awaits: the host or another loop reaches this one through a
      handle, another loop takes timer ids of a shared global, or another loop acts on the futures. */
  datatype Event =
    | Outside(op: Op)
    | TimersSet(global: nat, count: nat)
    | Elsewhere(action: F.Action)

  /** The choices left open for one turn of the driver: the clock reading of its step, whether the
      caller wants to stop after it, what happens each time the driver's wait polls the futures, and
      what happens in an await that no poll ends. */
  datatype Choices = Choices(now: nat, callerStop: bool, rounds: seq<seq<Event>>, pause: seq<Event>)

  datatype Verdict = Stopped | CallerDone | Finished | Continues

  // ---------------------------------------------------------------------------
  // The specification
  // ---------------------------------------------------------------------------

  ghost function Happen(w: World, e: Event): World {
    match e
    case Outside(op) => World(LoopOp(w.loop, op), FutOp(w.futs, op))
    case TimersSet(global, count) =>
      w.(loop := w.loop.(counters := w.loop.counters[global := CounterOf(w.loop.counters, global) + count]))
    case Elsewhere(action) => w.(futs := F.Act(w.futs, action))
  }

  ghost function HappenAll(w: World, events: seq<Event>): World {
    if events == [] then w else Happen(HappenAll(w, events[..|events| - 1]), events[|events| - 1])
  }

  function Joined(drains: seq<seq<Op>>): seq<Op> {
    if drains == [] then [] else Joined(drains[..|drains| - 1]) + drains[|drains| - 1]
  }

  /** Poll loop `el`'s futures with the loop active, then settle what completed and drain the microtasks. */
  ghost function PollAndSettle(w: World, el: nat): World {
    var p := PollAll(w.futs.(owner := el), el);
    var drained := Joined(p.drains);
    World(LoopOps(LoopOps(w.loop, p.effects), drained),
          F.Act(F.Act(w.futs, F.PollBy(el)), F.Within(el, drained)))
  }

  /** A future completed, or a poll left microtasks behind. */
  ghost predicate PollEndsWait(w: World, el: nat) {
    PollAll(w.futs.(owner := el), el).drains != []
  }

  /** Events and a poll, round after round, until a poll ends the wait. If none does, a timer or an
      event of `pause` ends it. */
  ghost function Wait(w: World, el: nat, rounds: seq<seq<Event>>, pause: seq<Event>): World
    decreases |rounds|
  {
    if rounds == [] then HappenAll(w, pause)
    else
      var v := HappenAll(w, rounds[0]);
      if PollEndsWait(v, el) then PollAndSettle(v, el)
      else Wait(PollAndSettle(v, el), el, rounds[1..], pause)
  }

  ghost function StepWorld(w: World, el: nat, now: nat): World {
    var b := StepRun(w.loop, now);
    World(b.state, F.Act(w.futs, F.Within(el, b.performed)))
  }

  ghost function StepOutcomeOf(w: World, el: nat, now: nat): StepOutcome {
    var b := StepRun(w.loop, now);
    Outcome(b, F.Act(w.futs, F.Within(el, b.performed)), el)
  }

  datatype Turned = Turned(world: World, verdict: Verdict)

  /** One turn of the driver's loop. */
  ghost function Turn(w: World, el: nat, c: Choices): Turned {
    var v := StepWorld(w, el, c.now);
    var outcome := StepOutcomeOf(w, el, c.now);
    if v.loop.stop then Turned(v.(futs := F.Act(v.futs, F.End(el))), Stopped)
    else if c.callerStop then Turned(v, CallerDone)
    else if outcome == Done && !HasFutures(v.futs, el) then Turned(v, Finished)
    else if outcome == Progressed then
      Turned(PollAndSettle(HappenAll(v, c.pause), el), Continues)
    else
      Turned(Wait(v, el, c.rounds, c.pause), Continues)
  }

  ghost function Drive(w: World, el: nat, turns: seq<Choices>): Turned {
    if turns == [] then Turned(w, Continues)
    else
      var before := Drive(w, el, turns[..|turns| - 1]);
      if before.verdict != Continues then before
      else Turn(before.world, el, turns[|turns| - 1])
  }

  // ---------------------------------------------------------------------------
  // The driver
  // ---------------------------------------------------------------------------

  ghost function WorldOf(el: EventLoop): World
    reads el, el.tasks, el.registry, el.tls
  {
    World(el.State(), el.tls.State())
  }

  method ActElsewhere(tls: PromiseTls, action: F.Action)
    requires tls.Valid()
    modifies tls
    ensures tls.Valid() && tls.State() == F.Act(old(tls.State()), action)
  {
    match action {
      case Within(el, ops) =>
        var previous := tls.SetCurrentFutureOwner(el);
        tls.PerformAll(ops);
        var own := tls.SetCurrentFutureOwner(previous);
      case PollBy(el) =>
        var previous := tls.SetCurrentFutureOwner(el);
        var drains, polled, effects := tls.PollPendingFutures(el);
        var own := tls.SetCurrentFutureOwner(previous);
      case End(el) =>
        if el != 0 { tls.CancelPendingFuturesFor(el); }
      case TearDown =>
        tls.CancelAllPendingFutures();
    }
  }

  method LetOneHappen(el: EventLoop, e: Event)
    requires el.Valid() && el.batchBuf == []
    modifies el, el.tasks, el.registry, el.tls
    ensures el.Valid() && el.batchBuf == []
    ensures WorldOf(el) == Happen(old(WorldOf(el)), e)
  {
    match e {
      case Outside(op) => el.Perform(op);
      case TimersSet(global, count) =>
        el.registry.counters := el.registry.counters[global := CounterOf(el.registry.counters, global) + count];
      case Elsewhere(action) => ActElsewhere(el.tls, action);
    }
  }

  method LetHappen(el: EventLoop, events: seq<Event>)
    requires el.Valid() && el.batchBuf == []
    modifies el, el.tasks, el.registry, el.tls
    ensures el.Valid() && el.batchBuf == []
    ensures WorldOf(el) == HappenAll(old(WorldOf(el)), events)
  {
    for i := 0 to |events|
      invariant el.Valid() && el.batchBuf == []
      invariant WorldOf(el) == HappenAll(old(WorldOf(el)), events[..i])
    {
      assert events[..i + 1][..i] == events[..i];
      LetOneHappen(el, events[i]);
    }
    assert events[..|events|] == events;
  }

  /** Poll the loop's futures with it active, settle the completed ones and drain the microtasks. */
  method PollFutures(el: EventLoop) returns (ends: bool)
    requires el.Valid() && el.batchBuf == []
    modifies el, el.tasks, el.registry, el.tls
    ensures el.Valid() && el.batchBuf == []
    ensures WorldOf(el) == PollAndSettle(old(WorldOf(el)), el.loopId)
    ensures ends == PollEndsWait(old(WorldOf(el)), el.loopId)
  {
    ghost var before := el.tls.State();
    var previous := el.tls.SetCurrentFutureOwner(el.loopId);
    var drains, polled, effects := el.tls.PollPendingFutures(el.loopId);
    el.PerformAllOnLoop(effects);
    var own := el.tls.SetCurrentFutureOwner(previous);
    assert el.tls.State() == F.Act(before, F.PollBy(el.loopId));
    previous := el.tls.SetCurrentFutureOwner(el.loopId);
    el.PerformAll(Joined(drains));
    own := el.tls.SetCurrentFutureOwner(previous);
    ends := drains != [];
  }

  /** Wait until a round's poll completes a future or leaves microtasks, or an event ends the wait. */
  method AwaitProgress(el: EventLoop, rounds: seq<seq<Event>>, pause: seq<Event>)
    requires el.Valid() && el.batchBuf == []
    modifies el, el.tasks, el.registry, el.tls
    ensures el.Valid() && el.batchBuf == []
    ensures WorldOf(el) == Wait(old(WorldOf(el)), el.loopId, rounds, pause)
  {
    for i := 0 to |rounds|
      invariant el.Valid() && el.batchBuf == []
      invariant Wait(WorldOf(el), el.loopId, rounds[i..], pause) == Wait(old(WorldOf(el)), el.loopId, rounds, pause)
    {
      assert rounds[i..][1..] == rounds[i + 1..];
      LetHappen(el, rounds[i]);
      var ends := PollFutures(el);
      if ends {
        return;
      }
    }
    LetHappen(el, pause);
  }

  method PerformAction(el: EventLoop, action: L.Action) returns (ghost ran: seq<Dispatch>)
    requires el.Valid() && el.batchBuf == []
    modifies el, el.tasks, el.registry, el.tls
    ensures el.Valid() && el.batchBuf == []
    ensures L.Trace(el.State(), ran) == L.Act(old(el.State()), action)
  {
    ran := [];
    match action {
      case StepAt(now) =>
        var outcome, b := el.Step(now);
        ran := b.ran;
      case PopAndRun =>
        if el.HasReady() {
          el.ReadyIsOrdered();
          L.PopRunsTheFirst(el.State());
        }
        var popped := el.PopReady();
        if popped.Some? {
          el.Run(popped.value.id, popped.value.task);
          ran := [popped.value];
        }
      case AdvanceTo(now) =>
        var count := el.AdvanceTimers(now);
      case Outside(ops) =>
        el.PerformAll(ops);
    }
  }

  /** An embedder's own driver: steps, ready tasks taken and run one by one, timers advanced, and
      anything in between. What it dispatches, and the loop it leaves, are those of the unindexed store
      scanned and sorted each time. */
  method DriveByHand(el: EventLoop, actions: seq<L.Action>) returns (ghost ran: seq<Dispatch>)
    requires el.Valid() && el.batchBuf == []
    modifies el, el.tasks, el.registry, el.tls
    ensures el.Valid() && el.batchBuf == []
    ensures L.Trace(el.State(), ran) == L.Run(old(el.State()), actions)
  {
    ran := [];
    for i := 0 to |actions|
      invariant el.Valid() && el.batchBuf == []
      invariant L.Trace(el.State(), ran) == L.Run(old(el.State()), actions[..i])
    {
      assert actions[..i + 1][..i] == actions[..i];
      ghost var more := PerformAction(el, actions[i]);
      ran := ran + more;
    }
    assert actions[..|actions|] == actions;
  }

  /** A step with the loop active. */
  method StepActive(el: EventLoop, now: nat) returns (outcome: StepOutcome)
    requires el.Valid() && el.batchBuf == []
    modifies el, el.tasks, el.registry, el.tls
    ensures el.Valid() && el.batchBuf == []
    ensures WorldOf(el) == StepWorld(old(WorldOf(el)), el.loopId, now)
    ensures outcome == StepOutcomeOf(old(WorldOf(el)), el.loopId, now)
  {
    var previous := el.tls.SetCurrentFutureOwner(el.loopId);
    ghost var b;
    outcome, b := el.Step(now);
    var own := el.tls.SetCurrentFutureOwner(previous);
  }

  /** One turn of the driver: step with the loop active, stop if asked to or if nothing is left, and
      otherwise let the futures progress. */
  method TakeTurn(el: EventLoop, c: Choices) returns (verdict: Verdict)
    requires el.Valid() && el.batchBuf == []
    modifies el, el.tasks, el.registry, el.tls
    ensures el.Valid() && el.batchBuf == []
    ensures Turned(WorldOf(el), verdict) == Turn(old(WorldOf(el)), el.loopId, c)
  {
    var outcome := StepActive(el, c.now);
    if el.stopRequested {
      el.tls.CancelPendingFuturesFor(el.loopId);
      return Stopped;
    }
    if c.callerStop {
      return CallerDone;
    }
    var haveFutures := el.tls.HasPendingFutures(el.loopId);
    if outcome == Done && !haveFutures {
      return Finished;
    }
    if outcome == Progressed {
      LetHappen(el, c.pause);
      var ends := PollFutures(el);
    } else {
      AwaitProgress(el, c.rounds, c.pause);
    }
    return Continues;
  }

  /** The driver, for as many turns as `turns` gives choices for. */
  method RunUntil(el: EventLoop, turns: seq<Choices>) returns (verdict: Verdict)
    requires el.Valid() && el.batchBuf == []
    modifies el, el.tasks, el.registry, el.tls
    ensures el.Valid() && el.batchBuf == []
    ensures Turned(WorldOf(el), verdict) == Drive(old(WorldOf(el)), el.loopId, turns)
  {
    verdict := Continues;
    ghost var start := WorldOf(el);
    for i := 0 to |turns|
      invariant el.Valid() && el.batchBuf == [] && verdict == Continues
      invariant Turned(WorldOf(el), verdict) == Drive(start, el.loopId, turns[..i])
    {
      assert turns[..i + 1][..i] == turns[..i];
      verdict := TakeTurn(el, turns[i]);
      if verdict != Continues {
        DriveStops(start, el.loopId, turns, i + 1);
        return;
      }
    }
    assert turns[..|turns|] == turns;
  }

  /** Once the driver has returned, further choices change nothing. */
  lemma {:induction false} DriveStops(w: World, el: nat, turns: seq<Choices>, n: nat)
    requires n <= |turns| && Drive(w, el, turns[..n]).verdict != Continues
    ensures Drive(w, el, turns) == Drive(w, el, turns[..n])
  {
    if n == |turns| {
      assert turns[..n] == turns;
    } else {
      var front := turns[..|turns| - 1];
      assert front[..n] == turns[..n];
      DriveStops(w, el, front, n);
    }
  }

  // ---------------------------------------------------------------------------
  // When the driver returns, and what it owes the futures
  // ---------------------------------------------------------------------------

  ghost predicate WorldInv(w: World) {
    LoopInv(w.loop) && F.Inv(w.futs)
  }

  /** `v` comes after `w`: it keeps the invariants, and takes no future further from its end. */
  ghost predicate Onward(w: World, v: World) {
    && WorldInv(v)
    && w.futs.spawned <= v.futs.spawned
    && forall n: nat, k: nat :: F.FinishesWithin(w.futs, n, k) ==> F.FinishesWithin(v.futs, n, k)
  }

  lemma {:induction false} ActsOnward(w: World, loop: LoopState, action: F.Action)
    requires WorldInv(w) && LoopInv(loop)
    ensures Onward(w, World(loop, F.Act(w.futs, action)))
  {
    F.ActKeeps(w.futs, action);
    forall n: nat, k: nat | F.FinishesWithin(w.futs, n, k)
      ensures F.FinishesWithin(F.Act(w.futs, action), n, k)
    {
      F.ActProgress(w.futs, action, n, k);
    }
    F.ActExtends(w.futs, action);
  }

  lemma {:induction false} HappensOnward(w: World, e: Event)
    requires WorldInv(w)
    ensures Onward(w, Happen(w, e))
  {
    match e
    case Outside(op) =>
      OpKeepsInv(w.loop, op);
      F.OneOp(w.futs, op);
      assert w.futs.(owner := w.futs.owner) == w.futs;
      F.OpKeeps(w.futs, [], op);
      assert FutOp(w.futs, op) == F.Act(w.futs, F.Within(w.futs.owner, [op]));
      ActsOnward(w, LoopOp(w.loop, op), F.Within(w.futs.owner, [op]));
    case TimersSet(_, _) =>
    case Elsewhere(action) => ActsOnward(w, w.loop, action);
  }

  lemma {:induction false} AllHappensOnward(w: World, events: seq<Event>)
    requires WorldInv(w)
    ensures Onward(w, HappenAll(w, events))
  {
    if events == [] {
    } else {
      var v := HappenAll(w, events[..|events| - 1]);
      AllHappensOnward(w, events[..|events| - 1]);
      HappensOnward(v, events[|events| - 1]);
    }
  }

  lemma {:induction false} StepsOnward(w: World, el: nat, now: nat)
    requires WorldInv(w)
    ensures Onward(w, StepWorld(w, el, now))
  {
    L.StepDispatches(w.loop, now);
    ActsOnward(w, StepRun(w.loop, now).state, F.Within(el, StepRun(w.loop, now).performed));
  }

  /** A poll brings every future the loop may drive closer to its end. */
  lemma {:induction false} PollsOnward(w: World, el: nat)
    requires WorldInv(w)
    ensures Onward(w, PollAndSettle(w, el))
    ensures forall n: nat, k: nat :: F.FinishesWithin(w.futs, n, k) && k > 0 && OwnedBy(w.futs.spawned[n], el) ==>
      F.FinishesWithin(PollAndSettle(w, el).futs, n, k - 1)
  {
    var p := PollAll(w.futs.(owner := el), el);
    var drained := Joined(p.drains);
    var loop := LoopOps(w.loop, p.effects);
    OpsKeepInv(w.loop, p.effects);
    OpsKeepInv(loop, drained);
    var v := World(loop, F.Act(w.futs, F.PollBy(el)));
    ActsOnward(w, loop, F.PollBy(el));
    ActsOnward(v, LoopOps(loop, drained), F.Within(el, drained));
    F.PollProgress(w.futs.(owner := el), el);
    forall n: nat, k: nat | F.FinishesWithin(w.futs, n, k) && k > 0 && OwnedBy(w.futs.spawned[n], el)
      ensures F.FinishesWithin(PollAndSettle(w, el).futs, n, k - 1)
    {
      assert F.FinishesWithin(w.futs.(owner := el), n, k);
      assert F.FinishesWithin(v.futs, n, k - 1);
    }
  }

  lemma {:induction false} WaitsOnward(w: World, el: nat, rounds: seq<seq<Event>>, pause: seq<Event>)
    requires WorldInv(w)
    ensures Onward(w, Wait(w, el, rounds, pause))
    decreases |rounds|
  {
    if rounds == [] {
      AllHappensOnward(w, pause);
    } else {
      var v := HappenAll(w, rounds[0]);
      AllHappensOnward(w, rounds[0]);
      PollsOnward(v, el);
      if !PollEndsWait(v, el) {
        WaitsOnward(PollAndSettle(v, el), el, rounds[1..], pause);
      }
    }
  }

  lemma {:induction false} OnwardAgain(w: World, v: World, u: World)
    requires Onward(w, v) && Onward(v, u)
    ensures Onward(w, u)
  {
  }

  lemma {:induction false} TurnsOnward(w: World, el: nat, c: Choices)
    requires WorldInv(w)
    ensures Onward(w, Turn(w, el, c).world)
  {
    var v, t := StepWorld(w, el, c.now), Turn(w, el, c);
    StepsOnward(w, el, c.now);
    if t.verdict == Stopped {
      ActsOnward(v, v.loop, F.End(el));
      OnwardAgain(w, v, t.world);
    } else if t.verdict == Continues {
      if StepOutcomeOf(w, el, c.now) == Progressed {
        PausesOnward(v, el, c.pause);
      } else {
        WaitsOnward(v, el, c.rounds, c.pause);
      }
      OnwardAgain(w, v, t.world);
    }
  }

  lemma {:induction false} PausesOnward(v: World, el: nat, pause: seq<Event>)
    requires WorldInv(v)
    ensures Onward(v, PollAndSettle(HappenAll(v, pause), el))
  {
    AllHappensOnward(v, pause);
    PollsOnward(HappenAll(v, pause), el);
    OnwardAgain(v, HappenAll(v, pause), PollAndSettle(HappenAll(v, pause), el));
  }

  /** Nothing keeps loop `el` alive. */
  ghost predicate Quiet(w: World, el: nat) {
    w.loop.entries == map[] && w.loop.interest == 0 && !HasFutures(w.futs, el)
  }

  ghost predicate OwnsNothing(futs: FutState, el: nat) {
    forall f :: f in futs.active + futs.pending ==> f.owner != el
  }

  lemma {:induction false} TurnReturnsWhenQuiet(w: World, el: nat, c: Choices)
    requires el != 0
    ensures var t := Turn(w, el, c);
      && (t.verdict == Finished ==> Quiet(t.world, el))
      && (t.verdict == Stopped ==> t.world.loop.stop && OwnsNothing(t.world.futs, el))
      && (t.verdict == CallerDone ==> c.callerStop)
  {
  }

  /** Whatever happens during its awaits, the driver returns only when asked to stop, by the loop or
      by its caller, or when the loop has no task, no interest and no future it may drive. A stop the
      loop asked for leaves none of its own futures queued. */
  lemma {:induction false} ReturnsWhenQuiet(w: World, el: nat, turns: seq<Choices>)
    requires WorldInv(w) && el != 0
    ensures var t := Drive(w, el, turns);
      && Onward(w, t.world)
      && (t.verdict == Finished ==> Quiet(t.world, el))
      && (t.verdict == Stopped ==> t.world.loop.stop && OwnsNothing(t.world.futs, el))
      && (t.verdict == CallerDone ==> exists c :: c in turns && c.callerStop)
  {
    if turns == [] {
    } else {
      var front, last := turns[..|turns| - 1], turns[|turns| - 1];
      ReturnsWhenQuiet(w, el, front);
      assert turns == front + [last];
      var before := Drive(w, el, front);
      if before.verdict == Continues {
        TurnsOnward(before.world, el, last);
        TurnReturnsWhenQuiet(before.world, el, last);
        assert last in turns;
      }
    }
  }

  /** In a turn whose step ran something, each future the loop may drive that was spawned by then is
      polled before the turn ends, and so before the next step, once and in spawn order, unless it finished or was
      dropped during the pause. No other future is polled. */
  lemma {:induction false} ProgressedTurnPollsAll(w: World, el: nat, c: Choices)
    requires WorldInv(w) && StepOutcomeOf(w, el, c.now) == Progressed && Turn(w, el, c).verdict == Continues
    ensures
      var stepped, paused := StepWorld(w, el, c.now), HappenAll(StepWorld(w, el, c.now), c.pause);
      var polled := PollAll(paused.futs.(owner := el), el).polled;
      && Turn(w, el, c).world == PollAndSettle(paused, el)
      && (forall f :: f in stepped.futs.active + stepped.futs.pending && OwnedBy(f.owner, el) ==>
            f.number in polled || f.number in paused.futs.fates)
      && (forall i, j :: 0 <= i < j < |polled| ==> polled[i] < polled[j])
      && (forall n :: n in polled ==> n < |paused.futs.spawned| && OwnedBy(paused.futs.spawned[n], el))
  {
    var v := StepWorld(w, el, c.now);
    var u := HappenAll(v, c.pause);
    StepsOnward(w, el, c.now);
    AllHappensOnward(v, c.pause);
    PollsWhatItDrives(u.futs, el);
    F.InvOfQueue(v.futs);
    forall f | f in v.futs.active + v.futs.pending && OwnedBy(f.owner, el)
      ensures f.number in PollAll(u.futs.(owner := el), el).polled || f.number in u.futs.fates
    {
      assert u.futs.spawned[f.number] == f.owner;
    }
  }

  /** A poll visits every unfinished future the loop may drive, and no other. */
  lemma {:induction false} PollsWhatItDrives(futs: FutState, el: nat)
    requires F.Inv(futs)
    ensures var polled := PollAll(futs.(owner := el), el).polled;
      && (forall n: nat :: n in polled <==>
            n < |futs.spawned| && (futs.spawned[n] == el || futs.spawned[n] == 0) && n !in futs.fates)
      && (forall i, j :: 0 <= i < j < |polled| ==> polled[i] < polled[j])
  {
    var queue := futs.active + futs.pending;
    F.InvOfQueue(futs);
    F.PollKeeps(futs.(owner := el), el);
    F.DrivenInOrder(queue, el);
    forall n: nat
      ensures F.Drives(n, queue, el) <==> n < |futs.spawned| && OwnedBy(futs.spawned[n], el) && n !in futs.fates
    {
      if n < |futs.spawned| && n !in futs.fates {
        assert F.Numbered(n, queue);
      }
    }
  }

  // ---------------------------------------------------------------------------
  // No starvation
  // ---------------------------------------------------------------------------

  /** How often the wait polls. */
  ghost function PollsInWait(w: World, el: nat, rounds: seq<seq<Event>>): nat
    decreases |rounds|
  {
    if rounds == [] then 0
    else
      var v := HappenAll(w, rounds[0]);
      1 + if PollEndsWait(v, el) then 0 else PollsInWait(PollAndSettle(v, el), el, rounds[1..])
  }

  /** How often a turn polls: once if its step ran something, or else as often as its wait does. */
  ghost function PollsInTurn(w: World, el: nat, c: Choices): nat {
    if StepOutcomeOf(w, el, c.now) == Progressed then 1
    else PollsInWait(StepWorld(w, el, c.now), el, c.rounds)
  }

  ghost function PollsInTurns(w: World, el: nat, turns: seq<Choices>): nat {
    if turns == [] then 0
    else
      var before := Drive(w, el, turns[..|turns| - 1]);
      PollsInTurns(w, el, turns[..|turns| - 1]) +
      if before.verdict == Continues then PollsInTurn(before.world, el, turns[|turns| - 1]) else 0
  }

  /** How many of the turns' steps ran something. */
  ghost function ProgressedTurns(w: World, el: nat, turns: seq<Choices>): nat {
    if turns == [] then 0
    else
      var before := Drive(w, el, turns[..|turns| - 1]);
      ProgressedTurns(w, el, turns[..|turns| - 1]) +
      if before.verdict == Continues && StepOutcomeOf(before.world, el, turns[|turns| - 1].now) == Progressed
      then 1 else 0
  }

  function Left(k: nat, polls: nat): nat {
    if polls < k then k - polls else 0
  }

  /** Loop `el` may drive future `n`, which finishes within `k` more polls. */
  ghost predicate Within(w: World, el: nat, n: nat, k: nat) {
    WorldInv(w) && F.FinishesWithin(w.futs, n, k) && OwnedBy(w.futs.spawned[n], el)
  }

  lemma {:induction false} OnwardWithin(w: World, v: World, el: nat, n: nat, k: nat)
    requires Within(w, el, n, k) && Onward(w, v)
    ensures Within(v, el, n, k)
  {
  }

  lemma {:induction false} PollWithin(w: World, el: nat, n: nat, k: nat)
    requires Within(w, el, n, k)
    ensures Within(PollAndSettle(w, el), el, n, Left(k, 1))
  {
    PollsOnward(w, el);
    OnwardWithin(w, PollAndSettle(w, el), el, n, k);
  }

  /** Each poll of a wait brings every future the loop may drive one poll closer to its end. */
  lemma {:induction false} WaitAdvances(w: World, el: nat, rounds: seq<seq<Event>>, pause: seq<Event>, n: nat, k: nat)
    requires Within(w, el, n, k)
    ensures Within(Wait(w, el, rounds, pause), el, n, Left(k, PollsInWait(w, el, rounds)))
    decreases |rounds|
  {
    if rounds == [] {
      AllHappensOnward(w, pause);
      OnwardWithin(w, HappenAll(w, pause), el, n, k);
    } else {
      var v := HappenAll(w, rounds[0]);
      AllHappensOnward(w, rounds[0]);
      OnwardWithin(w, v, el, n, k);
      PollWithin(v, el, n, k);
      if !PollEndsWait(v, el) {
        WaitAdvances(PollAndSettle(v, el), el, rounds[1..], pause, n, Left(k, 1));
      }
    }
  }

  /** So does each poll of a turn. */
  lemma {:induction false} TurnAdvances(w: World, el: nat, c: Choices, n: nat, k: nat)
    requires Within(w, el, n, k)
    ensures Turn(w, el, c).verdict == Continues ==>
      Within(Turn(w, el, c).world, el, n, Left(k, PollsInTurn(w, el, c)))
  {
    var v := StepWorld(w, el, c.now);
    StepsOnward(w, el, c.now);
    OnwardWithin(w, v, el, n, k);
    if StepOutcomeOf(w, el, c.now) == Progressed {
      AllHappensOnward(v, c.pause);
      OnwardWithin(v, HappenAll(v, c.pause), el, n, k);
      PollWithin(HappenAll(v, c.pause), el, n, k);
    } else {
      WaitAdvances(v, el, c.rounds, c.pause, n, k);
    }
  }

  /** Nothing can starve a future: not tasks that are always ready, since each step that ran something
      is followed by a poll, and not idle waits, which poll as well. If it needs `k` more polls, it has
      finished or been dropped once the driver's turns polled `k` times, unless the driver has
      returned. */
  lemma {:induction false} NoStarvation(w: World, el: nat, turns: seq<Choices>, n: nat, k: nat)
    requires Within(w, el, n, k)
    ensures var polls, t := PollsInTurns(w, el, turns), Drive(w, el, turns);
      && polls >= ProgressedTurns(w, el, turns)
      && (t.verdict == Continues ==> Within(t.world, el, n, Left(k, polls)))
      && (t.verdict == Continues && polls >= k ==> n in t.world.futs.fates)
  {
    var polls, t := PollsInTurns(w, el, turns), Drive(w, el, turns);
    if turns == [] {
    } else {
      var front, last := turns[..|turns| - 1], turns[|turns| - 1];
      NoStarvation(w, el, front, n, k);
      if t.verdict == Continues {
        TurnAdvances(Drive(w, el, front).world, el, last, n, Left(k, PollsInTurns(w, el, front)));
      }
    }
    if t.verdict == Continues && polls >= k {
      NoPollsLeft(t.world, el, n);
    }
  }

  /** A future that finishes within no more polls has done so, or been dropped. */
  lemma {:induction false} NoPollsLeft(w: World, el: nat, n: nat)
    requires Within(w, el, n, 0)
    ensures n in w.futs.fates
  {
    F.InvOfQueue(w.futs);
    assert !F.Numbered(n, w.futs.active + w.futs.pending);
  }
}
