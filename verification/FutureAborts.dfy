/** Dropping a promise's future, which the program does without looking at whose it is. */
module FutureAborts {
  import opened Work
  import opened Futures
  import opened FutureRuns

  /** What became of a future was its own loop's doing, unless it had none. Teardown is nobody's. */
  predicate AtHome(owner: nat, fate: Fate) {
    match fate
    case Aborted(_, el) => OwnedBy(owner, el)
    case _ => FateFits(owner, fate)
  }

  ghost predicate AllAtHome(s: FutState) {
    forall n :: n in s.fates && n < |s.spawned| ==> AtHome(s.spawned[n], s.fates[n])
  }

  // ---------------------------------------------------------------------------
  // When an abort stays home
  // ---------------------------------------------------------------------------

  /** If `op` aborts a promise, its queued futures belong to the current owner or to no loop. */
  ghost predicate StaysHome(s: FutState, op: Op) {
    op.CancelFuture? ==>
      forall f :: f in s.active + s.pending && f.promise == op.promise ==> OwnedBy(f.owner, s.owner)
  }

  ghost predicate AllStayHome(s: FutState, ops: seq<Op>) {
    if ops == [] then true
    else
      AllStayHome(s, ops[..|ops| - 1]) && StaysHome(FutOps(s, ops[..|ops| - 1]), ops[|ops| - 1])
  }

  /** The polls of the detached futures that loop `el` may drive. */
  ghost predicate VisitsStayHome(s: FutState, el: nat, detached: seq<PendingPromise>) {
    if detached == [] then true
    else
      var front, f := detached[..|detached| - 1], detached[|detached| - 1];
      && VisitsStayHome(s, el, front)
      && (OwnedBy(f.owner, el) ==> AllStayHome(VisitAll(s, el, front).state, f.future.effects))
  }

  ghost predicate ActStaysHome(s: FutState, a: Action) {
    match a
    case Within(el, ops) => AllStayHome(s.(owner := el), ops)
    case PollBy(el) => VisitsStayHome(s.(owner := el, active := [], pending := []), el, s.active + s.pending)
    case End(_) => true
    case TearDown => true
  }

  ghost predicate RunStaysHome(actions: seq<Action>) {
    if actions == [] then true
    else
      var front, last := actions[..|actions| - 1], actions[|actions| - 1];
      RunStaysHome(front) && ActStaysHome(Run(NO_FUTURES, front), last)
  }

  // ---------------------------------------------------------------------------
  // Then, and only then, every fate is at home
  // ---------------------------------------------------------------------------

  ghost predicate PickedAtHome(s: FutState, pick: Pick, fate: Fate) {
    forall f :: f in s.active + s.pending && Picked(f, pick) ==> AtHome(f.owner, fate)
  }

  /** Dropping futures adds their fates and keeps the others. */
  lemma {:induction false} DropFates(s: FutState, held: seq<PendingPromise>, pick: Pick, fate: Fate)
    requires InvWith(s, held)
    ensures var t := Drop(s, pick, fate);
      AllAtHome(t) <==> AllAtHome(s) && PickedAtHome(s, pick, fate)
  {
    var t, numbers, queue := Drop(s, pick, fate), PickedNumbers(s, pick), held + (s.active + s.pending);
    forall f | f in s.active + s.pending && Picked(f, pick)
      ensures f.number in t.fates && t.fates[f.number] == fate && f.number !in s.fates
      ensures f.number < |s.spawned| && s.spawned[f.number] == f.owner
    {
      assert f in queue;
      assert f.number in numbers;
    }
    forall n | n in numbers
      ensures exists f :: f in s.active + s.pending && Picked(f, pick) && f.number == n
    {
    }
    assert forall n :: n in t.fates && n !in numbers ==> n in s.fates && t.fates[n] == s.fates[n];
    assert forall n :: n in s.fates ==> n !in numbers;
  }

  /** One abort stays home exactly when all queued futures of its promise are the current owner's or
      unowned, also under a poll that holds `held` detached. */
  lemma {:induction false} AbortStaysHome(s: FutState, held: seq<PendingPromise>, op: Op)
    requires InvWith(s, held)
    ensures AllAtHome(FutOp(s, op)) <==> AllAtHome(s) && StaysHome(s, op)
  {
    match op
    case CancelFuture(promise) => DropFates(s, held, WithPromise(promise), Aborted(promise, s.owner));
    case _ =>
  }

  lemma {:induction false} OpsStayHome(s: FutState, held: seq<PendingPromise>, ops: seq<Op>)
    requires InvWith(s, held)
    ensures AllAtHome(FutOps(s, ops)) <==> AllAtHome(s) && AllStayHome(s, ops)
  {
    if ops == [] {
    } else {
      var front := ops[..|ops| - 1];
      OpsStayHome(s, held, front);
      OpsKeep(s, held, front);
      AbortStaysHome(FutOps(s, front), held, ops[|ops| - 1]);
    }
  }

  lemma {:induction false} VisitStaysHome(p: Poll, el: nat, f: PendingPromise, rest: seq<PendingPromise>)
    requires MidPoll(p, [f] + rest)
    ensures AllAtHome(Visit(p, el, f).state)
      <==> AllAtHome(p.state) && (OwnedBy(f.owner, el) ==> AllStayHome(p.state, f.future.effects))
  {
    if OwnedBy(f.owner, el) {
      MidPollHolds(p, [f] + rest);
      OpsStayHome(p.state, p.kept + ([f] + rest), f.future.effects);
      EffectsKeep(p, f, rest);
      var t := FutOps(p.state, f.future.effects);
      assert f in p.kept + [f] + (rest + t.pending);
    }
  }

  lemma {:induction false} AllVisitsStayHome(
      s: FutState, el: nat, detached: seq<PendingPromise>, rest: seq<PendingPromise>)
    requires s.active == [] && Accounted(s, detached + rest + s.pending)
    ensures AllAtHome(VisitAll(s, el, detached).state) <==> AllAtHome(s) && VisitsStayHome(s, el, detached)
  {
    if detached == [] {
    } else {
      var front, f := detached[..|detached| - 1], detached[|detached| - 1];
      assert detached + rest == front + ([f] + rest);
      AllVisitsStayHome(s, el, front, [f] + rest);
      VisitAllKeeps(s, el, front, [f] + rest);
      VisitStaysHome(VisitAll(s, el, front), el, f, rest);
    }
  }

  lemma {:induction false} ActsStayHome(s: FutState, a: Action)
    requires Inv(s)
    ensures AllAtHome(Act(s, a)) <==> AllAtHome(s) && ActStaysHome(s, a)
  {
    match a
    case Within(el, ops) => OpsStayHome(s.(owner := el), [], ops);
    case PollBy(el) =>
      var bare, queue := s.(owner := el, active := [], pending := []), s.active + s.pending;
      InvOfQueue(s);
      assert queue + [] + bare.pending == queue;
      AllVisitsStayHome(bare, el, queue, []);
      assert s.(owner := el).(active := [], pending := []) == bare;
    case End(el) =>
      if el != 0 {
        DropFates(s, [], OfOwner(el), LoopEnded(el));
      }
    case TearDown => DropFates(s, [], All, TornDown);
  }

  /** Over every run of any number of loops: each future was completed or dropped for its own loop, or
      had none, teardown aside, exactly when at each abort, also of a poll under way, the queued futures
      of the promise were the aborting loop's or unowned. */
  lemma {:induction false} FatesAtHomeExactlyIf(actions: seq<Action>)
    ensures var s := Run(NO_FUTURES, actions);
      (forall n :: n in s.fates ==> n < |s.spawned| && AtHome(s.spawned[n], s.fates[n])) <==> RunStaysHome(actions)
  {
    InvOfQueue(NO_FUTURES);
    AllFates(actions);
    RunKeeps(NO_FUTURES, actions);
    InvOfQueue(Run(NO_FUTURES, actions));
  }

  lemma {:induction false} AllFates(actions: seq<Action>)
    ensures AllAtHome(Run(NO_FUTURES, actions)) <==> RunStaysHome(actions)
  {
    if actions == [] {
    } else {
      var front, last := actions[..|actions| - 1], actions[|actions| - 1];
      AllFates(front);
      InvOfQueue(NO_FUTURES);
      RunKeeps(NO_FUTURES, front);
      ActsStayHome(Run(NO_FUTURES, front), last);
    }
  }

  lemma {:induction false} TwoActions(s: FutState, a: Action, b: Action)
    ensures Run(s, [a, b]) == Act(Act(s, a), b)
  {
    assert [a, b][..1] == [a] && [a][..0] == [];
    assert Run(s, [a]) == Act(s, a);
  }

  /** Loop 2 drops a future of loop 1. */
  lemma {:induction false} AbortMayLeaveHome()
    ensures var s := Run(NO_FUTURES,
                [Within(1, [Spawn(7, Finishes([], []))]), Within(2, [CancelFuture(7)])]);
      s.spawned == [1] && s.fates == map[0 := Aborted(7, 2)]
  {
    var f := PendingPromise(0, 1, 7, Finishes([], []));
    var first, second := Within(1, [Spawn(7, f.future)]), Within(2, [CancelFuture(7)]);
    TwoActions(NO_FUTURES, first, second);
    OneOp(NO_FUTURES.(owner := 1), Spawn(7, f.future));
    var s := FutState([], [f], 0, [1], map[]);
    assert Act(NO_FUTURES, first) == s;
    var s' := s.(owner := 2);
    OneOp(s', CancelFuture(7));
    assert f in s'.active + s'.pending;
    assert PickedNumbers(s', WithPromise(7)) == {0};
    assert Act(s, second).fates == map[0 := Aborted(7, 2)];
  }
}
