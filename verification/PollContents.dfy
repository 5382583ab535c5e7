/** What a poll performs and leaves to run, in terms of the futures alone. */
module PollContents {
  import opened Common
  import opened Work
  import opened Futures
  import opened FutureRuns
  import E = EventLoops
  import D = Drivers

  // ---------------------------------------------------------------------------
  // The polled futures' part
  // ---------------------------------------------------------------------------

  /** What the poll of `f`, if loop `el` polls it, does at once. */
  function EffectsOfOne(f: PendingPromise, el: nat): seq<Op> {
    if f.owner == el || f.owner == 0 then f.future.effects else []
  }

  /** What it leaves to run: the reactions of a future that finishes, the microtasks of one that
      waits. */
  function ToRunOfOne(f: PendingPromise, el: nat): seq<Op> {
    if f.owner != el && f.owner != 0 then []
    else if f.future.Finishes? then f.future.reactions
    else f.future.jobs
  }

  ghost predicate Progresses(f: PendingPromise, el: nat) {
    (f.owner == el || f.owner == 0) && (f.future.Finishes? || f.future.jobs != [])
  }

  /** The same over the queue. */
  function Effects(q: seq<PendingPromise>, el: nat): seq<Op> {
    if q == [] then []
    else
      var f := q[|q| - 1];
      Effects(q[..|q| - 1], el) + EffectsOfOne(f, el)
  }

  function ToRun(q: seq<PendingPromise>, el: nat): seq<Op> {
    if q == [] then []
    else
      var f := q[|q| - 1];
      ToRun(q[..|q| - 1], el) + ToRunOfOne(f, el)
  }

  /** Some such future finishes, or waits and leaves microtasks. */
  ghost predicate SomeProgress(q: seq<PendingPromise>, el: nat) {
    exists f :: f in q && Progresses(f, el)
  }

  lemma {:induction false} JoinedConcat(a: seq<seq<Op>>, b: seq<seq<Op>>)
    ensures D.Joined(a + b) == D.Joined(a) + D.Joined(b)
  {
    if b == [] {
      assert a + b == a;
    } else {
      JoinedConcat(a, b[..|b| - 1]);
      assert (a + b)[..|a + b| - 1] == a + b[..|b| - 1];
    }
  }

  lemma {:induction false} LeftOfOne(future: Future)
    ensures D.Joined(LeftToDrain(future)) == if future.Finishes? then future.reactions else future.jobs
    ensures LeftToDrain(future) != [] <==> future.Finishes? || future.jobs != []
  {
    var drains := LeftToDrain(future);
    assert drains != [] ==> drains[..|drains| - 1] == [];
  }

  lemma {:induction false} VisitPerforms(p: Poll, el: nat, f: PendingPromise)
    ensures var q := Visit(p, el, f);
      && q.effects == p.effects + EffectsOfOne(f, el)
      && D.Joined(q.drains) == D.Joined(p.drains) + ToRunOfOne(f, el)
      && (q.drains != [] <==> p.drains != [] || Progresses(f, el))
  {
    LeftOfOne(f.future);
    JoinedConcat(p.drains, LeftToDrain(f.future));
  }

  lemma {:induction false} VisitsPerform(s: FutState, el: nat, q: seq<PendingPromise>)
    ensures var p := VisitAll(s, el, q);
      && p.effects == Effects(q, el)
      && D.Joined(p.drains) == ToRun(q, el)
      && (p.drains != [] <==> SomeProgress(q, el))
  {
    if q == [] {
    } else {
      var front, f := q[..|q| - 1], q[|q| - 1];
      VisitsPerform(s, el, front);
      VisitPerforms(VisitAll(s, el, front), el, f);
      assert q == front + [f];
    }
  }

  // ---------------------------------------------------------------------------
  // The queues after a poll
  // ---------------------------------------------------------------------------

  /** Alike but for the fates. */
  predicate SameQueues(s: FutState, t: FutState) {
    s.active == t.active && s.pending == t.pending && s.owner == t.owner && s.spawned == t.spawned
  }

  lemma {:induction false} OpsOnSameQueues(s: FutState, t: FutState, ops: seq<Op>)
    requires SameQueues(s, t)
    ensures SameQueues(FutOps(s, ops), FutOps(t, ops))
  {
    if ops == [] {
    } else {
      OpsOnSameQueues(s, t, ops[..|ops| - 1]);
    }
  }

  lemma {:induction false} VisitsSpawn(s: FutState, el: nat, q: seq<PendingPromise>)
    ensures SameQueues(VisitAll(s, el, q).state, FutOps(s, Effects(q, el)))
  {
    if q == [] {
    } else {
      var front, f := q[..|q| - 1], q[|q| - 1];
      var p := VisitAll(s, el, front);
      VisitsSpawn(s, el, front);
      if OwnedBy(f.owner, el) {
        assert Effects(q, el) == Effects(front, el) + f.future.effects;
        OpsOnSameQueues(p.state, FutOps(s, Effects(front, el)), f.future.effects);
        E.FutOpsConcat(s, Effects(front, el), f.future.effects);
      } else {
        assert Effects(q, el) == Effects(front, el);
      }
    }
  }

  /** What a poll performs is what its futures do, in spawn order, and what it leaves to run is what
      they leave. What it spawns and cancels is what those effects do to empty queues, since the polled
      ones are detached. The survivors stand first. */
  lemma {:induction false} PollDoes(s: FutState, el: nat)
    requires Inv(s)
    ensures
      var queue := s.active + s.pending;
      var p, after := PollAll(s, el), FutOps(s.(active := [], pending := []), Effects(queue, el));
      && p.effects == Effects(queue, el)
      && D.Joined(p.drains) == ToRun(queue, el)
      && (p.drains != [] <==> SomeProgress(queue, el))
      && p.state.active == Survivors(queue, el)
      && p.state.pending == after.pending && p.state.spawned == after.spawned && p.state.owner == s.owner
  {
    var queue, bare := s.active + s.pending, s.(active := [], pending := []);
    VisitsPerform(bare, el, queue);
    VisitsSpawn(bare, el, queue);
    PollKeeps(s, el);
  }

  // ---------------------------------------------------------------------------
  // What becomes of a future is final
  // ---------------------------------------------------------------------------

  ghost predicate FatesKept(s: FutState, t: FutState) {
    forall n :: n in s.fates ==> n in t.fates && t.fates[n] == s.fates[n]
  }

  lemma {:induction false} DropKeepsFates(s: FutState, held: seq<PendingPromise>, pick: Pick, fate: Fate)
    requires InvWith(s, held)
    ensures FatesKept(s, Drop(s, pick, fate))
  {
    forall n | n in s.fates
      ensures n !in PickedNumbers(s, pick)
    {
      assert forall f :: f in s.active + s.pending ==> f in held + (s.active + s.pending);
    }
  }

  lemma {:induction false} OpsKeepFates(s: FutState, held: seq<PendingPromise>, ops: seq<Op>)
    requires InvWith(s, held)
    ensures FatesKept(s, FutOps(s, ops))
  {
    if ops == [] {
    } else {
      var t, op := FutOps(s, ops[..|ops| - 1]), ops[|ops| - 1];
      OpsKeepFates(s, held, ops[..|ops| - 1]);
      OpsKeep(s, held, ops[..|ops| - 1]);
      if op.CancelFuture? {
        DropKeepsFates(t, held, WithPromise(op.promise), Aborted(op.promise, t.owner));
      }
    }
  }

  lemma {:induction false} VisitKeepsFates(p: Poll, el: nat, f: PendingPromise, rest: seq<PendingPromise>)
    requires MidPoll(p, [f] + rest)
    ensures FatesKept(p.state, Visit(p, el, f).state)
    ensures OwnedBy(f.owner, el) && f.future.Finishes? ==>
      f.number in Visit(p, el, f).state.fates && Visit(p, el, f).state.fates[f.number] == Completed(el)
  {
    if OwnedBy(f.owner, el) {
      MidPollHolds(p, [f] + rest);
      OpsKeepFates(p.state, p.kept + ([f] + rest), f.future.effects);
      EffectsKeep(p, f, rest);
      var t := FutOps(p.state, f.future.effects);
      assert f in p.kept + [f] + (rest + t.pending);
    }
  }

  /** Every future of `q` that loop `el` may drive and that finishes is completed by it. */
  ghost predicate FinishersComplete(t: FutState, el: nat, q: seq<PendingPromise>) {
    forall f :: f in q && (f.owner == el || f.owner == 0) && f.future.Finishes? ==>
      f.number in t.fates && t.fates[f.number] == Completed(el)
  }

  lemma {:induction false} VisitsKeepFates(s: FutState, el: nat, q: seq<PendingPromise>, rest: seq<PendingPromise>)
    requires s.active == [] && Accounted(s, q + rest + s.pending)
    ensures var t := VisitAll(s, el, q).state; FatesKept(s, t) && FinishersComplete(t, el, q)
  {
    if q == [] {
    } else {
      var front, f := q[..|q| - 1], q[|q| - 1];
      assert q + rest == front + ([f] + rest);
      VisitsKeepFates(s, el, front, [f] + rest);
      VisitAllKeeps(s, el, front, [f] + rest);
      VisitKeepsFates(VisitAll(s, el, front), el, f, rest);
      assert q == front + [f];
    }
  }

  /** A poll completes each future it may drive that finishes, and changes no fate. */
  lemma {:induction false} PollCompletes(s: FutState, el: nat)
    requires Inv(s)
    ensures var t := PollAll(s, el).state; FatesKept(s, t) && FinishersComplete(t, el, s.active + s.pending)
  {
    var bare, queue := s.(active := [], pending := []), s.active + s.pending;
    InvOfQueue(s);
    assert queue + [] + bare.pending == queue;
    VisitsKeepFates(bare, el, queue, []);
  }

  /** Over every run what became of a future is final. */
  lemma {:induction false} FatesAreFinal(s: FutState, actions: seq<Action>)
    requires Inv(s)
    ensures FatesKept(s, Run(s, actions))
  {
    if actions == [] {
    } else {
      var t, last := Run(s, actions[..|actions| - 1]), actions[|actions| - 1];
      FatesAreFinal(s, actions[..|actions| - 1]);
      RunKeeps(s, actions[..|actions| - 1]);
      ActKeepsFates(t, last);
    }
  }

  lemma {:induction false} ActKeepsFates(s: FutState, a: Action)
    requires Inv(s)
    ensures FatesKept(s, Act(s, a))
  {
    match a
    case Within(el, ops) =>
      OwnerAside(s, el);
      OpsKeepFates(s.(owner := el), [], ops);
    case PollBy(el) =>
      OwnerAside(s, el);
      PollCompletes(s.(owner := el), el);
    case End(el) =>
      DropKeepsFates(s, [], OfOwner(el), LoopEnded(el));
    case TearDown =>
      DropKeepsFates(s, [], All, TornDown);
  }

  /** A loop that ends leaves exactly the other futures queued, and each of its own has a fate. */
  lemma {:induction false} EndLeavesTheOthers(s: FutState, el: nat)
    requires Inv(s) && el != 0
    ensures
      var t := Act(s, End(el));
      && (forall f :: f in t.active + t.pending <==> f in s.active + s.pending && f.owner != el)
      && (forall n: nat :: n < |s.spawned| && s.spawned[n] == el ==> n in t.fates)
  {
    ActKeeps(s, End(el));
    InvOfQueue(s);
    AllHaveFates(Act(s, End(el)), el);
  }

  lemma {:induction false} AllHaveFates(t: FutState, el: nat)
    requires Inv(t) && forall f :: f in t.active + t.pending ==> f.owner != el
    ensures forall n: nat :: n < |t.spawned| && t.spawned[n] == el ==> n in t.fates
  {
    InvOfQueue(t);
    forall n: nat | n < |t.spawned| && t.spawned[n] == el
      ensures n in t.fates
    {
      assert n !in t.fates ==> Numbered(n, t.active + t.pending);
    }
  }

  /** Teardown leaves nothing queued, and every future ever spawned has a fate. */
  lemma {:induction false} TearDownLeavesNothing(s: FutState)
    requires Inv(s)
    ensures
      var t := Act(s, TearDown);
      && t.active == [] && t.pending == [] && t.spawned == s.spawned
      && forall n: nat :: n < |s.spawned| ==> n in t.fates
  {
    var t := Act(s, TearDown);
    ActKeeps(s, TearDown);
    InvOfQueue(t);
    forall n: nat | n < |s.spawned|
      ensures n in t.fates
    {
      assert n !in t.fates ==> Numbered(n, t.active + t.pending);
    }
  }

  // ---------------------------------------------------------------------------
  // A future is polled as it was spawned
  // ---------------------------------------------------------------------------

  /** What is spawned within loop `el` is polled as given, after all that was queued before: by that
      loop only, or by any loop if `el` is none. */
  lemma {:induction false} SpawnedIsPolledAsGiven(s: FutState, el: nat, promise: nat, future: Future, other: nat)
    ensures
      var t := Act(s, Within(el, [Spawn(promise, future)]));
      var before, after := s.active + s.pending, t.active + t.pending;
      var its := other == el || el == 0;
      && Effects(after, other) == Effects(before, other) + (if its then future.effects else [])
      && ToRun(after, other) == ToRun(before, other) +
          if !its then [] else if future.Finishes? then future.reactions else future.jobs
  {
    OneOp(s.(owner := el), Spawn(promise, future));
    var t := Act(s, Within(el, [Spawn(promise, future)]));
    var before, after := s.active + s.pending, t.active + t.pending;
    var f := PendingPromise(|s.spawned|, el, promise, future);
    assert after == before + [f];
    assert after[..|after| - 1] == before;
  }

  /** Aborting its promise drops it, and leaves no future of that promise queued. */
  lemma {:induction false} SpawnedIsAborted(s: FutState, el: nat, promise: nat, future: Future)
    requires Inv(s)
    ensures
      var t := Act(s, Within(el, [Spawn(promise, future), CancelFuture(promise)]));
      && |s.spawned| in t.fates && t.fates[|s.spawned|] == Aborted(promise, el)
      && forall f :: f in t.active + t.pending ==> f.promise != promise
  {
    var u, ops := s.(owner := el), [Spawn(promise, future), CancelFuture(promise)];
    OneOp(u, ops[0]);
    assert ops[..1] == [ops[0]];
    var spawned := FutOp(u, ops[0]);
    var f := PendingPromise(|s.spawned|, el, promise, future);
    assert f in spawned.active + spawned.pending && Picked(f, WithPromise(promise));
    assert f.number in PickedNumbers(spawned, WithPromise(promise));
  }

  // ---------------------------------------------------------------------------
  // Spawning after a first poll
  // ---------------------------------------------------------------------------

  /** All that the polls of a future do at once, to its end. */
  function AllEffects(future: Future): seq<Op> {
    match future
    case Finishes(effects, _) => effects
    case Waits(effects, _, next) => effects + AllEffects(next)
  }

  /** All that they leave to run. */
  function AllToRun(future: Future): seq<Op> {
    match future
    case Finishes(_, reactions) => reactions
    case Waits(_, jobs, next) => jobs + AllToRun(next)
  }

  /** A first poll and what is queued after it do together what the future does. */
  lemma {:induction false} FirstPollLosesNothing(future: Future)
    ensures AllEffects(future) == future.effects + AllEffects(PolledOnce(future))
    ensures AllToRun(future) == (if future.Waits? then future.jobs else []) + AllToRun(PolledOnce(future))
  {
    assert future.Finishes? ==> future.effects + [] == future.effects && [] + future.reactions == future.reactions;
  }
}
