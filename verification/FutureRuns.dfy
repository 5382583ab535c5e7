/** What holds of the shared futures over every interleaving of several loops. */
module FutureRuns {
  import opened Work
  import opened Futures

  // ---------------------------------------------------------------------------
  // The invariant
  // ---------------------------------------------------------------------------

  ghost predicate Increasing(q: seq<PendingPromise>) {
    forall i, j :: 0 <= i < j < |q| ==> q[i].number < q[j].number
  }

  ghost predicate AllBefore(a: seq<PendingPromise>, b: seq<PendingPromise>) {
    forall f, g :: f in a && g in b ==> f.number < g.number
  }

  ghost predicate Numbered(n: nat, q: seq<PendingPromise>) {
    exists f :: f in q && f.number == n
  }

  /** Nobody is polled, completed or dropped for a loop that does not own it. */
  predicate FateFits(owner: nat, fate: Fate) {
    match fate
    case Completed(el) => OwnedBy(owner, el)
    case LoopEnded(el) => owner == el && owner != 0
    case Aborted(_, _) => true
    case TornDown => true
  }

  /** `queue` lists every unfinished future once, in spawn order, each under the owner it was spawned
      with, and every other future spawned has exactly one fate. */
  ghost predicate AccountedFor(spawned: seq<nat>, fates: map<nat, Fate>, queue: seq<PendingPromise>) {
    && Increasing(queue)
    && (forall f :: f in queue ==>
        f.number < |spawned| && f.owner == spawned[f.number] && f.number !in fates)
    && (forall n :: n in fates ==> n < |spawned| && FateFits(spawned[n], fates[n]))
    && (forall n: nat :: n < |spawned| ==> n in fates || Numbered(n, queue))
  }

  ghost predicate Accounted(s: FutState, queue: seq<PendingPromise>) {
    AccountedFor(s.spawned, s.fates, queue)
  }

  /** The invariant while a poll holds `held` detached. */
  ghost predicate InvWith(s: FutState, held: seq<PendingPromise>) {
    Accounted(s, held + (s.active + s.pending))
  }

  ghost predicate Inv(s: FutState) {
    InvWith(s, [])
  }

  lemma {:induction false} InvOfQueue(s: FutState)
    ensures Inv(s) <==> Accounted(s, s.active + s.pending)
  {
    assert [] + (s.active + s.pending) == s.active + s.pending;
  }

  lemma {:induction false} IncreasingConcat(a: seq<PendingPromise>, b: seq<PendingPromise>)
    ensures Increasing(a + b) <==> Increasing(a) && Increasing(b) && AllBefore(a, b)
  {
    if Increasing(a + b) {
      forall i, j | 0 <= i < j < |a|
        ensures a[i].number < a[j].number
      {
        assert (a + b)[i] == a[i] && (a + b)[j] == a[j];
      }
      forall i, j | 0 <= i < j < |b|
        ensures b[i].number < b[j].number
      {
        assert (a + b)[|a| + i] == b[i] && (a + b)[|a| + j] == b[j];
      }
      forall i, j | 0 <= i < |a| && 0 <= j < |b|
        ensures a[i].number < b[j].number
      {
        assert (a + b)[i] == a[i] && (a + b)[|a| + j] == b[j];
      }
    }
  }

  lemma {:induction false} RetainedIncreasing(q: seq<PendingPromise>, pick: Pick)
    requires Increasing(q)
    ensures Increasing(Retained(q, pick))
  {
    if q == [] {
    } else {
      var front, last := q[..|q| - 1], q[|q| - 1];
      RetainedIncreasing(front, pick);
      forall i, j | 0 <= i < j < |Retained(q, pick)|
        ensures Retained(q, pick)[i].number < Retained(q, pick)[j].number
      {
        assert Retained(q, pick)[i] in Retained(front, pick);
      }
    }
  }

  // ---------------------------------------------------------------------------
  // Every operation keeps it, also under a poll that holds `held` detached
  // ---------------------------------------------------------------------------

  lemma {:induction false} SpawnKeeps(s: FutState, queue: seq<PendingPromise>, promise: nat, future: Future)
    requires Accounted(s, queue)
    ensures Accounted(FutOp(s, Spawn(promise, future)),
                      queue + [PendingPromise(|s.spawned|, s.owner, promise, future)])
  {
    var f := PendingPromise(|s.spawned|, s.owner, promise, future);
    IncreasingConcat(queue, [f]);
    forall n: nat | n < |s.spawned| + 1
      ensures n in s.fates || Numbered(n, queue + [f])
    {
      if n == |s.spawned| {
        assert f in queue + [f];
      } else if n !in s.fates {
        var g :| g in queue && g.number == n;
        assert g in queue + [f];
      }
    }
  }

  lemma {:induction false} LeftIncreasing(
      held: seq<PendingPromise>, a: seq<PendingPromise>, b: seq<PendingPromise>, pick: Pick)
    requires Increasing(held + (a + b))
    ensures Increasing(held + (Retained(a, pick) + Retained(b, pick)))
  {
    IncreasingConcat(held, a + b);
    IncreasingConcat(a, b);
    RetainedIncreasing(a, pick);
    RetainedIncreasing(b, pick);
    IncreasingConcat(Retained(a, pick), Retained(b, pick));
    IncreasingConcat(held, Retained(a, pick) + Retained(b, pick));
  }

  /** Futures `gone` from the queue for the same reason. */
  lemma {:induction false} GoneKeeps(spawned: seq<nat>, fates: map<nat, Fate>, queue: seq<PendingPromise>,
                  left: seq<PendingPromise>, numbers: set<nat>, fate: Fate)
    requires AccountedFor(spawned, fates, queue) && Increasing(left)
    requires forall f :: f in left <==> f in queue && f.number !in numbers
    requires forall n :: n in numbers ==> Numbered(n, queue)
    requires forall f :: f in queue && f.number in numbers ==> FateFits(f.owner, fate)
    ensures AccountedFor(spawned, fates + map n | n in numbers :: fate, left)
  {
    var after := fates + map n | n in numbers :: fate;
    forall n | n in numbers
      ensures n < |spawned| && FateFits(spawned[n], fate)
    {
      var f :| f in queue && f.number == n;
    }
    forall n: nat | n < |spawned|
      ensures n in after || Numbered(n, left)
    {
      if n !in after {
        var f :| f in queue && f.number == n;
        assert f in left;
      }
    }
  }

  lemma {:induction false} DropKeeps(s: FutState, held: seq<PendingPromise>, pick: Pick, fate: Fate)
    requires InvWith(s, held)
    requires forall f :: f in s.active + s.pending && Picked(f, pick) ==> FateFits(f.owner, fate)
    ensures InvWith(Drop(s, pick, fate), held)
  {
    var t := Drop(s, pick, fate);
    var queued, numbers := s.active + s.pending, PickedNumbers(s, pick);
    var queue, left := held + queued, held + (t.active + t.pending);
    IncreasingConcat(held, queued);
    LeftIncreasing(held, s.active, s.pending, pick);
    forall n | n in numbers
      ensures Numbered(n, queue)
    {
      var f :| f in queued && Picked(f, pick) && f.number == n;
      assert f in queue;
    }
    forall f | f in queue
      ensures f.number in numbers <==> f in queued && Picked(f, pick)
    {
      NumberedOnce(queue);
    }
    assert forall f :: f in left <==> f in queue && f.number !in numbers;
    GoneKeeps(s.spawned, s.fates, queue, left, numbers, fate);
  }

  lemma {:induction false} NumberedOnce(q: seq<PendingPromise>)
    requires Increasing(q)
    ensures forall f, g :: f in q && g in q && f.number == g.number ==> f == g
  {
  }

  lemma {:induction false} OpKeeps(s: FutState, held: seq<PendingPromise>, op: Op)
    requires InvWith(s, held)
    ensures var t := FutOp(s, op);
      InvWith(t, held) && t.owner == s.owner && (s.active == [] ==> t.active == [])
  {
    match op
    case Spawn(promise, future) =>
      var f := PendingPromise(|s.spawned|, s.owner, promise, future);
      SpawnKeeps(s, held + (s.active + s.pending), promise, future);
      assert held + (s.active + s.pending) + [f] == held + (s.active + (s.pending + [f]));
    case CancelFuture(promise) =>
      DropKeeps(s, held, WithPromise(promise), Aborted(promise, s.owner));
    case _ =>
  }

  lemma {:induction false} OpsKeep(s: FutState, held: seq<PendingPromise>, ops: seq<Op>)
    requires InvWith(s, held)
    ensures var t := FutOps(s, ops);
      InvWith(t, held) && t.owner == s.owner && (s.active == [] ==> t.active == [])
  {
    if ops == [] {
    } else {
      OpsKeep(s, held, ops[..|ops| - 1]);
      OpKeeps(FutOps(s, ops[..|ops| - 1]), held, ops[|ops| - 1]);
    }
  }

  /** A detached future that finishes moves from the queue to the fates. */
  lemma {:induction false} FinishKeeps(
      s: FutState, a: seq<PendingPromise>, f: PendingPromise, b: seq<PendingPromise>, fate: Fate)
    requires Accounted(s, a + [f] + b)
    requires FateFits(f.owner, fate)
    ensures Accounted(s.(fates := s.fates[f.number := fate]), a + b)
  {
    WithoutOne(a, f, b);
    forall n: nat | n < |s.spawned|
      ensures n in s.fates || n == f.number || Numbered(n, a + b)
    {
      if n !in s.fates && n != f.number {
        var g :| g in a + [f] + b && g.number == n;
        assert g in a + b;
      }
    }
  }

  lemma {:induction false} WithoutOne(a: seq<PendingPromise>, f: PendingPromise, b: seq<PendingPromise>)
    requires Increasing(a + [f] + b)
    ensures Increasing(a + b) && f in a + [f] + b
    ensures forall g :: g in a + b ==> g in a + [f] + b && g.number != f.number
  {
    IncreasingConcat(a + [f], b);
    IncreasingConcat(a, [f]);
    IncreasingConcat(a, b);
    assert f in a + [f];
  }

  /** A detached future that stays pending keeps its place. */
  lemma {:induction false} WaitKeeps(
      s: FutState, a: seq<PendingPromise>, f: PendingPromise, b: seq<PendingPromise>, next: Future)
    requires Accounted(s, a + [f] + b)
    ensures Accounted(s, a + [f.(future := next)] + b)
  {
    var g := f.(future := next);
    IncreasingConcat(a + [f], b);
    IncreasingConcat(a, [f]);
    IncreasingConcat(a, [g]);
    IncreasingConcat(a + [g], b);
    assert f in a + [f] + b && g in a + [g] + b;
    forall n: nat | n < |s.spawned| && n !in s.fates
      ensures Numbered(n, a + [g] + b)
    {
      var h :| h in a + [f] + b && h.number == n;
      assert if h == f then g in a + [g] + b else h in a + [g] + b;
    }
  }

  /** What a poll of loop `el` leaves of `q`, whatever the polls did: the futures of other loops as
      they were, and the polled ones that did not finish. */
  function Survivors(q: seq<PendingPromise>, el: nat): seq<PendingPromise> {
    if q == [] then []
    else
      var rest, f := Survivors(q[..|q| - 1], el), q[|q| - 1];
      if !OwnedBy(f.owner, el) then rest + [f]
      else if f.future.Waits? then rest + [f.(future := f.future.next)]
      else rest
  }

  /** The numbers of the futures of `q` that loop `el` may drive, in queue order. */
  function Driven(q: seq<PendingPromise>, el: nat): seq<nat> {
    if q == [] then []
    else
      var rest, f := Driven(q[..|q| - 1], el), q[|q| - 1];
      if OwnedBy(f.owner, el) then rest + [f.number] else rest
  }

  /** Future `n` is in `q`, and loop `el` may drive it. */
  ghost predicate Drives(n: nat, q: seq<PendingPromise>, el: nat) {
    exists f :: f in q && f.number == n && OwnedBy(f.owner, el)
  }

  lemma {:induction false} DrivesLonger(n: nat, front: seq<PendingPromise>, last: PendingPromise, el: nat)
    ensures Drives(n, front + [last], el) <==> Drives(n, front, el) || (last.number == n && OwnedBy(last.owner, el))
  {
    var q := front + [last];
    if Drives(n, front, el) {
      var f :| f in front && f.number == n && OwnedBy(f.owner, el);
      assert f in q;
    }
    assert last in q;
  }

  lemma {:induction false} DrivenAre(q: seq<PendingPromise>, el: nat, n: nat)
    ensures n in Driven(q, el) <==> Drives(n, q, el)
  {
    if q == [] {
    } else {
      var front, last := q[..|q| - 1], q[|q| - 1];
      DrivenAre(front, el, n);
      DrivesLonger(n, front, last, el);
      assert q == front + [last];
    }
  }

  lemma {:induction false} DrivenIncreases(q: seq<PendingPromise>, el: nat)
    requires Increasing(q)
    ensures forall i, j :: 0 <= i < j < |Driven(q, el)| ==> Driven(q, el)[i] < Driven(q, el)[j]
  {
    if q == [] {
    } else {
      var front, last := q[..|q| - 1], q[|q| - 1];
      DrivenIncreases(front, el);
      forall i | 0 <= i < |Driven(front, el)|
        ensures Driven(front, el)[i] < last.number
      {
        DrivenAre(front, el, Driven(front, el)[i]);
      }
    }
  }

  /** Loop `el` visits the futures it may drive, each once, in spawn order. */
  lemma {:induction false} DrivenInOrder(q: seq<PendingPromise>, el: nat)
    requires Increasing(q)
    ensures forall n :: n in Driven(q, el) <==> Drives(n, q, el)
    ensures forall i, j :: 0 <= i < j < |Driven(q, el)| ==> Driven(q, el)[i] < Driven(q, el)[j]
  {
    DrivenIncreases(q, el);
    forall n: nat
      ensures n in Driven(q, el) <==> Drives(n, q, el)
    {
      DrivenAre(q, el, n);
    }
  }

  /** Mid-poll: the kept futures, before the unvisited ones, before what the polls spawned. */
  ghost predicate MidPoll(p: Poll, rest: seq<PendingPromise>) {
    p.state.active == [] && Accounted(p.state, p.kept + rest + p.state.pending)
  }

  lemma {:induction false} MidPollHolds(p: Poll, rest: seq<PendingPromise>)
    requires p.state.active == []
    ensures MidPoll(p, rest) <==> InvWith(p.state, p.kept + rest)
  {
    assert p.state.active + p.state.pending == p.state.pending;
  }

  lemma {:induction false} Regroup<T>(a: seq<T>, b: seq<T>, c: seq<T>, d: seq<T>)
    ensures a + (b + c) + d == a + b + (c + d)
  {
  }

  /** After the polled future's effects it still stands between the kept and the unvisited ones. */
  lemma {:induction false} EffectsKeep(p: Poll, f: PendingPromise, rest: seq<PendingPromise>)
    requires MidPoll(p, [f] + rest)
    ensures var t := FutOps(p.state, f.future.effects);
      Accounted(t, p.kept + [f] + (rest + t.pending)) && t.active == [] && t.owner == p.state.owner
  {
    var t := FutOps(p.state, f.future.effects);
    MidPollHolds(p, [f] + rest);
    OpsKeep(p.state, p.kept + ([f] + rest), f.future.effects);
    MidPollHolds(p.(state := t), [f] + rest);
    Regroup(p.kept, [f], rest, t.pending);
  }

  lemma {:induction false} VisitKeeps(p: Poll, el: nat, f: PendingPromise, rest: seq<PendingPromise>)
    requires MidPoll(p, [f] + rest)
    ensures MidPoll(Visit(p, el, f), rest) && Visit(p, el, f).state.owner == p.state.owner
  {
    if !OwnedBy(f.owner, el) {
      assert p.kept + ([f] + rest) == p.kept + [f] + rest;
    } else {
      EffectsKeep(p, f, rest);
      var t := FutOps(p.state, f.future.effects);
      match f.future
      case Finishes(_, _) =>
        FinishKeeps(t, p.kept, f, rest + t.pending, Completed(el));
        assert p.kept + (rest + t.pending) == p.kept + rest + t.pending;
      case Waits(_, _, next) =>
        WaitKeeps(t, p.kept, f, rest + t.pending, next);
        assert p.kept + [f.(future := next)] + (rest + t.pending)
            == p.kept + [f.(future := next)] + rest + t.pending;
    }
  }

  lemma {:induction false} VisitAllKeeps(s: FutState, el: nat, detached: seq<PendingPromise>, rest: seq<PendingPromise>)
    requires s.active == [] && Accounted(s, detached + rest + s.pending)
    ensures var p := VisitAll(s, el, detached);
      && MidPoll(p, rest) && p.state.owner == s.owner
      && p.kept == Survivors(detached, el)
      && p.polled == Driven(detached, el)
  {
    if detached == [] {
      assert detached + rest == rest == [] + rest;
    } else {
      var front, f := detached[..|detached| - 1], detached[|detached| - 1];
      assert detached + rest == front + ([f] + rest);
      VisitAllKeeps(s, el, front, [f] + rest);
      VisitKeeps(VisitAll(s, el, front), el, f, rest);
    }
  }

  lemma {:induction false} PollEndsWell(p: Poll)
    requires MidPoll(p, [])
    ensures Inv(p.state.(active := p.state.active + p.kept))
    ensures p.state.active + p.kept == p.kept
  {
    var t := p.state.(active := p.state.active + p.kept);
    assert t.active + t.pending == p.kept + [] + p.state.pending;
    InvOfQueue(t);
  }

  /** One poll keeps the invariant, visits exactly the futures the loop may drive, once each and in
      spawn order, and leaves exactly the survivors ahead of what the polls spawned. A cancellation
      issued by one of the polls therefore never reaches a future that was queued before the poll. */
  lemma {:induction false} PollKeeps(s: FutState, el: nat)
    requires Inv(s)
    ensures var p := PollAll(s, el);
      && Inv(p.state) && p.state.owner == s.owner
      && p.polled == Driven(s.active + s.pending, el)
      && p.state.active == Survivors(s.active + s.pending, el)
  {
    var bare, queue := s.(active := [], pending := []), s.active + s.pending;
    assert Accounted(bare, queue + [] + bare.pending) by {
      InvOfQueue(s);
      assert queue + [] + bare.pending == queue;
    }
    VisitAllKeeps(bare, el, queue, []);
    PollEndsWell(VisitAll(bare, el, queue));
  }

  // ---------------------------------------------------------------------------
  // Runs
  // ---------------------------------------------------------------------------

  /** What a loop, or the runtime, does to the futures: operations and polls with the loop active,
      dropping a loop's futures as it ends, and teardown. */
  datatype Action =
    | Within(el: nat, ops: seq<Op>)
    | PollBy(el: nat)
    | End(el: nat)
    | TearDown

  ghost function Act(s: FutState, a: Action): FutState {
    match a
    case Within(el, ops) => FutOps(s.(owner := el), ops).(owner := s.owner)
    case PollBy(el) => PollAll(s.(owner := el), el).state.(owner := s.owner)
    case End(el) => if el == 0 then s else Drop(s, OfOwner(el), LoopEnded(el))
    case TearDown => Drop(s, All, TornDown)
  }

  ghost function Run(s: FutState, actions: seq<Action>): FutState {
    if actions == [] then s else Act(Run(s, actions[..|actions| - 1]), actions[|actions| - 1])
  }

  /** The invariant does not depend on the owner in force. */
  lemma {:induction false} OwnerAside(s: FutState, owner: nat)
    ensures Inv(s.(owner := owner)) <==> Inv(s)
  {
    InvOfQueue(s);
    InvOfQueue(s.(owner := owner));
  }

  lemma {:induction false} WithinKeeps(s: FutState, el: nat, ops: seq<Op>)
    requires Inv(s)
    ensures Inv(Act(s, Within(el, ops)))
  {
    var t := s.(owner := el);
    OwnerAside(s, el);
    OpsKeep(t, [], ops);
    OwnerAside(FutOps(t, ops), s.owner);
  }

  lemma {:induction false} PollByKeeps(s: FutState, el: nat)
    requires Inv(s)
    ensures Inv(Act(s, PollBy(el)))
  {
    var t := s.(owner := el);
    OwnerAside(s, el);
    PollKeeps(t, el);
    OwnerAside(PollAll(t, el).state, s.owner);
  }

  lemma {:induction false} ActKeeps(s: FutState, a: Action)
    requires Inv(s)
    ensures Inv(Act(s, a)) && Act(s, a).owner == s.owner
  {
    match a
    case Within(el, ops) => WithinKeeps(s, el, ops);
    case PollBy(el) => PollByKeeps(s, el);
    case End(el) =>
      if el != 0 {
        DropKeeps(s, [], OfOwner(el), LoopEnded(el));
      }
    case TearDown => DropKeeps(s, [], All, TornDown);
  }

  lemma {:induction false} RunKeeps(s: FutState, actions: seq<Action>)
    requires Inv(s)
    ensures Inv(Run(s, actions)) && Run(s, actions).owner == s.owner
  {
    if actions == [] {
    } else {
      RunKeeps(s, actions[..|actions| - 1]);
      ActKeeps(Run(s, actions[..|actions| - 1]), actions[|actions| - 1]);
    }
  }

  // ---------------------------------------------------------------------------
  // Conservation and ownership
  // ---------------------------------------------------------------------------

  function NumbersOf(q: seq<PendingPromise>): set<nat> {
    set f | f in q :: f.number
  }

  lemma {:induction false} CountNumbers(q: seq<PendingPromise>)
    requires Increasing(q)
    ensures |NumbersOf(q)| == |q|
  {
    if q == [] {
    } else {
      var front, last := q[..|q| - 1], q[|q| - 1];
      CountNumbers(front);
      assert q == front + [last];
      IncreasingConcat(front, [last]);
      assert NumbersOf(q) == NumbersOf(front) + {last.number};
    }
  }

  function UpTo(n: nat): (r: set<nat>)
    ensures forall i: nat :: i in r <==> i < n
    ensures |r| == n
  {
    if n == 0 then {} else UpTo(n - 1) + {n - 1}
  }

  ghost function CompletedIn(s: FutState): set<nat> {
    set n | n in s.fates && s.fates[n].Completed?
  }

  ghost function CancelledIn(s: FutState): set<nat> {
    set n | n in s.fates && !s.fates[n].Completed?
  }

  lemma {:induction false} CountFates(s: FutState)
    ensures |s.fates.Keys| == |CompletedIn(s)| + |CancelledIn(s)|
  {
    assert s.fates.Keys == CompletedIn(s) + CancelledIn(s);
  }

  /** Each future spawned is in the queues or has a fate, and not both. */
  lemma {:induction false} EveryNumberOnce(s: FutState)
    requires Inv(s)
    ensures UpTo(|s.spawned|) == NumbersOf(s.active + s.pending) + s.fates.Keys
    ensures NumbersOf(s.active + s.pending) !! s.fates.Keys
    ensures Increasing(s.active + s.pending)
  {
    InvOfQueue(s);
    var queue := s.active + s.pending;
    forall i: nat | i < |s.spawned|
      ensures i in NumbersOf(queue) + s.fates.Keys
    {
      if i !in s.fates {
        assert Numbered(i, queue);
      }
    }
  }

  /** Over every run no future is lost or duplicated, the queues stay in spawn order, and only a
      future's own loop polls it to completion or drops it as it ends. */
  lemma {:induction false} Conservation(actions: seq<Action>)
    ensures var s := Run(NO_FUTURES, actions);
      && |s.spawned| == |CompletedIn(s)| + |CancelledIn(s)| + |s.active| + |s.pending|
      && NumbersOf(s.active + s.pending) !! s.fates.Keys
      && Increasing(s.active + s.pending)
      && (forall f :: f in s.active + s.pending ==> f.number < |s.spawned| && f.owner == s.spawned[f.number])
      && (forall n :: n in s.fates ==> n < |s.spawned| && FateFits(s.spawned[n], s.fates[n]))
  {
    RunKeeps(NO_FUTURES, actions);
    var s := Run(NO_FUTURES, actions);
    InvOfQueue(s);
    EveryNumberOnce(s);
    CountNumbers(s.active + s.pending);
    CountFates(s);
    assert |UpTo(|s.spawned|)| == |NumbersOf(s.active + s.pending)| + |s.fates.Keys|;
  }

  lemma {:induction false} OneOp(s: FutState, op: Op)
    ensures FutOps(s, [op]) == FutOp(s, op)
  {
    assert [op][..0] == [];
  }

  // ---------------------------------------------------------------------------
  // Progress
  // ---------------------------------------------------------------------------

  /** Future `n` was spawned by now, and is out of the queues or finishes within `k` more polls. */
  ghost predicate FinishesWithin(s: FutState, n: nat, k: nat) {
    && n < |s.spawned|
    && forall f :: f in s.active + s.pending && f.number == n ==> Polls(f.future) <= k
  }

  /** Nothing enters the queues but new spawns, and owners are recorded once. */
  ghost predicate Extends(s: FutState, t: FutState) {
    && s.spawned <= t.spawned
    && forall f :: f in t.active + t.pending ==> f in s.active + s.pending || f.number >= |s.spawned|
  }

  lemma {:induction false} OpsExtend(s: FutState, ops: seq<Op>)
    ensures Extends(s, FutOps(s, ops))
  {
    if ops == [] {
    } else {
      OpsExtend(s, ops[..|ops| - 1]);
    }
  }

  lemma {:induction false} VisitsExtend(s: FutState, el: nat, detached: seq<PendingPromise>)
    ensures Extends(s, VisitAll(s, el, detached).state)
  {
    if detached == [] {
    } else {
      var front, f := detached[..|detached| - 1], detached[|detached| - 1];
      VisitsExtend(s, el, front);
      OpsExtend(VisitAll(s, el, front).state, f.future.effects);
    }
  }

  /** `g` is `f` after a poll of loop `el`. */
  predicate PolledFrom(f: PendingPromise, g: PendingPromise, el: nat) {
    && f.number == g.number
    && f.owner == g.owner
    && Polls(g.future) + (if OwnedBy(f.owner, el) then 1 else 0) == Polls(f.future)
  }

  /** Survivors are the futures of other loops, unchanged, and the owned ones with a poll less. */
  lemma {:induction false} SurvivorsLoseAPoll(q: seq<PendingPromise>, el: nat)
    ensures forall g :: g in Survivors(q, el) ==> exists f :: f in q && PolledFrom(f, g, el)
    ensures forall f :: f in q && !OwnedBy(f.owner, el) ==> f in Survivors(q, el)
  {
    if q == [] {
    } else {
      var front, last := q[..|q| - 1], q[|q| - 1];
      SurvivorsLoseAPoll(front, el);
      assert q == front + [last];
      forall g | g in Survivors(q, el)
        ensures exists f :: f in q && PolledFrom(f, g, el)
      {
        if g in Survivors(front, el) {
          var f :| f in front && PolledFrom(f, g, el);
          assert f in q;
        } else {
          assert last in q && PolledFrom(last, g, el);
        }
      }
    }
  }

  /** A poll of loop `el` leaves every other loop's future queued and unchanged, and brings each
      future the loop may drive one poll closer to its end. */
  lemma {:induction false} PollProgress(s: FutState, el: nat)
    requires Inv(s)
    ensures var t := PollAll(s, el).state;
      && s.spawned <= t.spawned
      && (forall f :: f in s.active + s.pending && !OwnedBy(f.owner, el) ==> f in t.active + t.pending)
      && (forall n: nat, k: nat :: FinishesWithin(s, n, k) ==>
            FinishesWithin(t, n, if k > 0 && OwnedBy(s.spawned[n], el) then k - 1 else k))
  {
    var queue := s.active + s.pending;
    var bare := s.(active := [], pending := []);
    var t := PollAll(s, el).state;
    PollKeeps(s, el);
    SurvivorsLoseAPoll(queue, el);
    VisitsExtend(bare, el, queue);
    forall n: nat, k: nat | FinishesWithin(s, n, k)
      ensures FinishesWithin(t, n, if k > 0 && OwnedBy(s.spawned[n], el) then k - 1 else k)
    {
      forall g | g in t.active + t.pending && g.number == n
        ensures Polls(g.future) <= if k > 0 && OwnedBy(s.spawned[n], el) then k - 1 else k
      {
        assert g in t.active;
        var f :| f in queue && PolledFrom(f, g, el);
      }
    }
  }

  lemma {:induction false} ActExtends(s: FutState, a: Action)
    requires Inv(s)
    ensures s.spawned <= Act(s, a).spawned
  {
    match a
    case Within(el, ops) => OpsExtend(s.(owner := el), ops);
    case PollBy(el) => PollProgress(s.(owner := el), el);
    case End(_) =>
    case TearDown =>
  }

  /** Nothing any loop does takes a future further from its end. */
  lemma {:induction false} ActProgress(s: FutState, a: Action, n: nat, k: nat)
    requires Inv(s) && FinishesWithin(s, n, k)
    ensures s.spawned <= Act(s, a).spawned && FinishesWithin(Act(s, a), n, k)
  {
    match a
    case Within(el, ops) =>
      OpsExtend(s.(owner := el), ops);
    case PollBy(el) =>
      var s' := s.(owner := el);
      assert Inv(s') && FinishesWithin(s', n, k);
      PollProgress(s', el);
    case End(_) =>
    case TearDown =>
  }
}
