/** The futures behind JavaScript promises, shared by every event loop of a thread: two queues and
    the id of the loop that owns what is spawned now. */
module Futures {
  import opened Work

  /** A queued future. `number` is the place of its spawn among all spawns, which the program does
      not store: it identifies the future in what is proved. Owner 0 is no loop. */
  datatype PendingPromise = PendingPromise(number: nat, owner: nat, promise: nat, future: Future)

  predicate OwnedBy(owner: nat, el: nat) {
    owner == el || owner == 0
  }

  /** How a future left the queues: completed by a poll of loop `el`, dropped with its promise while
      `el` was the current owner, dropped because loop `el` ended, or dropped at teardown. */
  datatype Fate = Completed(el: nat) | Aborted(promise: nat, el: nat) | LoopEnded(el: nat) | TornDown

  /** The queues and the current owner, with the history of spawns (the owner of each) and fates. */
  datatype FutState = FutState(
    active: seq<PendingPromise>,
    pending: seq<PendingPromise>,
    owner: nat,
    spawned: seq<nat>,
    fates: map<nat, Fate>)

  const NO_FUTURES := FutState([], [], 0, [], map[])

  // ---------------------------------------------------------------------------
  // Operations
  // ---------------------------------------------------------------------------

  predicate HasFutures(s: FutState, el: nat) {
    exists f :: f in s.active + s.pending && OwnedBy(f.owner, el)
  }

  /** Which futures a cancellation drops. */
  datatype Pick = WithPromise(promise: nat) | OfOwner(owner: nat) | All

  predicate Picked(f: PendingPromise, pick: Pick) {
    match pick
    case WithPromise(p) => f.promise == p
    case OfOwner(o) => f.owner == o
    case All => true
  }

  function Retained(q: seq<PendingPromise>, pick: Pick): (r: seq<PendingPromise>)
    ensures forall f :: f in r <==> f in q && !Picked(f, pick)
    ensures pick == All ==> r == []
  {
    if q == [] then []
    else
      var last := q[|q| - 1];
      var rest := Retained(q[..|q| - 1], pick);
      assert q == q[..|q| - 1] + [last];
      if Picked(last, pick) then rest else rest + [last]
  }

  ghost function PickedNumbers(s: FutState, pick: Pick): set<nat> {
    set f | f in s.active + s.pending && Picked(f, pick) :: f.number
  }

  /** Drop the picked futures from both queues, recording `fate` for each. */
  ghost function Drop(s: FutState, pick: Pick, fate: Fate): FutState {
    s.(active := Retained(s.active, pick),
       pending := Retained(s.pending, pick),
       fates := s.fates + map n | n in PickedNumbers(s, pick) :: fate)
  }

  /** The effect of one operation on the futures. Operations on the event loop have none. */
  ghost function FutOp(s: FutState, op: Op): FutState {
    match op
    case Spawn(promise, future) =>
      s.(pending := s.pending + [PendingPromise(|s.spawned|, s.owner, promise, future)],
         spawned := s.spawned + [s.owner])
    case CancelFuture(promise) => Drop(s, WithPromise(promise), Aborted(promise, s.owner))
    case _ => s
  }

  ghost function FutOps(s: FutState, ops: seq<Op>): FutState {
    if ops == [] then s else FutOp(FutOps(s, ops[..|ops| - 1]), ops[|ops| - 1])
  }

  /** One call of `poll_pending_futures` under way: the futures kept so far, what the polled
      ones leave for the drain that follows, their numbers, and what the polls did. */
  datatype Poll = Poll(
    state: FutState,
    kept: seq<PendingPromise>,
    drains: seq<seq<Op>>,
    polled: seq<nat>,
    effects: seq<Op>)

  /** What a poll of `future` leaves for the drain: a settled promise's reactions, or microtasks. */
  function LeftToDrain(future: Future): seq<seq<Op>> {
    match future
    case Finishes(_, reactions) => [reactions]
    case Waits(_, jobs, _) => if jobs == [] then [] else [jobs]
  }

  /** Visit one detached future on behalf of loop `el`. */
  ghost function Visit(p: Poll, el: nat, f: PendingPromise): Poll {
    if !OwnedBy(f.owner, el) then
      p.(kept := p.kept + [f])
    else
      var s := FutOps(p.state, f.future.effects);
      var q := p.(drains := p.drains + LeftToDrain(f.future),
                  polled := p.polled + [f.number],
                  effects := p.effects + f.future.effects);
      match f.future
      case Finishes(_, _) =>
        q.(state := s.(fates := s.fates[f.number := Completed(el)]))
      case Waits(_, _, next) =>
        q.(state := s, kept := p.kept + [f.(future := next)])
  }

  ghost function VisitAll(s: FutState, el: nat, detached: seq<PendingPromise>): Poll {
    if detached == [] then Poll(s, [], [], [], [])
    else Visit(VisitAll(s, el, detached[..|detached| - 1]), el, detached[|detached| - 1])
  }

  /** Poll loop `el`'s futures and the unowned ones, once each. */
  ghost function PollAll(s: FutState, el: nat): Poll {
    var p := VisitAll(s.(active := [], pending := []), el, s.active + s.pending);
    p.(state := p.state.(active := p.state.active + p.kept))
  }

  // ---------------------------------------------------------------------------
  // The shared cells
  // ---------------------------------------------------------------------------

  class PromiseTls {
    var pending: seq<PendingPromise>
    var active: seq<PendingPromise>
    var owner: nat
    /** How many futures were spawned, for numbering them. Not a field of the program. */
    var spawnCount: nat
    ghost var spawned: seq<nat>
    ghost var fates: map<nat, Fate>

    ghost function State(): FutState
      reads this
    {
      FutState(active, pending, owner, spawned, fates)
    }

    ghost predicate Valid()
      reads this
    {
      spawnCount == |spawned|
    }

    constructor ()
      ensures Valid() && State() == NO_FUTURES
    {
      pending, active, owner, spawnCount, spawned, fates := [], [], 0, 0, [], map[];
    }

    method SetCurrentFutureOwner(newOwner: nat) returns (previous: nat)
      modifies this`owner
      ensures owner == newOwner && previous == old(owner)
    {
      previous := owner;
      owner := newOwner;
    }

    method Perform(op: Op)
      requires Valid()
      modifies this
      ensures Valid()
      ensures State() == FutOp(old(State()), op)
    {
      match op {
        case Spawn(promise, future) =>
          SpawnFuture(promise, future);
        case CancelFuture(promise) =>
          var found := CancelPendingFuture(promise);
        case _ =>
      }
    }

    method PerformAll(ops: seq<Op>)
      requires Valid()
      modifies this
      ensures Valid()
      ensures State() == FutOps(old(State()), ops)
    {
      for i := 0 to |ops|
        invariant Valid()
        invariant State() == FutOps(old(State()), ops[..i])
      {
        assert ops[..i + 1][..i] == ops[..i];
        Perform(ops[i]);
      }
      assert ops[..|ops|] == ops;
    }

    /** The number only identifies the future in the history. */
    method SpawnFuture(promise: nat, future: Future)
      requires Valid()
      modifies this
      ensures Valid()
      ensures State() == FutOp(old(State()), Spawn(promise, future))
    {
      pending := pending + [PendingPromise(spawnCount, owner, promise, future)];
      spawnCount := spawnCount + 1;
      spawned := spawned + [owner];
    }

    method CancelPendingFuture(promise: nat) returns (found: bool)
      requires Valid()
      modifies this
      ensures Valid()
      ensures State() == FutOp(old(State()), CancelFuture(promise))
      ensures found <==> exists f :: f in old(active) + old(pending) && f.promise == promise
    {
      found := exists f :: f in active + pending && f.promise == promise;
      fates := Drop(State(), WithPromise(promise), Aborted(promise, owner)).fates;
      pending := Retained(pending, WithPromise(promise));
      active := Retained(active, WithPromise(promise));
    }

    /** For a loop that ends with futures in flight. Owner 0 belongs to no single loop. */
    method CancelPendingFuturesFor(loopOwner: nat)
      requires Valid() && loopOwner != 0
      modifies this
      ensures Valid()
      ensures State() == Drop(old(State()), OfOwner(loopOwner), LoopEnded(loopOwner))
    {
      fates := Drop(State(), OfOwner(loopOwner), LoopEnded(loopOwner)).fates;
      pending := Retained(pending, OfOwner(loopOwner));
      active := Retained(active, OfOwner(loopOwner));
    }

    /** For teardown. */
    method CancelAllPendingFutures()
      requires Valid()
      modifies this
      ensures Valid()
      ensures State() == Drop(old(State()), All, TornDown)
      ensures active == [] && pending == []
    {
      fates := Drop(State(), All, TornDown).fates;
      pending, active := [], [];
    }

    predicate HasPendingFutures(el: nat): (has: bool)
      reads this
      ensures has == HasFutures(State(), el)
    {
      || (exists f :: f in active && OwnedBy(f.owner, el))
      || (exists f :: f in pending && OwnedBy(f.owner, el))
    }

    /** Detach every queued future, poll those of loop `el` and the unowned ones, and put back the
        ones not finished. What the polls do to the futures happens as they run. What they do to the
        event loop is returned in order, as is what they leave for the drain. */
    method PollPendingFutures(el: nat) returns (drains: seq<seq<Op>>, ghost polled: seq<nat>, effects: seq<Op>)
      requires Valid()
      modifies this
      ensures Valid()
      ensures var p := PollAll(old(State()), el);
        State() == p.state && drains == p.drains && polled == p.polled && effects == p.effects
    {
      ghost var before := State();
      var futures := active + pending;
      active, pending := [], [];
      ghost var detached := State();
      var stillPending: seq<PendingPromise> := [];
      drains, polled, effects := [], [], [];
      for i := 0 to |futures|
        invariant Valid()
        invariant VisitAll(detached, el, futures[..i])
          == Poll(State(), stillPending, drains, polled, effects)
      {
        assert futures[..i + 1][..i] == futures[..i];
        var f := futures[i];
        if !OwnedBy(f.owner, el) {
          stillPending := stillPending + [f];
          continue;
        }
        drains := drains + LeftToDrain(f.future);
        polled := polled + [f.number];
        effects := effects + f.future.effects;
        PerformAll(f.future.effects);
        match f.future {
          case Finishes(_, _) =>
            fates := fates[f.number := Completed(el)];
          case Waits(_, _, next) =>
            stillPending := stillPending + [f.(future := next)];
        }
      }
      assert futures[..|futures|] == futures;
      active := active + stillPending;
    }
  }
}
