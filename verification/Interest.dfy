/** When interest is held and when a stop is requested, in terms of the operations performed alone. */
module KeepingAlive {
  import opened Common
  import opened Work
  import opened TaskQueues
  import opened EventLoops
  import O = DispatchOrders

  // ---------------------------------------------------------------------------
  // Interest
  // ---------------------------------------------------------------------------

  /** How many operations take interest, and how many give it up. */
  function Acquired(ops: seq<Op>): nat {
    if ops == [] then 0
    else Acquired(ops[..|ops| - 1]) + if ops[|ops| - 1].AcquireInterest? then 1 else 0
  }

  function Released(ops: seq<Op>): nat {
    if ops == [] then 0
    else Released(ops[..|ops| - 1]) + if ops[|ops| - 1].ReleaseInterest? then 1 else 0
  }

  /** `after` is the interest held when `before` was held and `ops` happened: at least what was taken
      beyond what was given up, and never less than nothing. It is exactly that while nothing is given
      up that was not taken. */
  ghost predicate Balances(before: nat, ops: seq<Op>, after: nat) {
    && after + Released(ops) >= before + Acquired(ops)
    && after <= before + Acquired(ops)
    && ((forall i :: 0 <= i <= |ops| ==> before + Acquired(ops[..i]) >= Released(ops[..i])) ==>
        after + Released(ops) == before + Acquired(ops))
  }

  lemma {:induction false} InterestBalances(s: LoopState, ops: seq<Op>)
    ensures Balances(s.interest, ops, LoopOps(s, ops).interest)
  {
    if ops == [] {
    } else {
      var front := ops[..|ops| - 1];
      InterestBalances(s, front);
      assert ops[..|ops|] == ops;
      assert forall i :: 0 <= i <= |front| ==> front[..i] == ops[..i];
    }
  }

  lemma {:induction false} CountsConcat(a: seq<Op>, b: seq<Op>)
    ensures Acquired(a + b) == Acquired(a) + Acquired(b) && Released(a + b) == Released(a) + Released(b)
  {
    if b == [] {
      assert a + b == a;
    } else {
      CountsConcat(a, b[..|b| - 1]);
      assert (a + b)[..|a + b| - 1] == a + b[..|b| - 1];
    }
  }

  /** More was taken than given up since some point: that much is still held. */
  lemma {:induction false} InterestIsHeld(s: LoopState, before: seq<Op>, since: seq<Op>)
    ensures LoopOps(s, before + since).interest + Released(since) >= Acquired(since)
  {
    O.OpsThenOps(s, before, since);
    InterestBalances(LoopOps(s, before), since);
  }

  // ---------------------------------------------------------------------------
  // Stop requests
  // ---------------------------------------------------------------------------

  lemma {:induction false} StopIsRequested(s: LoopState, ops: seq<Op>)
    ensures LoopOps(s, ops).stop <==> s.stop || RequestStop in ops
  {
    if ops == [] {
    } else {
      var front, last := ops[..|ops| - 1], ops[|ops| - 1];
      StopIsRequested(s, front);
      assert ops == front + [last];
    }
  }

  // ---------------------------------------------------------------------------
  // A step's operations count like any others
  // ---------------------------------------------------------------------------

  /** From `s` to `t` interest and stop request are what `ops` make of them. */
  ghost predicate Follows(s: LoopState, ops: seq<Op>, t: LoopState) {
    && t.interest == LoopOps(s, ops).interest
    && t.stop == LoopOps(s, ops).stop
  }

  lemma {:induction false} OpFollowsFrom(s: LoopState, t: LoopState, op: Op)
    requires s.interest == t.interest && s.stop == t.stop
    ensures LoopOp(s, op).interest == LoopOp(t, op).interest && LoopOp(s, op).stop == LoopOp(t, op).stop
  {
  }

  /** Interest and stop request depend on those before alone. */
  lemma {:induction false} FollowsFrom(s: LoopState, t: LoopState, ops: seq<Op>)
    requires s.interest == t.interest && s.stop == t.stop
    ensures Follows(s, ops, LoopOps(t, ops))
  {
    if ops == [] {
    } else {
      var front := ops[..|ops| - 1];
      FollowsFrom(s, t, front);
      OpFollowsFrom(LoopOps(s, front), LoopOps(t, front), ops[|ops| - 1]);
    }
  }

  lemma {:induction false} FollowsOn(s: LoopState, a: seq<Op>, t: LoopState, b: seq<Op>)
    requires Follows(s, a, t)
    ensures Follows(s, a + b, LoopOps(t, b))
  {
    O.OpsThenOps(s, a, b);
    FollowsFrom(LoopOps(s, a), t, b);
  }

  lemma {:induction false} FollowsThrough(s: LoopState, a: seq<Op>, t: LoopState, b: seq<Op>, u: LoopState)
    requires Follows(s, a, t) && Follows(t, b, u)
    ensures Follows(s, a + b, u)
  {
    FollowsOn(s, a, t, b);
  }

  lemma {:induction false} TaskFollows(s: LoopState, a: seq<Op>, t: LoopState, id: nat, task: Task)
    requires Follows(s, a, t)
    ensures Follows(s, a + (task.body + task.tail), TaskRun(t, id, task))
  {
    FollowsOn(s, a, t, task.body);
    FollowsOn(s, a + task.body, Requeued(LoopOps(t, task.body), id, task.again), task.tail);
    assert a + (task.body + task.tail) == a + task.body + task.tail;
  }

  lemma {:induction false} BatchFollows(s: LoopState, ids: seq<nat>)
    ensures var b := RunBatch(s, ids); Follows(s, O.OpsOf(b.ran), b.state)
  {
    if ids == [] {
    } else {
      var before, b, id := RunBatch(s, ids[..|ids| - 1]), RunBatch(s, ids), ids[|ids| - 1];
      BatchFollows(s, ids[..|ids| - 1]);
      if id in before.state.entries {
        var t, task := before.state.(entries := before.state.entries - {id}), before.state.entries[id].task;
        TaskFollows(s, O.OpsOf(before.ran), t, id, task);
        assert b.ran[..|b.ran| - 1] == before.ran;
      }
    }
  }

  lemma {:induction false} StepFollows(s: LoopState, now: nat)
    ensures var b := StepRun(s, now); Follows(s, O.OpsOf(b.ran), b.state)
  {
    var t := s.(entries := Expired(s.entries, now));
    BatchFollows(t, Ids(ReadyOrder(t.entries)));
    var b := StepRun(s, now);
    FollowsFrom(s, t, O.OpsOf(b.ran));
  }
}
