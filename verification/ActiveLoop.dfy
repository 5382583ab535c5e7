/** Which event loop is active, and who owns what is spawned, inside nested `with_event_loop` and
    `without_event_loop` blocks. */
module ActiveLoops {
  import opened Common
  import opened Work
  import opened Futures

  /** Code by its blocks, its spawns, and the panics that unwind it. */
  datatype Code =
    | With(el: nat, body: seq<Code>)
    | Without(reason: string, body: seq<Code>)
    | SpawnHere(promise: nat, future: Future)
    | Panic

  /** What code sees: the active loop, the owner of spawns, and why no loop is active. */
  datatype Scope = Scope(active: Option<nat>, owner: nat, reason: Option<string>)

  const NO_LOOP := Scope(None, 0, None)

  /** What ran: the scope of every spawn in order, and whether a panic is unwinding. */
  datatype Outcome = Outcome(spawns: seq<Scope>, unwinding: bool)

  /** Lexical scoping: a block's body sees the scope the block makes, and nothing outlives it. */
  function Entered(scope: Scope, code: Code): Scope {
    match code
    case With(el, _) => scope.(active := Some(el), owner := el)
    case Without(reason, _) => scope.(active := None, reason := Some(reason))
    case _ => scope
  }

  function RunIn(scope: Scope, code: Code): Outcome
    decreases code, 1
  {
    match code
    case With(_, body) => RunAllIn(Entered(scope, code), body)
    case Without(_, body) => RunAllIn(Entered(scope, code), body)
    case SpawnHere(_, _) => Outcome([scope], false)
    case Panic => Outcome([], true)
  }

  function RunAllIn(scope: Scope, body: seq<Code>): Outcome
    decreases body, 0
  {
    if body == [] then Outcome([], false)
    else
      var first := RunIn(scope, body[0]);
      if first.unwinding then first
      else
        var rest := RunAllIn(scope, body[1..]);
        Outcome(first.spawns + rest.spawns, rest.unwinding)
  }

  function Owners(spawns: seq<Scope>): seq<nat> {
    seq(|spawns|, i requires 0 <= i < |spawns| => spawns[i].owner)
  }

  /** The thread's cells. */
  class Cells {
    var currentEventLoop: Option<nat>
    var noLoopReason: Option<string>
    const tls: PromiseTls

    constructor (tls: PromiseTls)
      ensures this.tls == tls && currentEventLoop == None && noLoopReason == None
    {
      this.tls := tls;
      currentEventLoop, noLoopReason := None, None;
    }

    ghost function State(): Scope
      reads this, tls
    {
      Scope(currentEventLoop, tls.owner, noLoopReason)
    }

    /** The cells are set on entry and restored on every exit, so each piece of code sees what
        lexical scoping says, and leaves the cells as it found them. */
    method Run(code: Code) returns (o: Outcome)
      requires tls.Valid()
      modifies this, tls
      ensures tls.Valid() && State() == old(State())
      ensures o == RunIn(old(State()), code)
      ensures tls.spawned == old(tls.spawned) + Owners(o.spawns)
      decreases code, 1
    {
      match code {
        case With(el, body) =>
          var prevOwner := tls.SetCurrentFutureOwner(el);
          var prevLoop := currentEventLoop;
          currentEventLoop := Some(el);
          o := RunAll(body);
          currentEventLoop := prevLoop;
          var own := tls.SetCurrentFutureOwner(prevOwner);
        case Without(reason, body) =>
          var prevLoop, prevReason := currentEventLoop, noLoopReason;
          currentEventLoop, noLoopReason := None, Some(reason);
          o := RunAll(body);
          currentEventLoop, noLoopReason := prevLoop, prevReason;
        case SpawnHere(promise, future) =>
          o := Outcome([Scope(currentEventLoop, tls.owner, noLoopReason)], false);
          tls.SpawnFuture(promise, future);
        case Panic =>
          o := Outcome([], true);
      }
    }

    method RunAll(body: seq<Code>) returns (o: Outcome)
      requires tls.Valid()
      modifies this, tls
      ensures tls.Valid() && State() == old(State())
      ensures o == RunAllIn(old(State()), body)
      ensures tls.spawned == old(tls.spawned) + Owners(o.spawns)
      decreases body, 0
    {
      if body == [] {
        return Outcome([], false);
      }
      o := Run(body[0]);
      if !o.unwinding {
        var rest := RunAll(body[1..]);
        assert Owners(o.spawns + rest.spawns) == Owners(o.spawns) + Owners(rest.spawns);
        o := Outcome(o.spawns + rest.spawns, rest.unwinding);
      }
    }
  }

  // ---------------------------------------------------------------------------
  // The scope inside a stack of blocks
  // ---------------------------------------------------------------------------

  /** The scope inside `blocks`, outermost first, of code entered with no loop active. */
  function ScopeInside(blocks: seq<Code>): Scope {
    if blocks == [] then NO_LOOP
    else Entered(ScopeInside(blocks[..|blocks| - 1]), blocks[|blocks| - 1])
  }

  ghost predicate AreBlocks(blocks: seq<Code>) {
    forall b :: b in blocks ==> b.With? || b.Without?
  }

  /** The blocks around each spawn in `code`, outermost first, which itself stands inside `blocks`. */
  function Around(blocks: seq<Code>, code: Code): seq<seq<Code>>
    decreases code, 1
  {
    match code
    case With(_, body) => AroundAll(blocks + [code], body)
    case Without(_, body) => AroundAll(blocks + [code], body)
    case SpawnHere(_, _) => [blocks]
    case Panic => []
  }

  function AroundAll(blocks: seq<Code>, body: seq<Code>): seq<seq<Code>>
    decreases body, 0
  {
    if body == [] then [] else Around(blocks, body[0]) + AroundAll(blocks, body[1..])
  }

  /** `o` is what comes of running spawns inside `stacks`: each sees the scope its blocks make, and
      none is left out but for a panic. */
  ghost predicate SeesItsBlocks(o: Outcome, stacks: seq<seq<Code>>) {
    && |o.spawns| <= |stacks|
    && (!o.unwinding ==> |o.spawns| == |stacks|)
    && (forall i :: 0 <= i < |stacks| ==> AreBlocks(stacks[i]))
    && (forall i :: 0 <= i < |o.spawns| ==> o.spawns[i] == ScopeInside(stacks[i]))
  }

  /** The rest runs unless the first panics. */
  lemma {:induction false} OneAfterTheOther(first: Outcome, stacks: seq<seq<Code>>, rest: Outcome, more: seq<seq<Code>>)
    requires SeesItsBlocks(first, stacks) && SeesItsBlocks(rest, more)
    ensures SeesItsBlocks(
      if first.unwinding then first else Outcome(first.spawns + rest.spawns, rest.unwinding), stacks + more)
  {
    assert forall i :: 0 <= i < |stacks| ==> (stacks + more)[i] == stacks[i];
  }

  /** Whatever code runs inside `blocks`, each of its spawns sees the scope of the blocks around it. */
  lemma {:induction false} SpawnsSeeTheirBlocks(blocks: seq<Code>, code: Code)
    requires AreBlocks(blocks)
    ensures SeesItsBlocks(RunIn(ScopeInside(blocks), code), Around(blocks, code))
    decreases code, 1
  {
    match code
    case With(_, body) =>
      assert (blocks + [code])[..|blocks|] == blocks;
      AllSpawnsSeeTheirBlocks(blocks + [code], body);
    case Without(_, body) =>
      assert (blocks + [code])[..|blocks|] == blocks;
      AllSpawnsSeeTheirBlocks(blocks + [code], body);
    case _ =>
  }

  lemma {:induction false} AllSpawnsSeeTheirBlocks(blocks: seq<Code>, body: seq<Code>)
    requires AreBlocks(blocks)
    ensures SeesItsBlocks(RunAllIn(ScopeInside(blocks), body), AroundAll(blocks, body))
    decreases body, 0
  {
    if body == [] {
    } else {
      SpawnsSeeTheirBlocks(blocks, body[0]);
      AllSpawnsSeeTheirBlocks(blocks, body[1..]);
      var scope := ScopeInside(blocks);
      OneAfterTheOther(RunIn(scope, body[0]), Around(blocks, body[0]),
                       RunAllIn(scope, body[1..]), AroundAll(blocks, body[1..]));
    }
  }

  /** The innermost of `blocks` decides the active loop. */
  function ActiveInside(blocks: seq<Code>): Option<nat> {
    if blocks != [] && blocks[|blocks| - 1].With? then Some(blocks[|blocks| - 1].el) else None
  }

  /** The innermost `With` of `blocks` decides the owner, which is 0 if there is none. */
  ghost predicate IsOwnerInside(owner: nat, blocks: seq<Code>) {
    && ((forall b :: b in blocks ==> b.Without?) ==> owner == 0)
    && forall i :: 0 <= i < |blocks| && blocks[i].With? && (forall j :: i < j < |blocks| ==> blocks[j].Without?) ==>
        owner == blocks[i].el
  }

  ghost predicate GivesReason(blocks: seq<Code>, i: int, reason: string) {
    && 0 <= i < |blocks| && blocks[i].Without? && blocks[i].reason == reason
    && forall j :: i < j < |blocks| ==> blocks[j].With?
  }

  /** The innermost `Without` of `blocks` decides the reason, and there is none without one. */
  ghost predicate IsReasonInside(reason: Option<string>, blocks: seq<Code>) {
    match reason
    case None => forall i :: 0 <= i < |blocks| ==> blocks[i].With?
    case Some(r) => exists i :: GivesReason(blocks, i, r)
  }

  lemma {:induction false} InnermostDecides(blocks: seq<Code>)
    requires AreBlocks(blocks)
    ensures ScopeInside(blocks).active == ActiveInside(blocks)
    ensures IsOwnerInside(ScopeInside(blocks).owner, blocks)
  {
    if blocks == [] {
    } else {
      InnermostDecides(blocks[..|blocks| - 1]);
      assert blocks[|blocks| - 1] in blocks;
    }
  }

  lemma {:induction false} InnermostGivesTheReason(blocks: seq<Code>)
    requires AreBlocks(blocks)
    ensures IsReasonInside(ScopeInside(blocks).reason, blocks)
  {
    if blocks == [] {
    } else {
      var front, last := blocks[..|blocks| - 1], blocks[|blocks| - 1];
      var before := ScopeInside(front).reason;
      InnermostGivesTheReason(front);
      assert last in blocks;
      if last.Without? {
        assert GivesReason(blocks, |blocks| - 1, last.reason);
      } else if before.Some? {
        var i :| GivesReason(front, i, before.value);
        assert GivesReason(blocks, i, before.value);
      }
    }
  }

  // ---------------------------------------------------------------------------
  // Panics
  // ---------------------------------------------------------------------------

  ghost predicate Panics(code: Code) {
    match code
    case With(_, body) => exists c :: c in body && Panics(c)
    case Without(_, body) => exists c :: c in body && Panics(c)
    case SpawnHere(_, _) => false
    case Panic => true
  }

  /** Code unwinds exactly if it holds a panic. */
  lemma {:induction false} UnwindsExactlyIf(scope: Scope, code: Code)
    ensures RunIn(scope, code).unwinding <==> Panics(code)
    decreases code, 1
  {
    match code
    case With(_, body) => AnyUnwinds(Entered(scope, code), body);
    case Without(_, body) => AnyUnwinds(Entered(scope, code), body);
    case _ =>
  }

  lemma {:induction false} AnyUnwinds(scope: Scope, body: seq<Code>)
    ensures RunAllIn(scope, body).unwinding <==> exists c :: c in body && Panics(c)
    decreases body, 0
  {
    if body == [] {
    } else {
      UnwindsExactlyIf(scope, body[0]);
      AnyUnwinds(scope, body[1..]);
      assert body == [body[0]] + body[1..];
    }
  }

  /** Nothing runs after a panic, and what ran before it stays. */
  lemma {:induction false} NothingRunsAfterAPanic(scope: Scope, before: seq<Code>, after: seq<Code>)
    ensures RunAllIn(scope, before + [Panic] + after) == Outcome(RunAllIn(scope, before).spawns, true)
  {
    var body := before + [Panic] + after;
    if before == [] {
      assert body[0] == Panic;
    } else {
      NothingRunsAfterAPanic(scope, before[1..], after);
      assert body[0] == before[0] && body[1..] == before[1..] + [Panic] + after;
    }
  }

  /** Leaving the loop does not clear the owner: an innermost `Without` has a `With` around it. */
  ghost predicate LeavesALoop(blocks: seq<Code>) {
    blocks != [] && blocks[|blocks| - 1].Without? && exists b :: b in blocks && b.With?
  }

  lemma {:induction false} OwnerInside(blocks: seq<Code>)
    requires AreBlocks(blocks)
    requires forall b :: b in blocks && b.With? ==> b.el != 0
    ensures var s := ScopeInside(blocks);
      s.owner == (if s.active.Some? then s.active.value else 0) <==> !LeavesALoop(blocks)
  {
    InnermostDecides(blocks);
    if exists b :: b in blocks && b.With? {
      var i := LastWith(blocks);
      assert blocks[i] in blocks;
    }
  }

  /** In whatever code runs with no loop active, each spawn sees the loop of the innermost block around
      it, is owned by the innermost `With`, and has the reason of the innermost `Without`. */
  lemma {:induction false} SpawnsFollowTheirBlocks(code: Code)
    ensures var o, stacks := RunIn(NO_LOOP, code), Around([], code);
      && |o.spawns| <= |stacks| && (!o.unwinding ==> |o.spawns| == |stacks|)
      && forall i :: 0 <= i < |o.spawns| ==>
          && o.spawns[i].active == ActiveInside(stacks[i])
          && IsOwnerInside(o.spawns[i].owner, stacks[i])
          && IsReasonInside(o.spawns[i].reason, stacks[i])
  {
    SpawnsSeeTheirBlocks([], code);
    var stacks := Around([], code);
    forall i | 0 <= i < |stacks|
      ensures ScopeInside(stacks[i]).active == ActiveInside(stacks[i])
      ensures IsOwnerInside(ScopeInside(stacks[i]).owner, stacks[i])
      ensures IsReasonInside(ScopeInside(stacks[i]).reason, stacks[i])
    {
      InnermostDecides(stacks[i]);
      InnermostGivesTheReason(stacks[i]);
    }
  }

  /** A spawn is owned by the loop active where it is made, and by none where none is active, exactly
      when no `Without` directly around it leaves a loop. Loop ids are not 0. */
  lemma {:induction false} OwnerIsTheActiveLoop(code: Code, i: nat)
    requires i < |RunIn(NO_LOOP, code).spawns|
    requires forall stack :: stack in Around([], code) ==> forall b :: b in stack && b.With? ==> b.el != 0
    ensures i < |Around([], code)|
    ensures var s := RunIn(NO_LOOP, code).spawns[i];
      s.owner == (if s.active.Some? then s.active.value else 0) <==> !LeavesALoop(Around([], code)[i])
  {
    SpawnsSeeTheirBlocks([], code);
    var stack := Around([], code)[i];
    assert stack in Around([], code);
    OwnerInside(stack);
  }

  lemma {:induction false} LastWith(blocks: seq<Code>) returns (i: nat)
    requires exists b :: b in blocks && b.With?
    ensures i < |blocks| && blocks[i].With? && forall j :: i < j < |blocks| ==> !blocks[j].With?
  {
    i := |blocks| - 1;
    if !blocks[i].With? {
      assert forall b :: b in blocks ==> b in blocks[..i] || b == blocks[i];
      i := LastWith(blocks[..i]);
    }
  }

  lemma {:induction false} OnlyOne(scope: Scope, code: Code)
    ensures RunAllIn(scope, [code]) == RunIn(scope, code)
  {
    var first := RunIn(scope, code);
    assert [code][1..] == [] && first.spawns + [] == first.spawns;
  }

  /** A spawn in a `Without` block inside a `With` block of loop 1 is loop 1's. */
  lemma {:induction false} OwnerOutlivesTheLoop(promise: nat, future: Future)
    ensures RunIn(NO_LOOP, With(1, [Without("no loop", [SpawnHere(promise, future)])])).spawns
      == [Scope(None, 1, Some("no loop"))]
  {
    var spawn := SpawnHere(promise, future);
    OnlyOne(Scope(Some(1), 1, None), Without("no loop", [spawn]));
    OnlyOne(Scope(None, 1, Some("no loop")), spawn);
  }
}
