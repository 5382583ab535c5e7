/** The borrow flag of an object's private data: one counter for all its class views. */
module Borrowing {
  import opened Common

  const UNUSED: int := 0
  const WRITING: int := -1

  /** A live guard: what kind of borrow it holds, and the part of the data it gives. */
  datatype Guard = Guard(exclusive: bool, part: nat)

  /** An object's flag, and its live guards by an identity. */
  datatype Cell = Cell(flag: int, guards: map<nat, Guard>, next: nat)

  const UNBORROWED := Cell(UNUSED, map[], 0)

  /** What code does with an object's data: borrow it through the view of one of its classes, narrow a
      shared guard to a part, or drop a guard. */
  datatype Use =
    | Borrow(view: nat)
    | BorrowMut(view: nat)
    | MapRef(guard: nat, part: nat)
    | DropGuard(guard: nat)

  /** A borrow that conflicts panics and changes nothing. Only live guards can be mapped or dropped. */
  function Apply(c: Cell, use: Use): Cell {
    match use
    case Borrow(view) =>
      if c.flag < UNUSED then c
      else Cell(c.flag + 1, c.guards[c.next := Guard(false, view)], c.next + 1)
    case BorrowMut(view) =>
      if c.flag != UNUSED then c
      else Cell(WRITING, c.guards[c.next := Guard(true, view)], c.next + 1)
    case MapRef(g, part) =>
      if g in c.guards && !c.guards[g].exclusive then c.(guards := c.guards[g := Guard(false, part)]) else c
    case DropGuard(g) =>
      if g !in c.guards then c
      else c.(flag := if c.guards[g].exclusive then UNUSED else c.flag - 1, guards := c.guards - {g})
  }

  function ApplyAll(uses: seq<Use>): Cell {
    if uses == [] then UNBORROWED else Apply(ApplyAll(uses[..|uses| - 1]), uses[|uses| - 1])
  }

  /** The object's flag, as the guards share it. */
  class BorrowCell {
    var flag: int
    ghost var guards: map<nat, Guard>
    var next: nat

    ghost function State(): Cell
      reads this
    {
      Cell(flag, guards, next)
    }

    constructor ()
      ensures State() == UNBORROWED
    {
      flag, guards, next := UNUSED, map[], 0;
    }

    /** None where the program panics. */
    method AcquireShared(view: nat) returns (guard: Option<nat>)
      modifies this
      ensures State() == Apply(old(State()), Borrow(view))
      ensures guard == if old(flag) < UNUSED then None else Some(old(next))
    {
      if flag < UNUSED {
        return None;
      }
      flag := flag + 1;
      guards := guards[next := Guard(false, view)];
      next := next + 1;
      return Some(next - 1);
    }

    method AcquireMut(view: nat) returns (guard: Option<nat>)
      modifies this
      ensures State() == Apply(old(State()), BorrowMut(view))
      ensures guard == if old(flag) != UNUSED then None else Some(old(next))
    {
      if flag != UNUSED {
        return None;
      }
      flag := WRITING;
      guards := guards[next := Guard(true, view)];
      next := next + 1;
      return Some(next - 1);
    }

    /** The projection takes the borrow over rather than taking a second one. */
    method MapRef(guard: nat, part: nat)
      requires guard in guards && !guards[guard].exclusive
      modifies this
      ensures State() == Apply(old(State()), Use.MapRef(guard, part)) && flag == old(flag)
    {
      guards := guards[guard := Guard(false, part)];
    }

    method DropRef(guard: nat)
      requires guard in guards && !guards[guard].exclusive
      modifies this
      ensures State() == Apply(old(State()), DropGuard(guard))
    {
      flag := flag - 1;
      guards := guards - {guard};
    }

    method DropRefMut(guard: nat)
      requires guard in guards && guards[guard].exclusive
      modifies this
      ensures State() == Apply(old(State()), DropGuard(guard))
    {
      flag := UNUSED;
      guards := guards - {guard};
    }
  }

  // ---------------------------------------------------------------------------
  // The flag counts the guards
  // ---------------------------------------------------------------------------

  ghost predicate AllShared(c: Cell) {
    forall g :: g in c.guards ==> !c.guards[g].exclusive
  }

  ghost predicate OneExclusive(c: Cell) {
    |c.guards| == 1 && forall g :: g in c.guards ==> c.guards[g].exclusive
  }

  /** Either readers only, counted by the flag, or one writer and nothing else. */
  ghost predicate Disciplined(c: Cell) {
    && (forall g :: g in c.guards ==> g < c.next)
    && ((AllShared(c) && c.flag == |c.guards|) || (OneExclusive(c) && c.flag == WRITING))
  }

  lemma {:induction false} ApplyKeepsDiscipline(c: Cell, use: Use)
    requires Disciplined(c)
    ensures Disciplined(Apply(c, use))
  {
    match use
    case Borrow(_) =>
      assert c.next !in c.guards;
    case BorrowMut(view) =>
      if c.flag == UNUSED {
        assert c.guards == map[];
      }
    case MapRef(g, part) =>
      if g in c.guards && !c.guards[g].exclusive {
        assert c.guards[g := Guard(false, part)].Keys == c.guards.Keys;
      }
    case DropGuard(g) =>
      if g in c.guards {
        assert (c.guards - {g}).Keys == c.guards.Keys - {g};
        assert |c.guards - {g}| == |c.guards| - 1;
        if c.guards[g].exclusive {
          assert c.guards - {g} == map[];
        }
      }
  }

  /** After any uses, through any views and in any order: the flag is -1 exactly while one exclusive
      guard and nothing else is live, and is `n` exactly while `n` shared guards and nothing else are;
      and a borrow is granted exactly when no live guard conflicts with it. */
  lemma {:induction false} FlagCountsGuards(uses: seq<Use>, view: nat, n: nat)
    ensures var c := ApplyAll(uses);
      && Disciplined(c)
      && (c.flag == WRITING <==> OneExclusive(c))
      && (c.flag == n <==> AllShared(c) && |c.guards| == n)
      && (Apply(c, Borrow(view)) != c <==> AllShared(c))
      && (Apply(c, BorrowMut(view)) != c <==> c.guards == map[])
  {
    if uses == [] {
    } else {
      FlagCountsGuards(uses[..|uses| - 1], view, n);
      ApplyKeepsDiscipline(ApplyAll(uses[..|uses| - 1]), uses[|uses| - 1]);
    }
    var c := ApplyAll(uses);
    if c.guards != map[] {
      var g :| g in c.guards;
      assert |c.guards| >= 1 by { assert g in c.guards.Keys; }
    }
  }

  /** A granted borrow is a new guard on the view it was asked for. Projections of it move it to a part
      and leave it shared, the flag and the other guards alone. */
  lemma {:induction false} GuardsHoldWhatTheyName(uses: seq<Use>, view: nat, part: nat)
    requires AllShared(ApplyAll(uses))
    ensures
      var c := ApplyAll(uses);
      var g, borrowed := c.next, ApplyAll(uses + [Borrow(view)]);
      var mapped := ApplyAll(uses + [Borrow(view)] + [MapRef(g, part)]);
      && g !in c.guards
      && borrowed.guards == c.guards[g := Guard(false, view)]
      && mapped.guards == c.guards[g := Guard(false, part)]
      && mapped.flag == borrowed.flag == |c.guards| + 1
  {
    FlagCountsGuards(uses, view, 0);
    assert (uses + [Borrow(view)])[..|uses|] == uses;
    var g := ApplyAll(uses).next;
    var longer := uses + [Borrow(view)] + [MapRef(g, part)];
    assert longer[..|longer| - 1] == uses + [Borrow(view)];
  }
}
