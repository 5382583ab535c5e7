/** The registry of class derivations: a cached list of ancestors for brand checks, and the accessors
    that lead from an object's data to the data of an ancestor embedded in it. */
module Inheritance {
  import opened Common

  /** A class's direct parent, its cached ancestors (parent first), and its two accessors. */
  datatype Info = Info(
    parentTag: nat,
    ancestors: seq<nat>,
    accessor: int -> int,
    accessorMut: int -> int)

  type Registry = map<nat, Info>

  /** Which accessor a walk uses. */
  datatype Access = Shared | Exclusive

  function Stepped(info: Info, access: Access, ptr: int): int {
    match access
    case Shared => info.accessor(ptr)
    case Exclusive => info.accessorMut(ptr)
  }

  function AncestorsOf(m: Registry, tag: nat): seq<nat> {
    if tag in m then m[tag].ancestors else []
  }

  function Registered(m: Registry, child: nat, parent: nat, accessor: int -> int, accessorMut: int -> int): Registry {
    m[child := Info(parent, [parent] + AncestorsOf(m, parent), accessor, accessorMut)]
  }

  // ---------------------------------------------------------------------------
  // When the cache is right
  // ---------------------------------------------------------------------------

  /** Every cached list is the parent followed by the parent's own list. */
  ghost predicate Coherent(m: Registry) {
    forall c :: c in m ==> m[c].ancestors == [m[c].parentTag] + AncestorsOf(m, m[c].parentTag)
  }

  /** The parents found by walking, which ends because the cached lists get shorter. */
  ghost function Chain(m: Registry, tag: nat): seq<nat>
    requires Coherent(m)
    decreases |AncestorsOf(m, tag)|
  {
    if tag !in m then [] else [m[tag].parentTag] + Chain(m, m[tag].parentTag)
  }

  lemma {:induction false} CacheIsTheChain(m: Registry, tag: nat)
    requires Coherent(m)
    ensures AncestorsOf(m, tag) == Chain(m, tag)
    decreases |AncestorsOf(m, tag)|
  {
    if tag in m {
      CacheIsTheChain(m, m[tag].parentTag);
    }
  }

  /** No other class deriving directly from `child` relies on a different list for it than `list`. */
  ghost predicate ChildrenStayRight(m: Registry, child: nat, list: seq<nat>) {
    forall d :: d in m && d != child && m[d].parentTag == child ==> AncestorsOf(m, child) == list
  }

  /** A registration keeps every cached list right exactly when no class is made its own parent, and
      no class that derives directly from it was cached with a different list for it. Registering
      parents first, and again under the same parent, is always such a case. */
  lemma {:induction false} RegistrationKeepsTheCache(
      m: Registry, child: nat, parent: nat, accessor: int -> int, accessorMut: int -> int)
    requires Coherent(m)
    ensures Coherent(Registered(m, child, parent, accessor, accessorMut))
      <==> parent != child && ChildrenStayRight(m, child, [parent] + AncestorsOf(m, parent))
  {
    var after := Registered(m, child, parent, accessor, accessorMut);
    if parent == child {
      assert |after[child].ancestors| == 1 + |AncestorsOf(m, parent)|;
    } else {
      forall d | d in m && d != child && m[d].parentTag == child && Coherent(after)
        ensures AncestorsOf(m, child) == [parent] + AncestorsOf(m, parent)
      {
        assert after[d].ancestors == [child] + after[child].ancestors;
        assert m[d].ancestors[1..] == AncestorsOf(m, child);
        assert after[d].ancestors[1..] == after[child].ancestors;
      }
    }
  }

  /** One registration as generated code makes it. */
  datatype Registration = Registration(child: nat, parent: nat, accessor: int -> int, accessorMut: int -> int)

  ghost function RegisteredAll(regs: seq<Registration>): Registry {
    if regs == [] then map[]
    else
      var r := regs[|regs| - 1];
      Registered(RegisteredAll(regs[..|regs| - 1]), r.child, r.parent, r.accessor, r.accessorMut)
  }

  /** `regs` registers classes of the hierarchy `parents`, each with its parent registered before it
      unless the parent derives from nothing. A class may be registered any number of times. */
  ghost predicate ParentsFirst(parents: map<nat, nat>, regs: seq<Registration>) {
    forall i :: 0 <= i < |regs| ==>
      var r := regs[i];
      && r.child in parents && parents[r.child] == r.parent
      && (r.parent in parents ==> exists j :: 0 <= j < i && regs[j].child == r.parent)
  }

  /** The ancestors of a class by the hierarchy alone. `depth` witnesses that embedding is finite. */
  ghost function Lineage(parents: map<nat, nat>, depth: map<nat, nat>, tag: nat): seq<nat>
    requires Embedded(parents, depth)
    decreases if tag in depth then depth[tag] else 0
  {
    if tag !in parents then []
    else if parents[tag] !in parents then [parents[tag]]
    else [parents[tag]] + Lineage(parents, depth, parents[tag])
  }

  ghost predicate Embedded(parents: map<nat, nat>, depth: map<nat, nat>) {
    forall c :: c in parents ==>
      && c in depth
      && (parents[c] in parents ==> parents[c] in depth && depth[parents[c]] < depth[c])
  }

  /** What is registered is right by the hierarchy. */
  ghost predicate Right(parents: map<nat, nat>, depth: map<nat, nat>, m: Registry)
    requires Embedded(parents, depth)
  {
    forall c :: c in m ==>
      && c in parents && m[c].parentTag == parents[c] && m[c].ancestors == Lineage(parents, depth, c)
      && (parents[c] in parents ==> parents[c] in m)
  }

  lemma {:induction false} RightIsCoherent(parents: map<nat, nat>, depth: map<nat, nat>, m: Registry)
    requires Embedded(parents, depth) && Right(parents, depth, m)
    ensures Coherent(m)
  {
    forall c | c in m
      ensures m[c].ancestors == [m[c].parentTag] + AncestorsOf(m, m[c].parentTag)
    {
      if parents[c] in m {
        assert parents[c] in parents;
      }
    }
  }

  lemma {:induction false} RegistrationIsRight(
      parents: map<nat, nat>, depth: map<nat, nat>, m: Registry, r: Registration)
    requires Embedded(parents, depth) && Right(parents, depth, m)
    requires r.child in parents && parents[r.child] == r.parent
    requires r.parent in parents ==> r.parent in m
    ensures Right(parents, depth, Registered(m, r.child, r.parent, r.accessor, r.accessorMut))
  {
    assert r.parent in m ==> r.parent in parents;
  }

  /** The classes `regs` registers. */
  ghost function Children(regs: seq<Registration>): set<nat> {
    set i | 0 <= i < |regs| :: regs[i].child
  }

  lemma {:induction false} ParentsFirstFront(parents: map<nat, nat>, regs: seq<Registration>)
    requires regs != [] && ParentsFirst(parents, regs)
    ensures ParentsFirst(parents, regs[..|regs| - 1])
    ensures var r := regs[|regs| - 1];
      && r.child in parents && parents[r.child] == r.parent
      && (r.parent in parents ==> r.parent in Children(regs[..|regs| - 1]))
  {
    var front, r := regs[..|regs| - 1], regs[|regs| - 1];
    forall i | 0 <= i < |front| && front[i].parent in parents
      ensures exists j :: 0 <= j < i && front[j].child == front[i].parent
    {
      var j :| 0 <= j < i && regs[j].child == regs[i].parent;
      assert front[j] == regs[j];
    }
    if r.parent in parents {
      var j :| 0 <= j < |regs| - 1 && regs[j].child == r.parent;
      assert front[j].child == r.parent;
    }
  }

  lemma {:induction false} ChildrenOfLonger(front: seq<Registration>, r: Registration)
    ensures Children(front + [r]) == Children(front) + {r.child}
  {
    var regs := front + [r];
    assert forall i :: 0 <= i < |front| ==> regs[i] == front[i];
    assert regs[|front|] == r;
  }

  lemma {:induction false} RegistersItsChildren(regs: seq<Registration>)
    ensures RegisteredAll(regs).Keys == Children(regs)
  {
    if regs == [] {
    } else {
      var front, r := regs[..|regs| - 1], regs[|regs| - 1];
      RegistersItsChildren(front);
      ChildrenOfLonger(front, r);
      assert regs == front + [r];
    }
  }

  lemma {:induction false} AllAreRight(parents: map<nat, nat>, depth: map<nat, nat>, regs: seq<Registration>)
    requires Embedded(parents, depth) && ParentsFirst(parents, regs)
    ensures Right(parents, depth, RegisteredAll(regs))
  {
    if regs == [] {
    } else {
      var front, r := regs[..|regs| - 1], regs[|regs| - 1];
      ParentsFirstFront(parents, regs);
      AllAreRight(parents, depth, front);
      RegistersItsChildren(front);
      RegistrationIsRight(parents, depth, RegisteredAll(front), r);
    }
  }

  /** After any parents-first run the cache is right: the registered classes are those of the run, and
      each has exactly its lineage. */
  lemma {:induction false} ParentsFirstIsRight(parents: map<nat, nat>, depth: map<nat, nat>, regs: seq<Registration>)
    requires Embedded(parents, depth) && ParentsFirst(parents, regs)
    ensures var m := RegisteredAll(regs);
      Coherent(m) && Right(parents, depth, m) && m.Keys == Children(regs)
  {
    RegistersItsChildren(regs);
    AllAreRight(parents, depth, regs);
    RightIsCoherent(parents, depth, RegisteredAll(regs));
  }

  // ---------------------------------------------------------------------------
  // Brand checks and data access
  // ---------------------------------------------------------------------------

  /** The walk along the accessors from the data of class `tag` to that of `target`. */
  ghost function Walk(m: Registry, tag: nat, target: nat, access: Access, ptr: int): Option<int>
    requires Coherent(m)
    decreases |AncestorsOf(m, tag)|
  {
    if tag !in m then None
    else
      var next := Stepped(m[tag], access, ptr);
      if m[tag].parentTag == target then Some(next) else Walk(m, m[tag].parentTag, target, access, next)
  }

  /** Apply the accessors of `tags` one after the other. */
  ghost function Project(m: Registry, tags: seq<nat>, access: Access, ptr: int): int
    requires forall t :: t in tags ==> t in m
  {
    if tags == [] then ptr
    else
      var info := m[tags[0]];
      Project(m, tags[1..], access, if access == Exclusive then info.accessorMut(ptr) else info.accessor(ptr))
  }

  /** The class and its ancestors before number `i`. */
  function Path(m: Registry, tag: nat, i: nat): seq<nat>
    requires i <= |AncestorsOf(m, tag)|
  {
    [tag] + AncestorsOf(m, tag)[..i]
  }

  /** Ancestor number `i` is the first to be `target`, and the walk to it composes the accessors up to
      there. */
  ghost predicate Arrives(m: Registry, tag: nat, target: nat, access: Access, ptr: int, i: nat)
    requires Coherent(m)
  {
    && i < |AncestorsOf(m, tag)|
    && AncestorsOf(m, tag)[i] == target && target !in AncestorsOf(m, tag)[..i]
    && (forall t :: t in Path(m, tag, i) ==> t in m)
    && Walk(m, tag, target, access, ptr) == Some(Project(m, Path(m, tag, i), access, ptr))
  }

  lemma {:induction false} ProjectFromBelow(m: Registry, tag: nat, tags: seq<nat>, access: Access, ptr: int)
    requires tag in m && forall t :: t in tags ==> t in m
    ensures Project(m, [tag] + tags, access, ptr) == Project(m, tags, access, Stepped(m[tag], access, ptr))
  {
    assert ([tag] + tags)[1..] == tags;
  }

  lemma {:induction false} PathFromBelow(m: Registry, tag: nat, i: nat)
    requires Coherent(m) && tag in m && i < |AncestorsOf(m, m[tag].parentTag)|
    ensures
      var parent, all := m[tag].parentTag, AncestorsOf(m, tag);
      && i + 1 < |all| && all[i + 1] == AncestorsOf(m, parent)[i]
      && all[..i + 1] == [parent] + AncestorsOf(m, parent)[..i]
      && Path(m, tag, i + 1) == [tag] + Path(m, parent, i)
  {
    var parent := m[tag].parentTag;
    var all, above := AncestorsOf(m, tag), AncestorsOf(m, parent);
    assert all == [parent] + above;
    assert all[..i + 1] == [parent] + above[..i];
  }

  lemma {:induction false} ArrivesFromBelow(m: Registry, tag: nat, target: nat, access: Access, ptr: int, i: nat)
    requires Coherent(m) && tag in m && m[tag].parentTag != target
    requires Arrives(m, m[tag].parentTag, target, access, Stepped(m[tag], access, ptr), i)
    ensures Arrives(m, tag, target, access, ptr, i + 1)
  {
    PathFromBelow(m, tag, i);
    ProjectFromBelow(m, tag, Path(m, m[tag].parentTag, i), access, ptr);
  }

  /** The walk arrives exactly when the target is an ancestor, and then its result composes the
      accessors of the class and of every ancestor before the target. */
  lemma {:induction false} WalkReachesAncestors(m: Registry, tag: nat, target: nat, access: Access, ptr: int)
    requires Coherent(m)
    ensures Walk(m, tag, target, access, ptr).Some? <==> target in AncestorsOf(m, tag)
    ensures target in AncestorsOf(m, tag) ==> exists i :: Arrives(m, tag, target, access, ptr, i)
    decreases |AncestorsOf(m, tag)|
  {
    if tag in m {
      var parent, next := m[tag].parentTag, Stepped(m[tag], access, ptr);
      assert AncestorsOf(m, tag) == [parent] + AncestorsOf(m, parent);
      if parent == target {
        assert Path(m, tag, 0) == [tag] && [tag][1..] == [];
        assert Arrives(m, tag, target, access, ptr, 0);
      } else {
        WalkReachesAncestors(m, parent, target, access, next);
        if target in AncestorsOf(m, parent) {
          var i :| Arrives(m, parent, target, access, next, i);
          ArrivesFromBelow(m, tag, target, access, ptr, i);
        }
      }
    }
  }

  class InheritanceRegistry {
    var classes: Registry
    const objectTag: nat

    ghost predicate Valid()
      reads this
    {
      Coherent(classes)
    }

    constructor (objectTag: nat)
      ensures Valid() && classes == map[] && this.objectTag == objectTag
    {
      classes := map[];
      this.objectTag := objectTag;
    }

    method RegisterParentInfo(child: nat, parent: nat, accessor: int -> int, accessorMut: int -> int)
      modifies this
      ensures classes == Registered(old(classes), child, parent, accessor, accessorMut)
    {
      var ancestors := [parent];
      if parent in classes {
        ancestors := ancestors + classes[parent].ancestors;
      }
      classes := classes[child := Info(parent, ancestors, accessor, accessorMut)];
      assert ancestors == [parent] + AncestorsOf(old(classes), parent);
    }

    predicate InheritsFrom(concrete: nat, target: nat): (inherits: bool)
      requires Valid()
      reads this
      ensures inherits <==> target in Chain(classes, concrete)
    {
      CacheIsTheChain(classes, concrete);
      concrete in classes && target in classes[concrete].ancestors
    }

    /** Every object is an Object, whatever is registered. */
    predicate IsDerivedFromType(concrete: nat, target: nat): (derived: bool)
      requires Valid()
      reads this
      ensures derived <==> concrete == target || target == objectTag || target in Chain(classes, concrete)
    {
      concrete == target || target == objectTag || InheritsFrom(concrete, target)
    }

    method AncestorDataPtr(concrete: nat, target: nat, data: Option<int>, access: Access) returns (ptr: Option<int>)
      requires Valid()
      ensures ptr == if data.None? then None else Walk(classes, concrete, target, access, data.value)
    {
      if concrete !in classes || data.None? {
        return None;
      }
      var tag, info, p := concrete, classes[concrete], data.value;
      while true
        invariant tag in classes && info == classes[tag]
        invariant Walk(classes, tag, target, access, p) == Walk(classes, concrete, target, access, data.value)
        decreases |AncestorsOf(classes, tag)|
      {
        p := Stepped(info, access, p);
        if info.parentTag == target {
          return Some(p);
        }
        if info.parentTag !in classes {
          return None;
        }
        tag := info.parentTag;
        info := classes[tag];
      }
    }

    /** A cast to `target` succeeds exactly when its data can be reached, for an object that has data
        and a target that is not the Object class itself. */
    method PrivateDataPtr(concrete: nat, target: nat, data: Option<int>, access: Access) returns (ptr: Option<int>)
      requires Valid()
      ensures concrete == target ==> ptr == data
      ensures concrete != target && data.Some? ==> ptr == Walk(classes, concrete, target, access, data.value)
      ensures data.None? ==> ptr.None?
      ensures data.Some? && (target == objectTag ==> concrete == target) ==>
        (ptr.Some? <==> IsDerivedFromType(concrete, target))
      ensures data.Some? && concrete != target ==> (ptr.Some? <==> InheritsFrom(concrete, target))
    {
      if concrete == target {
        return data;
      }
      ptr := AncestorDataPtr(concrete, target, data, access);
      if data.Some? {
        WalkReachesAncestors(classes, concrete, target, access, data.value);
      }
    }
  }
}
