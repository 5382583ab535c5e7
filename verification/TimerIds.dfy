/** The ids `setTimeout` and `setInterval` return: a counter per global, skipping the ids a loop has
    live, which other globals' counters may have put there. */
module TimerIds {
  import opened Common

  /** The largest integer a JavaScript number counts up to exactly. */
  const MAX_ID: nat := 0x1F_FFFF_FFFF_FFFF

  /** The id found, or none once the counter has reached the limit, with the counter after it. */
  datatype Allocation = Allocation(id: Option<nat>, counter: nat)

  function Allocate(counter: nat, live: set<nat>): Allocation
    decreases MAX_ID - counter
  {
    if counter >= MAX_ID then Allocation(None, (counter + 1) % TWO_TO_THE_64)
    else if counter != 0 && counter !in live then Allocation(Some(counter), counter + 1)
    else Allocate(counter + 1, live)
  }

  /** The id is the first one at or after the counter that is nonzero, below the limit and not live. */
  lemma {:induction false} AllocateFindsTheFirst(counter: nat, live: set<nat>)
    ensures var a := Allocate(counter, live);
      match a.id
      case Some(id) =>
        && counter <= id < MAX_ID && id != 0 && id !in live && a.counter == id + 1
        && forall i: nat :: counter <= i < id ==> i == 0 || i in live
      case None => forall i: nat :: counter <= i < MAX_ID ==> i == 0 || i in live
    decreases MAX_ID - counter
  {
    if counter < MAX_ID && (counter == 0 || counter in live) {
      AllocateFindsTheFirst(counter + 1, live);
    }
  }

  /** The live ids, and 0, that the counter has not passed. */
  ghost function Ahead(counter: nat, live: set<nat>): set<nat> {
    set id | id in live + {0} && counter <= id
  }

  lemma {:induction false} PassingOne(counter: nat, live: set<nat>)
    requires counter == 0 || counter in live
    ensures |Ahead(counter + 1, live)| < |Ahead(counter, live)|
  {
    assert Ahead(counter, live) == Ahead(counter + 1, live) + {counter};
  }

  function CounterOf(counters: map<nat, nat>, global: nat): nat {
    if global in counters then counters[global] else 0
  }

  /** The counters of every global. */
  class ClassRegistry {
    var counters: map<nat, nat>

    constructor ()
      ensures counters == map[]
    {
      counters := map[];
    }

    method BumpCounter(global: nat) returns (value: nat)
      modifies this
      ensures value == CounterOf(old(counters), global)
      ensures counters == old(counters)[global := (value + 1) % TWO_TO_THE_64]
    {
      value := CounterOf(counters, global);
      counters := counters[global := (value + 1) % TWO_TO_THE_64];
    }

    /** None where the program stops at its assertion that the counter has not run out. */
    method NextGlobalCounter(global: nat) returns (value: Option<nat>)
      modifies this
      ensures value == if CounterOf(old(counters), global) < MAX_ID
                       then Some(CounterOf(old(counters), global)) else None
      ensures counters == old(counters)[global := (CounterOf(old(counters), global) + 1) % TWO_TO_THE_64]
    {
      var counter := BumpCounter(global);
      return if counter < MAX_ID then Some(counter) else None;
    }

    /** The loop ends because every turn but the last passes a live id, or 0. */
    method AllocateId(global: nat, live: set<nat>) returns (id: Option<nat>)
      modifies this
      ensures var a := Allocate(CounterOf(old(counters), global), live);
        id == a.id && counters == old(counters)[global := a.counter]
    {
      ghost var start := CounterOf(counters, global);
      while true
        invariant Allocate(CounterOf(counters, global), live) == Allocate(start, live)
        invariant counters == old(counters)
          || (global in counters && counters == old(counters)[global := counters[global]])
        decreases |Ahead(CounterOf(counters, global), live)|
      {
        ghost var counter := CounterOf(counters, global);
        id := NextGlobalCounter(global);
        if id.None? || (id.value != 0 && id.value !in live) {
          return;
        }
        PassingOne(counter, live);
      }
    }
  }

  // ---------------------------------------------------------------------------
  // Several loops sharing one global
  // ---------------------------------------------------------------------------

  /** The shared counter, each loop's live timer ids, the ids issued so far, and whether the counter
      has run out, which stops the program. */
  datatype Sharing = Sharing(counter: nat, live: map<nat, set<nat>>, issued: seq<nat>, stopped: bool)

  /** A loop takes an id from the shared counter, gives one up, or gets one from another global. */
  datatype Use =
    | Take(el: nat)
    | Release(el: nat, id: nat)
    | Feed(el: nat, id: nat)

  function LiveOf(s: Sharing, el: nat): set<nat> {
    if el in s.live then s.live[el] else {}
  }

  function Do(s: Sharing, use: Use): Sharing {
    if s.stopped then s
    else match use
      case Take(el) =>
        var a := Allocate(s.counter, LiveOf(s, el));
        match a.id {
          case None => s.(counter := a.counter, stopped := true)
          case Some(id) =>
            s.(counter := a.counter, live := s.live[el := LiveOf(s, el) + {id}], issued := s.issued + [id])
        }
      case Release(el, id) => s.(live := s.live[el := LiveOf(s, el) - {id}])
      case Feed(el, id) => s.(live := s.live[el := LiveOf(s, el) + {id}])
  }

  function DoAll(s: Sharing, uses: seq<Use>): Sharing {
    if uses == [] then s else Do(DoAll(s, uses[..|uses| - 1]), uses[|uses| - 1])
  }

  /** Ids issued from one global's counter are nonzero, below the limit, strictly increasing across
      all loops and so never repeated, and each was not live in the loop that took it. */
  lemma {:induction false} IssuedOnce(uses: seq<Use>)
    ensures var s := DoAll(Sharing(0, map[], [], false), uses);
      && (forall i :: 0 <= i < |s.issued| ==> 0 < s.issued[i] < MAX_ID)
      && (forall i, j :: 0 <= i < j < |s.issued| ==> s.issued[i] < s.issued[j])
      && (!s.stopped ==> s.counter <= MAX_ID && forall i :: 0 <= i < |s.issued| ==> s.issued[i] < s.counter)
    ensures uses != [] ==>
      var before := DoAll(Sharing(0, map[], [], false), uses[..|uses| - 1]);
      var s := DoAll(Sharing(0, map[], [], false), uses);
      s.issued == before.issued
      || (uses[|uses| - 1].Take? && |s.issued| == |before.issued| + 1
          && s.issued[|before.issued|] !in LiveOf(before, uses[|uses| - 1].el))
  {
    if uses == [] {
    } else {
      var before := DoAll(Sharing(0, map[], [], false), uses[..|uses| - 1]);
      IssuedOnce(uses[..|uses| - 1]);
      if uses[|uses| - 1].Take? {
        AllocateFindsTheFirst(before.counter, LiveOf(before, uses[|uses| - 1].el));
      }
    }
  }
}
