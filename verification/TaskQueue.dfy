/** The live tasks and the two sorted indexes over them. */
module TaskQueues {
  import opened Common
  import opened Work

  datatype TaskEntry = TaskEntry(id: nat, task: Task, ready: bool, deadline: Option<nat>)

  /** A position in dispatch order: a deadline, or none for a task that is not a timer, then the
      task's id. The timer index uses the keys that have a deadline. */
  datatype Key = Key(deadline: Option<nat>, id: nat)

  function KeyOf(entry: TaskEntry): Key {
    Key(entry.deadline, entry.id)
  }

  function Rank(k: Key): int {
    if k.deadline.Some? then k.deadline.value else -1
  }

  /** No deadline first, then earlier deadlines, ties by id. */
  predicate Before(a: Key, b: Key) {
    Rank(a) < Rank(b) || (Rank(a) == Rank(b) && a.id < b.id)
  }

  // ---------------------------------------------------------------------------
  // A sorted set of keys
  // ---------------------------------------------------------------------------

  predicate Sorted(s: seq<Key>) {
    forall i, j :: 0 <= i < j < |s| ==> Before(s[i], s[j])
  }

  function Inserted(s: seq<Key>, k: Key): (r: seq<Key>)
    requires Sorted(s)
    ensures Sorted(r)
    ensures forall x :: x in r <==> x in s || x == k
  {
    if s == [] then [k]
    else if s[0] == k then s
    else if Before(k, s[0]) then [k] + s
    else
      var tail := Inserted(s[1..], k);
      assert s == [s[0]] + s[1..];
      assert forall x :: x in tail ==> Before(s[0], x);
      [s[0]] + tail
  }

  function Removed(s: seq<Key>, k: Key): (r: seq<Key>)
    requires Sorted(s)
    ensures Sorted(r)
    ensures forall x :: x in r <==> x in s && x != k
  {
    if s == [] then []
    else
      var tail := Removed(s[1..], k);
      assert s == [s[0]] + s[1..];
      assert forall x :: x in tail ==> Before(s[0], x);
      if s[0] == k then s[1..] else [s[0]] + tail
  }

  /** A strictly sorted sequence is determined by its elements. */
  lemma {:induction false} SortedUnique(a: seq<Key>, b: seq<Key>)
    requires Sorted(a) && Sorted(b)
    requires forall x :: x in a <==> x in b
    ensures a == b
  {
    assert b != [] ==> b[0] in b;
    if a == [] {
    } else {
      assert a[0] in b;
      assert b[0] in a;
      assert a[0] == b[0];
      forall x
        ensures x in a[1..] <==> x in b[1..]
      {
        assert x in a <==> x == a[0] || x in a[1..];
        assert x in b <==> x == b[0] || x in b[1..];
      }
      SortedUnique(a[1..], b[1..]);
      assert a == [a[0]] + a[1..] && b == [b[0]] + b[1..];
    }
  }

  // ---------------------------------------------------------------------------
  // The specification: one unindexed store, scanned and sorted on every use
  // ---------------------------------------------------------------------------

  type Store = map<nat, TaskEntry>

  predicate WellKeyed(m: Store) {
    forall id :: id in m ==> m[id].id == id
  }

  predicate IsReady(m: Store, k: Key) {
    k.id in m && m[k.id].ready && m[k.id].deadline == k.deadline
  }

  predicate IsWaitingTimer(m: Store, k: Key) {
    k.id in m && !m[k.id].ready && k.deadline.Some? && m[k.id].deadline == k.deadline
  }

  ghost function ReadyKeys(m: Store): (keys: set<Key>)
    ensures forall k :: k in keys <==> IsReady(m, k)
  {
    var keys := set id | id in m && m[id].ready :: Key(m[id].deadline, id);
    assert forall k :: IsReady(m, k) ==> k == Key(m[k.id].deadline, k.id);
    keys
  }

  ghost predicate IsLeast(k: Key, keys: set<Key>) {
    k in keys && forall x :: x in keys ==> x == k || Before(k, x)
  }

  lemma {:induction false} HasLeast(keys: set<Key>)
    requires keys != {}
    ensures exists k :: IsLeast(k, keys)
    decreases |keys|
  {
    var k :| k in keys;
    var rest := keys - {k};
    assert keys == rest + {k};
    if rest == {} {
      assert IsLeast(k, keys);
    } else {
      HasLeast(rest);
      var l :| IsLeast(l, rest);
      assert IsLeast(if Before(l, k) then l else k, keys);
    }
  }

  /** Selection sort: the least key, then the others sorted. */
  ghost function SortKeys(keys: set<Key>): (s: seq<Key>)
    ensures Sorted(s)
    ensures forall k :: k in s <==> k in keys
    decreases |keys|
  {
    if keys == {} then []
    else
      assert exists k :: IsLeast(k, keys) by { HasLeast(keys); }
      var least :| IsLeast(least, keys);
      [least] + SortKeys(keys - {least})
  }

  // ---------------------------------------------------------------------------
  // What each operation does to the store
  // ---------------------------------------------------------------------------

  /** The dispatch order of `m`: its ready keys, sorted. */
  ghost function ReadyOrder(m: Store): (s: seq<Key>)
    ensures Sorted(s)
    ensures forall k :: k in s <==> IsReady(m, k)
  {
    SortKeys(ReadyKeys(m))
  }

  function Marked(m: Store, id: nat): Store {
    if id in m then m[id := m[id].(ready := true)] else m
  }

  predicate IsDue(entry: TaskEntry, now: nat) {
    !entry.ready && entry.deadline.Some? && entry.deadline.value <= now
  }

  /** Every unready timer whose deadline is at or before `now` is ready, and nothing else changed. */
  ghost function Expired(m: Store, now: nat): Store {
    map id | id in m :: if IsDue(m[id], now) then m[id].(ready := true) else m[id]
  }

  ghost function Due(m: Store, now: nat): set<nat> {
    set id | id in m && IsDue(m[id], now)
  }

  // ---------------------------------------------------------------------------
  // The indexed queue
  // ---------------------------------------------------------------------------

  /** The indexes agree with the store. */
  ghost predicate Indexed(entries: Store, ready: seq<Key>, timers: seq<Key>) {
    && WellKeyed(entries)
    && Sorted(ready)
    && Sorted(timers)
    && (forall k :: k in ready <==> IsReady(entries, k))
    && (forall k :: k in timers <==> IsWaitingTimer(entries, k))
  }

  function ReadyWith(ready: seq<Key>, e: TaskEntry): (r: seq<Key>)
    requires Sorted(ready)
    ensures Sorted(r)
    ensures forall k :: k in r <==> k in ready || (e.ready && k == KeyOf(e))
  {
    if e.ready then Inserted(ready, KeyOf(e)) else ready
  }

  function TimersWith(timers: seq<Key>, e: TaskEntry): (r: seq<Key>)
    requires Sorted(timers)
    ensures Sorted(r)
    ensures forall k :: k in r <==> k in timers || (!e.ready && e.deadline.Some? && k == KeyOf(e))
  {
    if !e.ready && e.deadline.Some? then Inserted(timers, KeyOf(e)) else timers
  }

  /** Whether inserting `e` overwrites nothing, or an entry that is in no index, or one in the very
      same place of the same index. */
  predicate FreshSlot(entries: Store, e: TaskEntry) {
    e.id in entries ==>
      var was := entries[e.id];
      || (!was.ready && was.deadline.None?)
      || (was.ready == e.ready && was.deadline == e.deadline)
  }

  /** Insertion leaves the indexes in agreement exactly when the slot is fresh. Otherwise the
      overwritten entry's key stays behind. */
  lemma {:induction false} InsertNeedsAFreshSlot(entries: Store, ready: seq<Key>, timers: seq<Key>, e: TaskEntry)
    requires Indexed(entries, ready, timers)
    ensures Indexed(entries[e.id := e], ReadyWith(ready, e), TimersWith(timers, e))
      <==> FreshSlot(entries, e)
  {
    var after := entries[e.id := e];
    if FreshSlot(entries, e) {
      assert forall k :: k in ReadyWith(ready, e) <==> IsReady(after, k);
      assert forall k :: k in TimersWith(timers, e) <==> IsWaitingTimer(after, k);
    } else {
      var stale := KeyOf(entries[e.id]);
      assert IsReady(entries, stale) || IsWaitingTimer(entries, stale);
      assert stale in ReadyWith(ready, e) || stale in TimersWith(timers, e);
    }
  }

  class TaskQueue {
    var entries: Store
    var ready: seq<Key>
    var timers: seq<Key>

    ghost predicate Valid()
      reads this
    {
      Indexed(entries, ready, timers)
    }

    constructor ()
      ensures Valid() && entries == map[]
    {
      entries, ready, timers := map[], [], [];
    }

    /** Does not look for an entry under the same id, and keeps the indexes right exactly if that does
        no harm. */
    method Insert(entry: TaskEntry)
      requires Valid()
      modifies this
      ensures entries == old(entries)[entry.id := entry]
      ensures Valid() <==> FreshSlot(old(entries), entry)
    {
      InsertNeedsAFreshSlot(entries, ready, timers, entry);
      if entry.ready {
        ready := Inserted(ready, KeyOf(entry));
      } else if entry.deadline.Some? {
        timers := Inserted(timers, KeyOf(entry));
      }
      entries := entries[entry.id := entry];
    }

    method Remove(id: nat) returns (entry: Option<TaskEntry>)
      requires Valid()
      modifies this
      ensures Valid() && entries == old(entries) - {id}
      ensures entry == if id in old(entries) then Some(old(entries)[id]) else None
    {
      if id !in entries {
        return None;
      }
      var e := entries[id];
      entries := entries - {id};
      if e.ready {
        ready := Removed(ready, KeyOf(e));
      } else if e.deadline.Some? {
        timers := Removed(timers, KeyOf(e));
      }
      return Some(e);
    }

    method MarkReady(id: nat) returns (found: bool)
      requires Valid()
      modifies this
      ensures Valid() && entries == Marked(old(entries), id)
      ensures found <==> id in old(entries) && !old(entries)[id].ready
    {
      if id !in entries || entries[id].ready {
        return false;
      }
      var e := entries[id].(ready := true);
      entries := entries[id := e];
      if e.deadline.Some? {
        timers := Removed(timers, KeyOf(e));
      }
      ready := Inserted(ready, KeyOf(e));
      return true;
    }

    /** Ends because the timer index holds exactly the unready timers, so each turn of the loop
        makes one of them ready. */
    method ExpireTimers(now: nat) returns (count: nat)
      requires Valid()
      modifies this
      ensures Valid() && entries == Expired(old(entries), now)
      ensures count == |Due(old(entries), now)|
    {
      count := 0;
      ghost var done: set<nat> := {};
      while timers != [] && timers[0].deadline.value <= now
        invariant Valid()
        invariant timers != [] ==> timers[0] in timers && timers[0].deadline.Some?
        invariant done <= Due(old(entries), now) && |done| == count
        invariant entries.Keys == old(entries).Keys
        invariant forall id :: id in entries ==>
          entries[id] == if id in done then old(entries)[id].(ready := true) else old(entries)[id]
        decreases Due(old(entries), now) - done
      {
        var first := timers[0];
        assert first in timers;
        var found := MarkReady(first.id);
        done := done + {first.id};
        count := count + 1;
      }
      assert forall k :: k in timers ==> now < k.deadline.value;
      assert forall id :: id in entries && !entries[id].ready && entries[id].deadline.Some? ==>
          Key(entries[id].deadline, id) in timers;
      assert done == Due(old(entries), now);
    }
  }
}
