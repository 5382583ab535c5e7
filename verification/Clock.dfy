/** The monotonic clock, continuous across snapshots although the host's clock restarts. */
module Clocks {
  import opened Common

  /** What an instance does with its clock: resume, or read it at a host reading. */
  datatype Event = Resume | Read(host: nat)

  /** An instance's life up to the snapshot it ends in, with the host reading recorded then. */
  datatype Life = Life(events: seq<Event>, recorded: nat)

  /** The clock's two cells, and every reading taken so far. */
  datatype Timeline = Timeline(offset: nat, snapshot: nat, readings: seq<nat>)

  function Happen(t: Timeline, e: Event): Timeline {
    match e
    case Resume => t.(offset := (t.offset + t.snapshot) % TWO_TO_THE_64, snapshot := 0)
    case Read(host) => t.(readings := t.readings + [(t.offset + host) % TWO_TO_THE_64])
  }

  function HappenAll(t: Timeline, events: seq<Event>): Timeline {
    if events == [] then t else Happen(HappenAll(t, events[..|events| - 1]), events[|events| - 1])
  }

  function Lived(t: Timeline, life: Life): Timeline {
    HappenAll(t, life.events).(snapshot := life.recorded)
  }

  function LivedAll(t: Timeline, lives: seq<Life>): Timeline {
    if lives == [] then t else Lived(LivedAll(t, lives[..|lives| - 1]), lives[|lives| - 1])
  }

  /** The two statics, which a snapshot carries along. */
  class Clock {
    var offset: nat
    var snapshot: nat

    constructor ()
      ensures offset == 0 && snapshot == 0
    {
      offset, snapshot := 0, 0;
    }

    /** The next reading of the timeline: past the offset by the host's reading, unless that is past
        what 64 bits hold. */
    method MonotonicNs(host: nat, ghost before: seq<nat>) returns (reading: nat)
      ensures Happen(Timeline(offset, snapshot, before), Read(host)) == Timeline(offset, snapshot, before + [reading])
      ensures reading == offset + host <==> offset + host < TWO_TO_THE_64
    {
      return (offset + host) % TWO_TO_THE_64;
    }

    method RecordSnapshotReading(host: nat)
      modifies this
      ensures snapshot == host && offset == old(offset)
    {
      snapshot := host;
    }

    method ResumeFromSnapshot() returns (added: nat)
      modifies this
      ensures added == old(snapshot) && snapshot == 0
      ensures offset == (old(offset) + added) % TWO_TO_THE_64
    {
      added := snapshot;
      snapshot := 0;
      offset := (offset + added) % TWO_TO_THE_64;
    }

    /** One instance, from its resumption to the snapshot it ends in. */
    method Live(life: Life, ghost before: seq<nat>) returns (readings: seq<nat>)
      modifies this
      ensures Timeline(offset, snapshot, before + readings)
        == Lived(Timeline(old(offset), old(snapshot), before), life)
    {
      readings := [];
      ghost var start := Timeline(offset, snapshot, before);
      for i := 0 to |life.events|
        invariant Timeline(offset, snapshot, before + readings) == HappenAll(start, life.events[..i])
      {
        assert life.events[..i + 1][..i] == life.events[..i];
        match life.events[i] {
          case Resume =>
            var added := ResumeFromSnapshot();
          case Read(host) =>
            var reading := MonotonicNs(host, before + readings);
            assert before + (readings + [reading]) == before + readings + [reading];
            readings := readings + [reading];
        }
      }
      assert life.events[..|life.events|] == life.events;
      RecordSnapshotReading(life.recorded);
    }
  }

  // ---------------------------------------------------------------------------
  // A chain of instances
  // ---------------------------------------------------------------------------

  /** The instance resumes before anything else, its host readings do not decrease, and recording is
      the last thing it does. Resuming again, at any time, is allowed. */
  ghost predicate WellTimed(life: Life) {
    && life.events != [] && life.events[0] == Resume
    && (forall i, j :: 0 <= i < j < |life.events| && life.events[i].Read? && life.events[j].Read? ==>
        life.events[i].host <= life.events[j].host)
    && (forall i :: 0 <= i < |life.events| && life.events[i].Read? ==> life.events[i].host <= life.recorded)
  }

  function TotalRecorded(lives: seq<Life>): nat {
    if lives == [] then 0 else TotalRecorded(lives[..|lives| - 1]) + lives[|lives| - 1].recorded
  }

  ghost predicate NonDecreasing(s: seq<nat>) {
    forall i, j :: 0 <= i < j < |s| ==> s[i] <= s[j]
  }

  ghost predicate AtMost(s: seq<nat>, bound: nat) {
    forall i :: 0 <= i < |s| ==> s[i] <= bound
  }

  // ---------------------------------------------------------------------------
  // The sums the clock keeps, modulo 2^64
  // ---------------------------------------------------------------------------

  lemma {:induction false} AddsModulo(a: nat, b: nat)
    ensures (a % TWO_TO_THE_64 + b) % TWO_TO_THE_64 == (a + b) % TWO_TO_THE_64
  {
  }

  lemma {:induction false} EventsKeepTheSum(t: Timeline, events: seq<Event>)
    requires events != [] && events[0] == Resume
    ensures var u := HappenAll(t, events);
      u.offset % TWO_TO_THE_64 == (t.offset + t.snapshot) % TWO_TO_THE_64 && u.snapshot == 0 && u.offset < TWO_TO_THE_64
  {
    if |events| == 1 {
      assert events[..0] == [];
    } else {
      EventsKeepTheSum(t, events[..|events| - 1]);
    }
  }

  /** In general the offset is the sum of the readings recorded before the last life modulo 2^64, so it
      is that sum exactly when the sum fits. */
  lemma {:induction false} OffsetIsTheSumIfItFits(lives: seq<Life>)
    requires lives != [] && forall l :: l in lives ==> WellTimed(l)
    ensures var t := LivedAll(Timeline(0, 0, []), lives);
      var before := TotalRecorded(lives[..|lives| - 1]);
      && t.offset == before % TWO_TO_THE_64 && t.snapshot == lives[|lives| - 1].recorded
      && (t.offset == before <==> before < TWO_TO_THE_64)
  {
    var front, last := lives[..|lives| - 1], lives[|lives| - 1];
    var t := LivedAll(Timeline(0, 0, []), front);
    assert last in lives;
    EventsKeepTheSum(t, last.events);
    if front == [] {
    } else {
      OffsetIsTheSumIfItFits(front);
      AddsModulo(TotalRecorded(front[..|front| - 1]), t.snapshot);
    }
  }

  /** What a clock without a limit reads: what was recorded before, and the host's reading. */
  function ReadingOf(before: nat, e: Event): seq<nat> {
    match e
    case Resume => []
    case Read(host) => [before + host]
  }

  function LifeReadings(before: nat, events: seq<Event>): seq<nat> {
    if events == [] then []
    else LifeReadings(before, events[..|events| - 1]) + ReadingOf(before, events[|events| - 1])
  }

  function TrueReadings(lives: seq<Life>): seq<nat> {
    if lives == [] then []
    else
      var front := lives[..|lives| - 1];
      TrueReadings(front) + LifeReadings(TotalRecorded(front), lives[|lives| - 1].events)
  }

  function Wrapped(s: seq<nat>): seq<nat> {
    seq(|s|, i requires 0 <= i < |s| => s[i] % TWO_TO_THE_64)
  }

  lemma {:induction false} WrappedConcat(a: seq<nat>, b: seq<nat>)
    ensures Wrapped(a + b) == Wrapped(a) + Wrapped(b)
  {
  }

  lemma {:induction false} WrappedIfTooLarge(s: seq<nat>)
    ensures Wrapped(s) == s <==> forall r :: r in s ==> r < TWO_TO_THE_64
  {
    assert forall i :: 0 <= i < |s| ==> s[i] in s && Wrapped(s)[i] == s[i] % TWO_TO_THE_64;
    if Wrapped(s) == s {
      forall r | r in s
        ensures r < TWO_TO_THE_64
      {
        var i :| 0 <= i < |s| && s[i] == r;
        assert Wrapped(s)[i] == r;
      }
    }
  }

  lemma {:induction false} LifeReadsModulo(t: Timeline, events: seq<Event>, before: nat)
    requires events != [] && events[0] == Resume
    requires (t.offset + t.snapshot) % TWO_TO_THE_64 == before % TWO_TO_THE_64
    ensures HappenAll(t, events).readings == t.readings + Wrapped(LifeReadings(before, events))
  {
    var front, last := events[..|events| - 1], events[|events| - 1];
    if front == [] {
      assert LifeReadings(before, front) == [] && LifeReadings(before, events) == [];
    } else {
      LifeReadsModulo(t, front, before);
      EventsKeepTheSum(t, front);
      if last.Read? {
        var u := HappenAll(t, front);
        AddsModulo(u.offset, last.host);
        AddsModulo(before, last.host);
        WrappedConcat(LifeReadings(before, front), [before + last.host]);
        assert Wrapped([before + last.host]) == [(u.offset + last.host) % TWO_TO_THE_64];
      } else {
        assert LifeReadings(before, front) + [] == LifeReadings(before, front);
      }
    }
  }

  lemma {:induction false} TotalModulo(lives: seq<Life>)
    requires forall l :: l in lives ==> WellTimed(l)
    ensures var t := LivedAll(Timeline(0, 0, []), lives);
      (t.offset + t.snapshot) % TWO_TO_THE_64 == TotalRecorded(lives) % TWO_TO_THE_64
  {
    if lives != [] {
      OffsetIsTheSumIfItFits(lives);
      AddsModulo(TotalRecorded(lives[..|lives| - 1]), lives[|lives| - 1].recorded);
    }
  }

  lemma {:induction false} ReadsModulo(lives: seq<Life>)
    requires forall l :: l in lives ==> WellTimed(l)
    ensures LivedAll(Timeline(0, 0, []), lives).readings == Wrapped(TrueReadings(lives))
  {
    if lives == [] {
    } else {
      var front, last := lives[..|lives| - 1], lives[|lives| - 1];
      assert last in lives;
      ReadsModulo(front);
      TotalModulo(front);
      LifeReadsModulo(LivedAll(Timeline(0, 0, []), front), last.events, TotalRecorded(front));
      WrappedConcat(TrueReadings(front), LifeReadings(TotalRecorded(front), last.events));
    }
  }

  // ---------------------------------------------------------------------------
  // One timeline
  // ---------------------------------------------------------------------------

  /** After `n` events of a life its readings stay behind what the host will still read, and record. */
  ghost predicate InLife(readings: seq<nat>, before: nat, life: Life, n: nat) {
    && NonDecreasing(readings)
    && (forall i :: 0 <= i < |readings| ==> readings[i] >= before)
    && AtMost(readings, before + life.recorded)
    && forall k :: n <= k < |life.events| && life.events[k].Read? ==> AtMost(readings, before + life.events[k].host)
  }

  lemma {:induction false} EventInOrder(readings: seq<nat>, before: nat, life: Life, n: nat)
    requires WellTimed(life) && n < |life.events| && InLife(readings, before, life, n)
    ensures InLife(readings + ReadingOf(before, life.events[n]), before, life, n + 1)
  {
    if life.events[n] == Resume {
      assert readings + [] == readings;
    }
  }

  lemma {:induction false} LifeInOrder(before: nat, life: Life, n: nat)
    requires WellTimed(life) && n <= |life.events|
    ensures InLife(LifeReadings(before, life.events[..n]), before, life, n)
  {
    if n == 0 {
    } else {
      var front, events := life.events[..n - 1], life.events[..n];
      LifeInOrder(before, life, n - 1);
      EventInOrder(LifeReadings(before, front), before, life, n - 1);
      assert events[..|events| - 1] == front && events[|events| - 1] == life.events[n - 1];
    }
  }

  lemma {:induction false} TrueReadingsInOrder(lives: seq<Life>)
    requires forall l :: l in lives ==> WellTimed(l)
    ensures NonDecreasing(TrueReadings(lives)) && AtMost(TrueReadings(lives), TotalRecorded(lives))
  {
    if lives == [] {
    } else {
      var front, last := lives[..|lives| - 1], lives[|lives| - 1];
      assert last in lives;
      TrueReadingsInOrder(front);
      LifeInOrder(TotalRecorded(front), last, |last.events|);
      assert last.events[..|last.events|] == last.events;
    }
  }

  /** Over any chain of snapshots and resumptions, the readings are those of a clock without a limit,
      which never decrease, exactly when all of these fit 64 bits. */
  lemma {:induction false} ReadsTrueExactlyIf(lives: seq<Life>)
    requires forall l :: l in lives ==> WellTimed(l)
    ensures LivedAll(Timeline(0, 0, []), lives).readings == TrueReadings(lives)
      <==> forall r :: r in TrueReadings(lives) ==> r < TWO_TO_THE_64
    ensures NonDecreasing(TrueReadings(lives))
  {
    ReadsModulo(lives);
    TrueReadingsInOrder(lives);
    WrappedIfTooLarge(TrueReadings(lives));
  }

  /** Over any chain whose total fits the clock's 64 bits, all readings are one non-decreasing sequence,
      and the offset, with the snapshot still to apply, is the sum of the recorded host readings. */
  lemma {:induction false} OneTimeline(lives: seq<Life>)
    requires forall l :: l in lives ==> WellTimed(l)
    requires TotalRecorded(lives) < TWO_TO_THE_64
    ensures var t := LivedAll(Timeline(0, 0, []), lives);
      && NonDecreasing(t.readings)
      && t.offset + t.snapshot == TotalRecorded(lives)
      && AtMost(t.readings, t.offset + t.snapshot)
  {
    TrueReadingsInOrder(lives);
    ReadsTrueExactlyIf(lives);
    if lives != [] {
      OffsetIsTheSumIfItFits(lives);
    }
  }

  /** Resuming again changes nothing. */
  lemma {:induction false} ResumingAgain(t: Timeline)
    requires t.offset < TWO_TO_THE_64
    ensures Happen(Happen(t, Resume), Resume) == Happen(t, Resume)
  {
  }
}
