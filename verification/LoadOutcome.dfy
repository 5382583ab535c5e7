/** Loading a module graph: the engine reports the outcome to callbacks, which have one cell to leave
    it in, while a load hook may load another graph in the middle. */
module LoadOutcomes {
  import opened Common

  /** What happens during one load, in order: a callback reports, a hook loads another graph, or
      something throws or clears an exception. */
  datatype Event =
    | Resolved
    | Rejected
    | Nested(events: seq<Event>)
    | Raised
    | Cleared

  /** How a load ends: loaded, failed with an exception pending, or never concluded, for which the
      load throws its own exception. */
  datatype Verdict = Loaded | Failed | DidNotConclude

  /** The verdict, the verdicts of the loads within in the order they ended, and whether an exception
      is pending afterwards. */
  datatype Ended = Ended(verdict: Verdict, inner: seq<Verdict>, pending: bool)

  // ---------------------------------------------------------------------------
  // The specification: every load has an outcome of its own
  // ---------------------------------------------------------------------------

  /** The last report of the load's own callbacks: whether the graph loaded. */
  function OwnReport(events: seq<Event>): Option<bool> {
    if events == [] then None
    else match events[|events| - 1]
      case Resolved => Some(true)
      case Rejected => Some(false)
      case _ => OwnReport(events[..|events| - 1])
  }

  function VerdictOf(report: Option<bool>, pending: bool): Verdict {
    match report
    case Some(loaded) => if loaded then Loaded else Failed
    case None => if pending then Failed else DidNotConclude
  }

  function LoadEnds(events: seq<Event>, pending: bool): Ended
    decreases events, 1
  {
    var during := Happens(events, pending);
    var verdict := VerdictOf(OwnReport(events), during.pending);
    Ended(verdict, during.inner, during.pending || verdict == DidNotConclude)
  }

  /** The effect of events on what is pending, and the verdicts of the loads among them. */
  function Happens(events: seq<Event>, pending: bool): Ended
    decreases events, 0
  {
    if events == [] then Ended(Loaded, [], pending)
    else
      var before := Happens(events[..|events| - 1], pending);
      match events[|events| - 1]
      case Resolved => before
      case Rejected => before.(pending := true)
      case Raised => before.(pending := true)
      case Cleared => before.(pending := false)
      case Nested(inner) =>
        assert events[|events| - 1] in events;
        var load := LoadEnds(inner, before.pending);
        Ended(Loaded, before.inner + load.inner + [load.verdict], load.pending)
  }

  // ---------------------------------------------------------------------------
  // The cell
  // ---------------------------------------------------------------------------

  class ModuleTls {
    var loadOutcome: Option<bool>
    var exceptionPending: bool

    constructor ()
      ensures loadOutcome == None && !exceptionPending
    {
      loadOutcome, exceptionPending := None, false;
    }

    method LoadResolved()
      modifies this
      ensures loadOutcome == Some(true) && exceptionPending == old(exceptionPending)
    {
      loadOutcome := Some(true);
    }

    method LoadRejected()
      modifies this
      ensures loadOutcome == Some(false) && exceptionPending
    {
      loadOutcome := Some(false);
      exceptionPending := true;
    }

    /** Returns the outcome its own callbacks left, and leaves the enclosing load's in the cell. */
    method LoadRequestedModules(events: seq<Event>) returns (verdict: Verdict, inner: seq<Verdict>)
      modifies this
      ensures loadOutcome == old(loadOutcome)
      ensures Ended(verdict, inner, exceptionPending) == LoadEnds(events, old(exceptionPending))
      decreases events, 1
    {
      var enclosing := loadOutcome;
      loadOutcome := None;
      inner := RunEngine(events);
      var outcome := loadOutcome;
      loadOutcome := enclosing;
      match outcome {
        case Some(loaded) =>
          return if loaded then Loaded else Failed, inner;
        case None =>
          if exceptionPending {
            return Failed, inner;
          }
          exceptionPending := true;
          return DidNotConclude, inner;
      }
    }

    /** What the engine does between the load's start and its end. */
    method RunEngine(events: seq<Event>) returns (inner: seq<Verdict>)
      requires loadOutcome == None
      modifies this
      ensures loadOutcome == OwnReport(events)
      ensures inner == Happens(events, old(exceptionPending)).inner
      ensures exceptionPending == Happens(events, old(exceptionPending)).pending
      decreases events, 0
    {
      inner := [];
      for i := 0 to |events|
        invariant loadOutcome == OwnReport(events[..i])
        invariant inner == Happens(events[..i], old(exceptionPending)).inner
        invariant exceptionPending == Happens(events[..i], old(exceptionPending)).pending
      {
        assert events[..i + 1][..i] == events[..i];
        match events[i] {
          case Resolved => LoadResolved();
          case Rejected => LoadRejected();
          case Raised => exceptionPending := true;
          case Cleared => exceptionPending := false;
          case Nested(nested) =>
            var verdict, within := LoadRequestedModules(nested);
            inner := inner + within + [verdict];
        }
      }
      assert events[..|events|] == events;
    }
  }

  // ---------------------------------------------------------------------------
  // What a load's outcome depends on
  // ---------------------------------------------------------------------------

  predicate IsReport(e: Event) {
    e == Resolved || e == Rejected
  }

  ghost predicate LastReportAt(events: seq<Event>, i: int, report: Event) {
    0 <= i < |events| && events[i] == report && forall j :: i < j < |events| ==> !IsReport(events[j])
  }

  /** `OwnReport` is the last report among the load's own events, or none if there is none. */
  lemma {:induction false} OwnReportIsTheLast(events: seq<Event>)
    ensures match OwnReport(events)
      case None => forall i :: 0 <= i < |events| ==> !IsReport(events[i])
      case Some(loaded) => var report := if loaded then Resolved else Rejected;
        exists i :: LastReportAt(events, i, report)
  {
    if events == [] {
    } else {
      var last := |events| - 1;
      OwnReportIsTheLast(events[..last]);
      if IsReport(events[last]) {
        assert LastReportAt(events, last, events[last]);
      } else if OwnReport(events).Some? {
        var report := if OwnReport(events).value then Resolved else Rejected;
        var i :| LastReportAt(events[..last], i, report);
        assert LastReportAt(events, i, report);
      }
    }
  }

  /** The loads a hook makes in between cannot change the outcome of a load that reports: it is what
      its own callbacks say, whatever ran in the nested loads and whatever was pending before. */
  lemma {:induction false} NestedLoadsDoNotLeak(
      before: seq<Event>, nested: seq<Event>, after: seq<Event>, pending: bool, pending': bool)
    requires OwnReport(before + after).Some?
    ensures LoadEnds(before + [Nested(nested)] + after, pending).verdict == LoadEnds(before + after, pending').verdict
  {
    ReportOfConcat(before + [Nested(nested)], after);
    ReportOfConcat(before, after);
    assert (before + [Nested(nested)])[..|before|] == before;
  }

  lemma {:induction false} ReportOfConcat(a: seq<Event>, b: seq<Event>)
    ensures OwnReport(a + b) == if OwnReport(b).Some? then OwnReport(b) else OwnReport(a)
  {
    if b == [] {
      assert a + b == a;
    } else {
      assert (a + b)[..|a + b| - 1] == a + b[..|b| - 1];
      ReportOfConcat(a, b[..|b| - 1]);
    }
  }

  // ---------------------------------------------------------------------------
  // What a load returns
  // ---------------------------------------------------------------------------

  ghost predicate LastReportIs(events: seq<Event>, report: Event) {
    exists i :: LastReportAt(events, i, report)
  }

  ghost predicate NoReport(events: seq<Event>) {
    forall i :: 0 <= i < |events| ==> !IsReport(events[i])
  }

  /** A load succeeds exactly if its last own report is a resolution. It fails exactly if that is a
      rejection, or if it has no report and an exception is pending. With neither it did not conclude,
      and leaves an exception pending for that. */
  lemma {:induction false} LoadReturns(events: seq<Event>, pending: bool)
    ensures
      var load, raised := LoadEnds(events, pending), Happens(events, pending).pending;
      && (load.verdict == Loaded <==> LastReportIs(events, Resolved))
      && (load.verdict == Failed <==> LastReportIs(events, Rejected) || (NoReport(events) && raised))
      && (load.verdict == DidNotConclude <==> NoReport(events) && !raised)
      && (load.pending <==> raised || load.verdict == DidNotConclude)
  {
    OwnReportIsTheLast(events);
    OneLastReport(events);
  }

  /** The last report is one or the other, if there is one. */
  lemma {:induction false} OneLastReport(events: seq<Event>)
    ensures !(LastReportIs(events, Resolved) && LastReportIs(events, Rejected))
    ensures NoReport(events) ==> !LastReportIs(events, Resolved) && !LastReportIs(events, Rejected)
  {
    if LastReportIs(events, Resolved) && LastReportIs(events, Rejected) {
      var i :| LastReportAt(events, i, Resolved);
      var j :| LastReportAt(events, j, Rejected);
      assert IsReport(events[i]) && IsReport(events[j]);
      assert false;
    }
  }

  /** What is pending is up to the last event that is not a resolution: a rejection or a throw leaves an
      exception pending, clearing leaves none, and a nested load leaves what it leaves. */
  lemma {:induction false} LastWordOnPending(events: seq<Event>, pending: bool, i: nat)
    requires i < |events| && forall j :: i < j < |events| ==> events[j] == Resolved
    ensures
      var after := Happens(events, pending).pending;
      && (events[i] == Rejected || events[i] == Raised ==> after)
      && (events[i] == Cleared ==> !after)
      && (events[i].Nested? ==> after == LoadEnds(events[i].events, Happens(events[..i], pending).pending).pending)
  {
    if i < |events| - 1 {
      var front := events[..|events| - 1];
      LastWordOnPending(front, pending, i);
      assert front[..i] == events[..i];
    }
  }

  lemma {:induction false} ResolutionsLeavePending(events: seq<Event>, pending: bool)
    requires forall j :: 0 <= j < |events| ==> events[j] == Resolved
    ensures Happens(events, pending).pending == pending
  {
    if events == [] {
    } else {
      ResolutionsLeavePending(events[..|events| - 1], pending);
    }
  }

  /** A nested load returns what it would alone, and the loads within it return before it does. */
  lemma {:induction false} NestedLoadReturnsItsOwn(
      before: seq<Event>, nested: seq<Event>, after: seq<Event>, pending: bool)
    ensures
      var so := Happens(before, pending);
      var load := LoadEnds(nested, so.pending);
      so.inner + load.inner + [load.verdict] <= Happens(before + [Nested(nested)] + after, pending).inner
  {
    var events := before + [Nested(nested)] + after;
    if after == [] {
      assert events == before + [Nested(nested)];
      assert events[..|events| - 1] == before;
    } else {
      NestedLoadReturnsItsOwn(before, nested, after[..|after| - 1], pending);
      assert events[..|events| - 1] == before + [Nested(nested)] + after[..|after| - 1];
    }
  }
}
