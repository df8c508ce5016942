/** The life of one stored opportunity: touched when reported, removed on evidence of absence. */
module Lifecycle {
  import opened Wrappers
  import opened Domain

  datatype Row = Row(
    firstSeen: Time, lastSeen: Time, seenCount: nat, active: bool, removedAt: Option<Time>,
    lastPresent: Option<RunId>, lastAbsence: Option<RunId>)

  function Touch(row: Option<Row>, run: RunId, at: Time): Row {
    match row
    case None => Row(at, at, 1, true, None, Some(run), None)
    case Some(r) =>
      var counted := r.lastPresent == Some(run) || r.lastAbsence == Some(run);
      r.(lastSeen := at, seenCount := if counted then r.seenCount else r.seenCount + 1,
         active := true, removedAt := None, lastPresent := Some(run))
  }

  /** The guard keeps one run from removing the same row twice. */
  function Remove(row: Row, run: RunId, at: Time): Row {
    if row.active && row.lastAbsence != Some(run)
    then row.(active := false, removedAt := Some(at), lastAbsence := Some(run))
    else row
  }

  datatype Event = Touched(at: Time) | Dropped(at: Time)

  function Step(row: Option<Row>, run: RunId, e: Event): Option<Row> {
    match e
    case Touched(at) => Some(Touch(row, run, at))
    case Dropped(at) => if row.Some? then Some(Remove(row.value, run, at)) else None
  }

  function Play(row: Option<Row>, run: RunId, events: seq<Event>): Option<Row> {
    if events == [] then row
    else Step(Play(row, run, events[..|events| - 1]), run, events[|events| - 1])
  }

  /** What one run did to one row: all its events are contiguous. */
  datatype RunEvents = RunEvents(run: RunId, events: seq<Event>)

  function PlayRuns(row: Option<Row>, runs: seq<RunEvents>): Option<Row> {
    if runs == [] then row
    else
      var last := runs[|runs| - 1];
      Play(PlayRuns(row, runs[..|runs| - 1]), last.run, last.events)
  }

  predicate Reports(events: seq<Event>) {
    exists i :: 0 <= i < |events| && events[i].Touched?
  }

  /** The run reported the row without first having removed it as an active one. */
  predicate ReportsUnremoved(wasActive: bool, events: seq<Event>) {
    Reports(events) && (wasActive ==> events[0].Touched?)
  }

  predicate Live(row: Option<Row>) { row.Some? && row.value.active }

  /** A run whose id the row has not met. */
  predicate FreshFor(row: Option<Row>, run: RunId) {
    row.Some? ==> row.value.lastPresent != Some(run) && row.value.lastAbsence != Some(run)
  }

  predicate Coherent(row: Option<Row>) {
    row.Some? ==>
      && (row.value.active <==> row.value.removedAt.None?)
      && row.value.seenCount >= 1
  }

  /** Whatever happens in whatever order, a row is active exactly while it has no removal time. */
  lemma {:induction false} PlayKeepsCoherent(row: Option<Row>, run: RunId, events: seq<Event>)
    requires Coherent(row)
    ensures Coherent(Play(row, run, events))
  {
    if events != [] {
      PlayKeepsCoherent(row, run, events[..|events| - 1]);
    }
  }

  lemma {:induction false} RunsKeepCoherent(row: Option<Row>, runs: seq<RunEvents>)
    requires Coherent(row)
    ensures Coherent(PlayRuns(row, runs))
  {
    if runs != [] {
      RunsKeepCoherent(row, runs[..|runs| - 1]);
      var last := runs[|runs| - 1];
      PlayKeepsCoherent(PlayRuns(row, runs[..|runs| - 1]), last.run, last.events);
    }
  }

  /** One run raises the count by one exactly when it reports the row unremoved. */
  lemma {:induction false} RunCountsOnce(row: Option<Row>, run: RunId, events: seq<Event>)
    requires row.Some? && FreshFor(row, run)
    ensures var r' := Play(row, run, events);
      && r'.Some?
      && r'.value.seenCount == row.value.seenCount
           + (if ReportsUnremoved(row.value.active, events) then 1 else 0)
      && (r'.value.lastPresent == Some(run) <==> Reports(events))
      && (r'.value.lastPresent != Some(run) ==> r'.value.lastPresent == row.value.lastPresent)
      && (r'.value.lastAbsence != Some(run) ==> r'.value.lastAbsence == row.value.lastAbsence)
      && (r'.value.lastAbsence == Some(run) && !Reports(events) ==> row.value.active && events != [])
      && (r'.value.lastAbsence != Some(run) && !Reports(events) ==> r'.value.active == row.value.active)
      && (row.value.active && events != [] && !events[0].Touched? ==> r'.value.lastAbsence == Some(run))
  {
    if events != [] {
      var front, e := events[..|events| - 1], events[|events| - 1];
      RunCountsOnce(row, run, front);
      assert Reports(events) <==> Reports(front) || e.Touched? by {
        if Reports(front) { var i :| 0 <= i < |front| && front[i].Touched?; assert events[i].Touched?; }
        if Reports(events) {
          var i :| 0 <= i < |events| && events[i].Touched?;
          assert i < |front| ==> front[i].Touched?;
        }
      }
      if front != [] { assert front[0] == events[0]; }
    }
  }

  lemma {:induction false} FirstRunCountsOne(run: RunId, events: seq<Event>)
    ensures var r' := Play(None, run, events);
      && (r'.Some? <==> Reports(events))
      && (r'.Some? ==> r'.value.seenCount == 1 && r'.value.lastPresent == Some(run)
                       && (r'.value.lastAbsence.None? || r'.value.lastAbsence == Some(run)))
  {
    if events != [] {
      var front, e := events[..|events| - 1], events[|events| - 1];
      FirstRunCountsOne(run, front);
      assert Reports(events) <==> Reports(front) || e.Touched? by {
        if Reports(front) { var i :| 0 <= i < |front| && front[i].Touched?; assert events[i].Touched?; }
        if Reports(events) {
          var i :| 0 <= i < |events| && events[i].Touched?;
          assert i < |front| ==> front[i].Touched?;
        }
      }
    }
  }

  /** Run number i found the row already stored and reported it unremoved. */
  predicate ReportsAgain(runs: seq<RunEvents>, i: nat)
    requires i < |runs|
  {
    var row := PlayRuns(None, runs[..i]);
    row.Some? && ReportsUnremoved(row.value.active, runs[i].events)
  }

  /** The runs after the introducing one that reported the row unremoved. */
  function LaterReports(runs: seq<RunEvents>): set<nat> {
    set i: nat | i < |runs| && ReportsAgain(runs, i)
  }

  predicate DistinctRuns(runs: seq<RunEvents>) {
    forall i, j :: 0 <= i < j < |runs| ==> runs[i].run != runs[j].run
  }

  lemma {:induction false} OnlyPlayedRunsAreRemembered(runs: seq<RunEvents>, run: RunId)
    requires forall i :: 0 <= i < |runs| ==> runs[i].run != run
    ensures FreshFor(PlayRuns(None, runs), run)
  {
    if runs != [] {
      var before, last := runs[..|runs| - 1], runs[|runs| - 1];
      OnlyPlayedRunsAreRemembered(before, run);
      PlayRemembers(PlayRuns(None, before), last.run, last.events, run);
    }
  }

  lemma {:induction false} PlayRemembers(row: Option<Row>, run: RunId, events: seq<Event>, other: RunId)
    requires run != other && FreshFor(row, other)
    ensures FreshFor(Play(row, run, events), other)
  {
    if events != [] { PlayRemembers(row, run, events[..|events| - 1], other); }
  }

  lemma LaterReportsGrow(runs: seq<RunEvents>)
    requires runs != []
    ensures var n := |runs| - 1;
      && n !in LaterReports(runs[..n])
      && LaterReports(runs) == LaterReports(runs[..n]) + (if ReportsAgain(runs, n) then {n} else {})
  {
    var n := |runs| - 1;
    var before := runs[..n];
    forall i: nat | i < n ensures ReportsAgain(runs, i) <==> ReportsAgain(before, i) {
      assert runs[..i] == before[..i];
    }
  }

  /** The count is one for the introducing run plus one for each later unremoved report. */
  lemma {:induction false} SeenCountAccounting(runs: seq<RunEvents>)
    requires DistinctRuns(runs)
    ensures PlayRuns(None, runs).Some? ==> PlayRuns(None, runs).value.seenCount == 1 + |LaterReports(runs)|
    ensures PlayRuns(None, runs).None? ==> LaterReports(runs) == {}
  {
    if runs != [] {
      var n := |runs| - 1;
      var before, last := runs[..n], runs[n];
      SeenCountAccounting(before);
      OnlyPlayedRunsAreRemembered(before, last.run);
      LaterReportsGrow(runs);
      if PlayRuns(None, before).Some? {
        RunCountsOnce(PlayRuns(None, before), last.run, last.events);
      } else {
        FirstRunCountsOne(last.run, last.events);
      }
    }
  }
}
