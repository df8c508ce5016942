/** How often a lot counts as seen, over any history: retried, interleaved and interrupted runs included. */
module SeenCounts {
  import opened Wrappers
  import opened Domain
  import opened Lifecycle
  import opened Operational
  import opened HistoryTheorems
  import opened Staleness

  /** The history's last report of the lot. */
  function LastReportOf(history: seq<Transaction>, k: LotKey): Option<Transaction> {
    if history == [] then None
    else
      var before, tx := history[..|history| - 1], history[|history| - 1];
      if ReportedBy(Replay(before), tx, k) then Some(tx) else LastReportOf(before, k)
  }

  /** Its first one. */
  function FirstReportOf(history: seq<Transaction>, k: LotKey): Option<Transaction> {
    if history == [] then None
    else
      var before, tx := history[..|history| - 1], history[|history| - 1];
      var first := FirstReportOf(before, k);
      if first.Some? then first else if ReportedBy(Replay(before), tx, k) then Some(tx) else None
  }

  function RunIn(tx: Option<Transaction>): Option<RunId> { if tx.Some? then Some(RunOf(tx.value)) else None }

  function TimeIn(tx: Option<Transaction>): Option<Time> { if tx.Some? then Some(TimeOf(tx.value)) else None }

  predicate Removes(t: Tables, tx: Transaction, k: LotKey) {
    Live(Lookup(t.rows, k)) && !Live(Lookup(Apply(t, tx).rows, k))
  }

  /** The last transaction that made an active row inactive. */
  function LastRemovalOf(history: seq<Transaction>, k: LotKey): Option<Transaction> {
    if history == [] then None
    else
      var before, tx := history[..|history| - 1], history[|history| - 1];
      if Removes(Replay(before), tx, k) then Some(tx) else LastRemovalOf(before, k)
  }

  /** Transaction i reports the lot, and neither the last report nor the last removal before it was its own run's. */
  predicate Counts(history: seq<Transaction>, k: LotKey, i: nat)
    requires i < |history|
  {
    var before, tx := history[..i], history[i];
    && ReportedBy(Replay(before), tx, k)
    && RunIn(LastReportOf(before, k)) != Some(RunOf(tx)) && RunIn(LastRemovalOf(before, k)) != Some(RunOf(tx))
  }

  function CountedReports(history: seq<Transaction>, k: LotKey): set<nat> {
    set i: nat | i < |history| && Counts(history, k, i)
  }

  lemma CountedReportsGrow(history: seq<Transaction>, k: LotKey)
    requires history != []
    ensures var n := |history| - 1;
      && n !in CountedReports(history[..n], k)
      && CountedReports(history, k) == CountedReports(history[..n], k) + (if Counts(history, k, n) then {n} else {})
  {
    hide ReportedBy, LastReportOf, LastRemovalOf, Replay;
    var n := |history| - 1;
    forall i: nat | i < n ensures Counts(history, k, i) <==> Counts(history[..n], k, i) {
      assert history[..n][..i] == history[..i];
    }
  }

  /** What one transaction does to a row, and when. */
  lemma ApplyCounts(t: Tables, tx: Transaction, k: LotKey)
    requires t.rows.Keys <= t.lots.Keys
    ensures var row, row' := Lookup(t.rows, k), Lookup(Apply(t, tx).rows, k);
      if ReportedBy(t, tx, k) then row' == Some(Touch(row, RunOf(tx), TimeOf(tx))) && !Removes(t, tx, k)
      else if Removes(t, tx, k) then
        && row.Some? && row.value.active
        && row' == Some(row.value.(active := false, removedAt := Some(TimeOf(tx)), lastAbsence := Some(RunOf(tx))))
      else row' == row
  {
    hide Apply;
    ApplyPlays(t, tx, k);
  }

  /**
   * What a stored row remembers, after any history: when the lot was reported first and last and by whom last, who
   * removed it last and, while it is inactive, when; and how many reports were by a run that had neither reported
   * nor removed the lot last.
   */
  lemma {:induction false} RowTellsHistory(history: seq<Transaction>, k: LotKey)
    ensures match Lookup(Replay(history).rows, k)
      case None =>
        CountedReports(history, k) == {} && LastReportOf(history, k).None? && LastRemovalOf(history, k).None?
        && FirstReportOf(history, k).None?
      case Some(row) =>
        && row.seenCount == |CountedReports(history, k)|
        && Some(row.firstSeen) == TimeIn(FirstReportOf(history, k))
        && Some(row.lastSeen) == TimeIn(LastReportOf(history, k))
        && row.lastPresent == RunIn(LastReportOf(history, k))
        && row.lastAbsence == RunIn(LastRemovalOf(history, k))
        && row.removedAt == if row.active then None else TimeIn(LastRemovalOf(history, k))
  {
    if history != [] {
      hide Apply, ReportedBy, Removes;
      var n := |history| - 1;
      RowTellsHistory(history[..n], k);
      HistoryKeeps(history[..n], k);
      ApplyCounts(Replay(history[..n]), history[n], k);
      CountedReportsGrow(history, k);
    }
  }

  // ----- A run that comes back counts again

  function Sighting(run: RunId, l: Lot, at: Time): seq<Transaction> {
    Attempt(run, Receipt(l.key.auction, Partial, false, 1, 1), l.key.source, [l], at)
  }

  /** Runs "r" and "q" and then "r" again each report the lot: it counts as seen three times. */
  lemma ReturningRunCountsAgain(l: Lot)
    ensures var row := Lookup(Replay(Sighting("r", l, 0) + Sighting("q", l, 1) + Sighting("r", l, 2)).rows, l.key);
      row.Some? && row.value.seenCount == 3
  {
    hide Replay;
    var x := Receipt(l.key.auction, Partial, false, 1, 1);
    var one, two := Sighting("r", l, 0), Sighting("q", l, 1);
    AttemptPlays([], "r", x, l, true, 0);
    assert [] + one == one;
    AttemptPlays(one, "q", x, l, true, 1);
    AttemptPlays(one + two, "r", x, l, true, 2);
    NothingReplayed();
  }
}
