/** How old an active lot can be at the end of a run, whichever id the run carries. */
module Staleness {
  import opened Wrappers
  import opened Sequences
  import opened Domain
  import opened SourceContract
  import opened Lifecycle
  import opened Operational
  import opened Persistence
  import opened RunEngine
  import opened RunTheorems
  import opened HistoryTheorems

  /** What a row of the run's own source looks like afterwards when the run reported the lot. */
  lemma ReportedIsRecent(t: Tables, input: RunInput, k: LotKey)
    requires WellFormed(input) && Timely(input) && t.rows.Keys <= t.lots.Keys
    requires ReportedByRun(t, input, k)
    ensures var row' := Lookup(AfterRun(t, input).rows, k);
      row'.Some? && row'.value.lastSeen >= input.reading
  {
    hide AfterRun, ReportedByRun, AbsenceProvedByRun, EventsOfRun;
    var run, row := input.run, Lookup(t.rows, k);
    assert k.source in input.sources by { ReportedSource(t, input, k); }
    RunPlays(t, input, k);
    EventsOfRunShape(t, input, k);
    var retired := RetireEvents(t, input, k);
    var verdict := EventsOfRun(t, input, k)[|retired|..];
    assert verdict == [verdict[0]];
    PlayLast(row, run, retired, verdict[0]);
  }

  lemma ReportedSource(t: Tables, input: RunInput, k: LotKey)
    requires WellFormed(input) && ReportedByRun(t, input, k)
    ensures k.source in input.sources
  {
  }

  lemma {:induction false} RemovalKeepsLastSeen(row: Option<Row>, run: RunId, events: seq<Event>)
    requires row.Some? && forall e :: e in events ==> e.Dropped?
    ensures Play(row, run, events).Some? && Play(row, run, events).value.lastSeen == row.value.lastSeen
  {
    if events != [] {
      assert events[|events| - 1] in events;
      RemovalKeepsLastSeen(row, run, events[..|events| - 1]);
    }
  }

  /** A lot the run did not report was last seen when it was before. */
  lemma UnreportedKeepsLastSeen(t: Tables, input: RunInput, k: LotKey)
    requires WellFormed(input) && t.rows.Keys <= t.lots.Keys
    requires k.source in input.sources && !ReportedByRun(t, input, k) && k in t.rows
    ensures k in AfterRun(t, input).rows && AfterRun(t, input).rows[k].lastSeen == t.rows[k].lastSeen
  {
    hide AfterRun, ReportedByRun, AbsenceProvedByRun, EventsOfRun, Play;
    RunPlays(t, input, k);
    EventsOfRunShape(t, input, k);
    var retired, events := RetireEvents(t, input, k), EventsOfRun(t, input, k);
    var verdict := events[|retired|..];
    assert forall e :: e in events ==> e in retired || e in verdict;
    RemovalKeepsLastSeen(Lookup(t.rows, k), input.run, events);
  }

  /**
   * Whatever id a complete run carries, a lot it leaves active is staler than 48 hours exactly when the
   * run did not report it, it was active and that stale before, and this very id had removed it earlier.
   */
  lemma StaleSurvivors(t: Tables, input: RunInput, k: LotKey)
    requires WellFormed(input) && Timely(input) && t.rows.Keys <= t.lots.Keys
    requires k.source in input.sources && Live(Lookup(AfterRun(t, input).rows, k))
    ensures AfterRun(t, input).rows[k].lastSeen < Cutoff(input) <==>
      && !ReportedByRun(t, input, k) && Live(Lookup(t.rows, k))
      && t.rows[k].lastAbsence == Some(input.run) && t.rows[k].lastSeen < Cutoff(input)
  {
    hide AfterRun, ReportedByRun, AbsenceProvedByRun;
    ActiveAfterRun(t, input, k);
    if ReportedByRun(t, input, k) {
      ReportedIsRecent(t, input, k);
    } else {
      UnreportedKeepsLastSeen(t, input, k);
    }
  }

  /**
   * At the end of any complete run, whatever came before it and whatever id it carries, every active lot
   * of its sources was last reported no earlier than 48 hours before the run's cutoff reading, unless an
   * earlier attempt of the same run had removed it and it came back in between.
   */
  lemma NoStaleLotSurvives(history: seq<Transaction>, input: RunInput, k: LotKey)
    requires WellFormed(input) && Timely(input)
    requires k.source in input.sources && Live(Lookup(AfterRun(Replay(history), input).rows, k))
    ensures var before, after := Replay(history), AfterRun(Replay(history), input);
      && (after.rows[k].lastSeen < Cutoff(input) <==>
            && !ReportedByRun(before, input, k) && Live(Lookup(before.rows, k))
            && before.rows[k].lastAbsence == Some(input.run) && before.rows[k].lastSeen < Cutoff(input))
      && ((forall tx :: tx in history ==> RunOf(tx) != input.run) ==> after.rows[k].lastSeen >= Cutoff(input))
      && (ReportedByRun(before, input, k) || LastReport(history, k) == Some(after.rows[k].lastSeen))
  {
    hide AfterRun, ReportedByRun, AbsenceProvedByRun, Replay, Coherent, LastReport;
    var t := Replay(history);
    HistoryKeeps(history, k);
    StaleSurvivors(t, input, k);
    if forall tx :: tx in history ==> RunOf(tx) != input.run { UnusedIdIsFresh(history, input.run, k); }
    if !ReportedByRun(t, input, k) {
      ActiveAfterRun(t, input, k);
      UnreportedKeepsLastSeen(t, input, k);
    }
  }

  // ----- A stale lot that survives

  /** One attempt's work on one group: its receipt, then its reconciliation. */
  function Attempt(run: RunId, x: Receipt, source: string, batch: seq<Lot>, at: Time): seq<Transaction> {
    [WriteReceipt(run, source, x), ReconcileOne(run, source, x.group, batch, at)]
  }

  /** The attempt's two transactions on one lot of the group. */
  lemma AttemptApplied(t: Tables, run: RunId, x: Receipt, l: Lot, reported: bool, at: Time)
    requires x.group == l.key.auction && t.rows.Keys <= t.lots.Keys
    ensures var batch := if reported then [l] else [];
      var written := Apply(t, WriteReceipt(run, l.key.source, x));
      var t' := Apply(written, ReconcileOne(run, l.key.source, x.group, batch, at));
      var row := Lookup(t.rows, l.key);
      && Lookup(t'.rows, l.key) ==
           if reported then Step(row, run, Touched(at))
           else if Proves(x, batch) then Step(row, run, Dropped(at)) else row
  {
    hide TouchAll, RemoveAll, WriteAll, Step, Proves, Reconciled;
    var batch := if reported then [l] else [];
    var written := Apply(t, WriteReceipt(run, l.key.source, x));
    assert LotKeys(batch) == if reported then [l.key] else [];
    assert forall k :: k in SetOf(LotKeys(batch)) <==> reported && k == l.key;
    ReconcileEffect(written, run, l.key.source, x.group, batch, at, l.key);
  }

  lemma AttemptPlays(history: seq<Transaction>, run: RunId, x: Receipt, l: Lot, reported: bool, at: Time)
    requires x.group == l.key.auction
    ensures var batch := if reported then [l] else [];
      var t := Replay(history + Attempt(run, x, l.key.source, batch, at));
      var row := Lookup(Replay(history).rows, l.key);
      && Lookup(t.rows, l.key) ==
           if reported then Step(row, run, Touched(at))
           else if Proves(x, batch) then Step(row, run, Dropped(at)) else row
  {
    hide Replay, Apply, Step, Proves, Coherent, LastReport;
    var batch := if reported then [l] else [];
    var first := WriteReceipt(run, l.key.source, x);
    var second := ReconcileOne(run, l.key.source, x.group, batch, at);
    HistoryKeeps(history, l.key);
    ReplayOne(history, first);
    ReplayOne(history + [first], second);
    assert history + Attempt(run, x, l.key.source, batch, at) == history + [first] + [second];
    AttemptApplied(Replay(history), run, x, l, reported, at);
  }

  /** A run "q" reports the lot; "r" finds it gone; retried, "r" sees it again and crashes. */
  function RetriedHistory(l: Lot): seq<Transaction> {
    var seen, gone := Receipt(l.key.auction, Partial, false, 1, 1), Receipt(l.key.auction, Complete, true, 0, 0);
    Attempt("q", seen, l.key.source, [l], 0) + Attempt("r", gone, l.key.source, [], 1)
      + Attempt("r", seen, l.key.source, [l], 2)
  }

  /** Days later "r" is retried once more, and this time the scan fails. */
  function LateRetry(l: Lot): RunInput {
    RunInput("r", [l.key.source], [FailedResult(l.key.source)], 300000, 300000, [[300000]])
  }

  lemma RetriedRow(l: Lot)
    ensures var row := Lookup(Replay(RetriedHistory(l)).rows, l.key);
      row.Some? && row.value.active && row.value.lastAbsence == Some("r") && row.value.lastSeen == 2
  {
    hide Replay;
    var seen, gone := Receipt(l.key.auction, Partial, false, 1, 1), Receipt(l.key.auction, Complete, true, 0, 0);
    var one, two := Attempt("q", seen, l.key.source, [l], 0), Attempt("r", gone, l.key.source, [], 1);
    AttemptPlays([], "q", seen, l, true, 0);
    assert [] + one == one;
    AttemptPlays(one, "r", gone, l, false, 1);
    AttemptPlays(one + two, "r", seen, l, true, 2);
    assert Replay([]).rows == map[] by { NothingReplayed(); }
  }

  lemma NothingReplayed()
    ensures Replay([]).rows == map[]
  {
  }

  /** The late retry completes and leaves a lot active that nobody has reported for more than 48 hours. */
  lemma StaleLotSurvives(l: Lot)
    ensures WellFormed(LateRetry(l)) && Timely(LateRetry(l))
    ensures var after := AfterRun(Replay(RetriedHistory(l)), LateRetry(l));
      Live(Lookup(after.rows, l.key)) && after.rows[l.key].lastSeen < Cutoff(LateRetry(l))
  {
    hide Replay, AfterRun, RetriedHistory, AbsenceProvedByRun;
    var t, input := Replay(RetriedHistory(l)), LateRetry(l);
    RetriedRow(l);
    HistoryKeeps(RetriedHistory(l), l.key);
    ActiveAfterRun(t, input, l.key);
    FailedReportsNothing(t, input, l.key);
    StaleSurvivors(t, input, l.key);
  }

  lemma FailedReportsNothing(t: Tables, input: RunInput, k: LotKey)
    requires WellFormed(input) && input.sources == [k.source] && input.scans == [FailedResult(k.source)]
    ensures !ReportedByRun(t, input, k)
  {
    hide AfterSources;
    VettedIsWellCovered(AfterSources(t, input, 0), k.source, input.scans[0]);
  }
}
