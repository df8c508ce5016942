/** What whole runs, and any history of runs, do to the active inventory. */
module RunTheorems {
  import opened Wrappers
  import opened Sequences
  import opened Domain
  import opened SourceContract
  import opened Lifecycle
  import opened Operational
  import opened Stability
  import opened Persistence
  import opened RunEngine

  /** The result the run really used for source number i. */
  function Used(t: Tables, input: RunInput, i: nat): ScanResult
    requires WellFormed(input) && i < |input.sources|
  {
    Vetted(AfterSources(t, input, i), input.sources[i], input.scans[i])
  }

  predicate ReportedByRun(t: Tables, input: RunInput, k: LotKey)
    requires WellFormed(input)
  {
    k.source in input.sources && Reported(Used(t, input, IndexOf(input.sources, k.source)), k)
  }

  /** Evidence of absence in one result: an authoritative receipt for the lot's group, or the
      omission of a group for which this run has stored no receipt either. */
  predicate AbsenceProved(stored: set<string>, r: ScanResult, k: LotKey) {
    if k.auction in ReceiptIds(r)
    then exists x :: x in r.receipts && x.group == k.auction && x.status == Complete && x.authoritative
    else r.omission != Some(false) && r.discovery == Complete && r.authoritative && k.auction !in stored
  }

  predicate AbsenceProvedByRun(t: Tables, input: RunInput, k: LotKey)
    requires WellFormed(input)
  {
    && k.source in input.sources
    && AbsenceProved(t.ReceiptGroups(input.run, k.source), Used(t, input, IndexOf(input.sources, k.source)), k)
  }

  predicate Stale(t: Tables, input: RunInput, k: LotKey) {
    k in t.StaleKeys(SetOf(input.sources), Cutoff(input))
  }

  lemma ReceiptByIndex(r: ScanResult, group: string)
    requires NoDuplicates(ReceiptIds(r)) && group in ReceiptIds(r)
    ensures var x := r.receipts[IndexOf(ReceiptIds(r), group)];
      (exists y :: y in r.receipts && y.group == group && y.status == Complete && y.authoritative)
        <==> x.status == Complete && x.authoritative
  {
    var ids := ReceiptIds(r);
    var x := r.receipts[IndexOf(ids, group)];
    forall y | y in r.receipts && y.group == group ensures y == x {
      var j :| 0 <= j < |ids| && r.receipts[j] == y;
      assert ids[j] == group;
    }
  }

  /** One result's verdict on one lot. */
  lemma VerdictShape(t: Tables, run: RunId, source: string, r: ScanResult, times: seq<Time>, k: LotKey)
    requires WellCovered(source, r) && |times| > |r.receipts| && k.source == source
    ensures var es := EventsOf(t, run, source, r, times, k);
      && (es == [] || exists at :: at in times && es == [if Reported(r, k) then Touched(at) else Dropped(at)])
      && (es != [] <==> Reported(r, k) || AbsenceProved(t.ReceiptGroups(run, source), r, k))
  {
    if k.auction in ReceiptIds(r) { ReceiptByIndex(r, k.auction); }
    if Reported(r, k) {
      var l :| l in r.lots && l.key == k;
      assert l.key.auction in ReceiptIds(r);
    }
  }

  /** The events of a run, read off its results: a possible retirement, then at most one verdict. */
  lemma EventsOfRunShape(t: Tables, input: RunInput, k: LotKey)
    requires WellFormed(input) && t.rows.Keys <= t.lots.Keys
    requires k.source in input.sources
    ensures var verdict := EventsOfRun(t, input, k)[|RetireEvents(t, input, k)|..];
      && EventsOfRun(t, input, k) == RetireEvents(t, input, k) + verdict
      && (verdict != [] <==> ReportedByRun(t, input, k) || AbsenceProvedByRun(t, input, k))
      && (verdict != [] ==> |verdict| == 1 && (verdict[0].Touched? <==> ReportedByRun(t, input, k)))
      && (verdict != [] && Timely(input) ==> verdict[0].at >= input.reading)
  {
    hide Vetted, EventsOf, Reported, AbsenceProved, RetireEvents;
    var i := IndexOf(input.sources, k.source);
    var before := AfterSources(t, input, i);
    VettedIsWellCovered(before, k.source, input.scans[i]);
    SourcesFrame(t, input, i);
    assert before.ReceiptGroups(input.run, k.source) == t.ReceiptGroups(input.run, k.source) by {
      forall j | 0 <= j < i ensures input.sources[j] != k.source {}
    }
    VerdictShape(before, input.run, k.source, Used(t, input, i), input.times[i], k);
  }

  lemma UnselectedSource(t: Tables, input: RunInput, k: LotKey)
    requires WellFormed(input) && k.source !in input.sources
    ensures !ReportedByRun(t, input, k) && !AbsenceProvedByRun(t, input, k) && !Stale(t, input, k)
    ensures EventsOfRun(t, input, k) == []
  {
  }

  lemma PlayLast(row: Option<Row>, run: RunId, front: seq<Event>, e: Event)
    ensures Play(row, run, front + [e]) == Step(Play(row, run, front), run, e)
  {
    assert (front + [e])[..|front + [e]| - 1] == front;
  }

  /** The exact effect of a run on the activity of any lot, whichever run id it carries. */
  lemma ActiveAfterRun(t: Tables, input: RunInput, k: LotKey)
    requires WellFormed(input) && t.rows.Keys <= t.lots.Keys
    ensures var row, row' := Lookup(t.rows, k), Lookup(AfterRun(t, input).rows, k);
      && (Live(row') <==>
            || ReportedByRun(t, input, k)
            || (Live(row) && (row.value.lastAbsence == Some(input.run)
                              || (!Stale(t, input, k) && !AbsenceProvedByRun(t, input, k)))))
      && (!ReportedByRun(t, input, k) && !Stale(t, input, k) && !AbsenceProvedByRun(t, input, k) ==> row' == row)
  {
    hide AfterRun, EventsOfRun, ReportedByRun, AbsenceProvedByRun;
    var run, row := input.run, Lookup(t.rows, k);
    RunPlays(t, input, k);
    PlayOne(row, run, Dropped(input.retiredAt));
    if k.source in input.sources {
      EventsOfRunShape(t, input, k);
      var verdict := EventsOfRun(t, input, k)[|RetireEvents(t, input, k)|..];
      if verdict != [] {
        assert verdict == [verdict[0]];
        PlayLast(row, run, RetireEvents(t, input, k), verdict[0]);
      }
    } else {
      UnselectedSource(t, input, k);
    }
  }

  /** A run id no row has met: the state before every run that is not a retry. */
  ghost predicate FreshRun(t: Tables, run: RunId) {
    && (forall x :: x in t.receipts ==> x.run != run)
    && forall k :: FreshFor(Lookup(t.rows, k), run)
  }

  /** With a fresh id a lot is active afterwards exactly when it was reported, or was active
      before, not stale, and its absence was not proved. */
  lemma FreshRunIsExact(t: Tables, input: RunInput, k: LotKey)
    requires WellFormed(input) && t.rows.Keys <= t.lots.Keys && FreshRun(t, input.run)
    ensures Live(Lookup(AfterRun(t, input).rows, k)) <==>
      || ReportedByRun(t, input, k)
      || (Live(Lookup(t.rows, k)) && !Stale(t, input, k) && !AbsenceProvedByRun(t, input, k))
  {
    hide AfterRun, ReportedByRun, AbsenceProvedByRun, Stale;
    ActiveAfterRun(t, input, k);
  }
}
