/** Inventory facts that hold after any history of transactions, crashed runs included. */
module HistoryTheorems {
  import opened Wrappers
  import opened Sequences
  import opened Domain
  import opened SourceContract
  import opened Lifecycle
  import opened Operational
  import opened Stability
  import opened Persistence
  import opened RunEngine

  /** The transactions that write inventory, by any run and in any order. */
  datatype Transaction =
    | WriteSourceRun(key: SourceRunKey, value: SourceRun)
    | WriteReceipt(run: RunId, source: string, receipt: Receipt)
    | ReconcileOne(run: RunId, source: string, group: string, batch: seq<Lot>, at: Time)
    | CloseOmitted(run: RunId, source: string, at: Time)
    | RetireStale(run: RunId, sources: set<string>, cutoff: Time, at: Time)

  function RunOf(tx: Transaction): RunId {
    match tx
    case WriteSourceRun(key, _) => key.run
    case WriteReceipt(run, _, _) => run
    case ReconcileOne(run, _, _, _, _) => run
    case CloseOmitted(run, _, _) => run
    case RetireStale(run, _, _, _) => run
  }

  /** When a transaction that touches or removes rows does so. */
  function TimeOf(tx: Transaction): Time {
    match tx
    case ReconcileOne(_, _, _, _, at) => at
    case CloseOmitted(_, _, at) => at
    case RetireStale(_, _, _, at) => at
    case _ => 0
  }

  /** The transaction passes the repository's checks; otherwise it rolls back. */
  predicate Accepted(t: Tables, tx: Transaction) {
    tx.ReconcileOne? ==>
      && (forall l :: l in tx.batch ==> l.key.source == tx.source && l.key.auction == tx.group)
      && NoDuplicates(LotKeys(tx.batch))
      && ReceiptKey(tx.run, tx.source, tx.group) in t.receipts
  }

  function Apply(t: Tables, tx: Transaction): Tables {
    if !Accepted(t, tx) then t
    else match tx
      case WriteSourceRun(key, value) => t.(sourceRuns := t.sourceRuns[key := value])
      case WriteReceipt(run, source, x) => t.(receipts := t.receipts[ReceiptKey(run, source, x.group) := x])
      case ReconcileOne(run, source, group, batch, at) => Reconciled(t, run, source, group, batch, at)
      case CloseOmitted(run, source, at) => OmittedClosed(t, run, source, at)
      case RetireStale(run, sources, cutoff, at) => Retired(t, sources, run, cutoff, at)
  }

  const EMPTY := Tables(map[], map[], map[], map[])

  function Replay(history: seq<Transaction>): Tables {
    if history == [] then EMPTY
    else Apply(Replay(history[..|history| - 1]), history[|history| - 1])
  }

  predicate ReportedBy(t: Tables, tx: Transaction, k: LotKey) {
    Accepted(t, tx) && tx.ReconcileOne? && k in LotKeys(tx.batch)
  }

  /** When the history last reported the lot, if it ever did. */
  function LastReport(history: seq<Transaction>, k: LotKey): Option<Time> {
    if history == [] then None
    else
      var before, tx := history[..|history| - 1], history[|history| - 1];
      if ReportedBy(Replay(before), tx, k) then Some(tx.at) else LastReport(before, k)
  }

  /** One transaction plays at most one event on each row. */
  lemma ApplyPlays(t: Tables, tx: Transaction, k: LotKey)
    requires t.rows.Keys <= t.lots.Keys
    ensures var t' := Apply(t, tx);
      var row, row' := Lookup(t.rows, k), Lookup(t'.rows, k);
      && t'.rows.Keys <= t'.lots.Keys
      && (if ReportedBy(t, tx, k) then row' == Step(row, RunOf(tx), Touched(tx.at))
          else row' == row || row' == Step(row, RunOf(tx), Dropped(TimeOf(tx))))
      && (forall x :: x in t'.receipts && x !in t.receipts ==> x.run == RunOf(tx))
  {
    if Accepted(t, tx) {
      match tx
      case ReconcileOne(run, source, group, batch, at) =>
        forall key | key in SetOf(LotKeys(batch)) ensures key.source == source && key.auction == group {
          var i :| 0 <= i < |batch| && LotKeys(batch)[i] == key;
          assert batch[i] in batch;
        }
        ReconcileEffect(t, run, source, group, batch, at, k);
      case CloseOmitted(run, source, at) =>
        assert Lookup(Apply(t, tx).rows, k) == Lookup(t.rows, k)
            || Lookup(Apply(t, tx).rows, k) == Step(Lookup(t.rows, k), run, Dropped(at));
      case RetireStale(run, sources, cutoff, at) =>
        assert Lookup(Apply(t, tx).rows, k) == Lookup(t.rows, k)
            || Lookup(Apply(t, tx).rows, k) == Step(Lookup(t.rows, k), run, Dropped(at));
      case _ =>
    }
  }

  /** After any history a row is coherent and was last seen when it was last reported. */
  lemma {:induction false} HistoryKeeps(history: seq<Transaction>, k: LotKey)
    ensures var t := Replay(history);
      var row := Lookup(t.rows, k);
      && t.rows.Keys <= t.lots.Keys
      && Coherent(row)
      && (row.Some? <==> LastReport(history, k).Some?)
      && (row.Some? ==> Some(row.value.lastSeen) == LastReport(history, k))
  {
    hide Apply, Coherent, ReportedBy;
    if history == [] {
      EmptyRowIsCoherent();
    } else {
      var before, tx := history[..|history| - 1], history[|history| - 1];
      HistoryKeeps(before, k);
      ApplyPlays(Replay(before), tx, k);
      CoherentStep(Lookup(Replay(before).rows, k), RunOf(tx));
    }
  }

  lemma EmptyRowIsCoherent()
    ensures Coherent(None)
  {
  }

  /** A run id that no transaction carried is unknown to every row and receipt. */
  lemma {:induction false} UnusedIdIsFresh(history: seq<Transaction>, run: RunId, k: LotKey)
    requires forall tx :: tx in history ==> RunOf(tx) != run
    ensures FreshFor(Lookup(Replay(history).rows, k), run)
    ensures forall x :: x in Replay(history).receipts ==> x.run != run
  {
    hide Apply, ReportedBy;
    if history != [] {
      var before, tx := history[..|history| - 1], history[|history| - 1];
      assert tx in history;
      UnusedIdIsFresh(before, run, k);
      HistoryKeeps(before, k);
      ApplyPlays(Replay(before), tx, k);
    }
  }

  lemma CoherentStep(row: Option<Row>, run: RunId)
    requires Coherent(row)
    ensures forall e :: Coherent(Step(row, run, e))
  {
  }

  // ----- Whole runs are histories

  predicate Extends(history: seq<Transaction>, longer: seq<Transaction>, run: RunId) {
    && |history| <= |longer| && longer[..|history|] == history
    && forall i :: |history| <= i < |longer| ==> RunOf(longer[i]) == run
  }

  lemma ReplayOne(history: seq<Transaction>, tx: Transaction)
    ensures Replay(history + [tx]) == Apply(Replay(history), tx)
  {
    assert (history + [tx])[..|history + [tx]| - 1] == history;
  }

  lemma ReceiptIsHistory(history: seq<Transaction>, run: RunId, source: string, r: ScanResult, x: Receipt, at: Time)
      returns (longer: seq<Transaction>)
    requires WellCovered(source, r)
    ensures Replay(longer) == ReceiptWritten(Replay(history), run, source, r.lots, x, at)
    ensures Extends(history, longer, run)
  {
    hide Reconciled, Filter;
    var written := WriteReceipt(run, source, x);
    var reconciled := ReconcileOne(run, source, x.group, LotsIn(r.lots, x.group), at);
    ReplayOne(history, written);
    ReplayOne(history + [written], reconciled);
    LotsInDistinct(r.lots, x.group);
    longer := history + [written] + [reconciled];
  }

  lemma {:induction false} ReceiptsAreHistory(history: seq<Transaction>, run: RunId, source: string, r: ScanResult,
      times: seq<Time>, n: nat) returns (longer: seq<Transaction>)
    requires WellCovered(source, r) && n <= |r.receipts| < |times|
    ensures Replay(longer) == AfterReceipts(Replay(history), run, source, r, times, n)
    ensures Extends(history, longer, run)
  {
    hide WellCovered, ReceiptWritten;
    if n == 0 {
      var began := WriteSourceRun(SourceRunKey(run, source), SourceRun(StatusOf(r.discovery), r.authoritative));
      ReplayOne(history, began);
      longer := history + [began];
    } else {
      var before := ReceiptsAreHistory(history, run, source, r, times, n - 1);
      longer := ReceiptIsHistory(before, run, source, r, r.receipts[n - 1], times[n - 1]);
    }
  }

  lemma SourceIsHistory(history: seq<Transaction>, run: RunId, source: string, r: ScanResult, times: seq<Time>)
      returns (longer: seq<Transaction>)
    requires WellCovered(source, r) && |r.receipts| < |times|
    ensures Replay(longer) == Persisted(Replay(history), run, source, r, times)
    ensures Extends(history, longer, run)
  {
    hide WellCovered, AfterReceipts, OmittedClosed;
    longer := ReceiptsAreHistory(history, run, source, r, times, |r.receipts|);
    if r.omission != Some(false) {
      var closed := CloseOmitted(run, source, times[|r.receipts|]);
      ReplayOne(longer, closed);
      longer := longer + [closed];
    }
  }

  /** A complete run is a history of its own transactions, so every theorem about histories
      covers any number of complete runs, interleaved with interrupted ones. */
  lemma RunIsHistory(history: seq<Transaction>, input: RunInput, n: nat) returns (longer: seq<Transaction>)
    requires WellFormed(input) && n <= |input.sources|
    ensures Replay(longer) == AfterSources(Replay(history), input, n)
    ensures Extends(history, longer, input.run)
  {
    hide WellCovered, Persisted, Retired, Vetted;
    if n == 0 {
      var retired := RetireStale(input.run, SetOf(input.sources), Cutoff(input), input.retiredAt);
      ReplayOne(history, retired);
      longer := history + [retired];
    } else {
      var before := RunIsHistory(history, input, n - 1);
      var source := input.sources[n - 1];
      VettedIsWellCovered(Replay(before), source, input.scans[n - 1]);
      longer := SourceIsHistory(before, input.run, source, Vetted(Replay(before), source, input.scans[n - 1]),
                                input.times[n - 1]);
    }
  }

  // ----- Whole runs one after another

  function AfterRuns(inputs: seq<RunInput>): Tables
    requires forall i :: 0 <= i < |inputs| ==> WellFormed(inputs[i])
  {
    if inputs == [] then EMPTY
    else AfterRun(AfterRuns(inputs[..|inputs| - 1]), inputs[|inputs| - 1])
  }

  function EventsOfRuns(inputs: seq<RunInput>, k: LotKey): (runs: seq<RunEvents>)
    requires forall i :: 0 <= i < |inputs| ==> WellFormed(inputs[i])
    ensures |runs| == |inputs|
  {
    if inputs == [] then []
    else
      var before, last := inputs[..|inputs| - 1], inputs[|inputs| - 1];
      EventsOfRuns(before, k) + [RunEvents(last.run, EventsOfRun(AfterRuns(before), last, k))]
  }

  lemma {:induction false} RunsInOrder(inputs: seq<RunInput>, k: LotKey)
    requires forall i :: 0 <= i < |inputs| ==> WellFormed(inputs[i])
    ensures forall i :: 0 <= i < |inputs| ==> EventsOfRuns(inputs, k)[i].run == inputs[i].run
  {
    hide AfterRun, EventsOfRun, WellFormed;
    if inputs != [] { RunsInOrder(inputs[..|inputs| - 1], k); }
  }

  lemma {:induction false} RunsPlay(inputs: seq<RunInput>, k: LotKey)
    requires forall i :: 0 <= i < |inputs| ==> WellFormed(inputs[i])
    ensures AfterRuns(inputs).rows.Keys <= AfterRuns(inputs).lots.Keys
    ensures Lookup(AfterRuns(inputs).rows, k) == PlayRuns(None, EventsOfRuns(inputs, k))
  {
    hide AfterRun, EventsOfRun, Play, WellFormed;
    if inputs != [] {
      var before, last := inputs[..|inputs| - 1], inputs[|inputs| - 1];
      RunsPlay(before, k);
      RunKeepsKeys(AfterRuns(before), last);
      RunPlays(AfterRuns(before), last, k);
      var runs := EventsOfRuns(inputs, k);
      assert runs[..|runs| - 1] == EventsOfRuns(before, k);
    }
  }

  lemma RunKeepsKeys(t: Tables, input: RunInput)
    requires WellFormed(input) && t.rows.Keys <= t.lots.Keys
    ensures AfterRun(t, input).rows.Keys <= AfterRun(t, input).lots.Keys
  {
    SourcesFrame(t, input, |input.sources|);
  }

  /** Over any sequence of runs with different ids, a stored lot's count is one plus the number of
      later runs that reported it without having removed it earlier in the same run. */
  lemma SeenCountOverRuns(inputs: seq<RunInput>, k: LotKey)
    requires forall i :: 0 <= i < |inputs| ==> WellFormed(inputs[i])
    requires forall i, j :: 0 <= i < j < |inputs| ==> inputs[i].run != inputs[j].run
    requires k in AfterRuns(inputs).rows
    ensures AfterRuns(inputs).rows[k].seenCount == 1 + |LaterReports(EventsOfRuns(inputs, k))|
  {
    hide AfterRuns, PlayRuns, LaterReports, WellFormed;
    RunsPlay(inputs, k);
    RunsInOrder(inputs, k);
    SeenCountAccounting(EventsOfRuns(inputs, k));
  }
}
