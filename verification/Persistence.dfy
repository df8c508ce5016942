/** Writing one source result: its receipts, its lots and the removals they prove. */
module Persistence {
  import opened Wrappers
  import opened Sequences
  import opened Domain
  import opened SourceContract
  import opened Lifecycle
  import opened Operational
  import opened Stability

  function StatusOf(d: Coverage): SourceStatus {
    match d
    case Complete => Succeeded
    case Partial => Degraded
    case Failed => Broken
  }

  function Began(t: Tables, run: RunId, source: string, r: ScanResult): Tables {
    t.(sourceRuns := t.sourceRuns[SourceRunKey(run, source) := SourceRun(StatusOf(r.discovery), r.authoritative)])
  }

  /** One receipt: persist it, then reconcile its group from it. */
  function ReceiptWritten(t: Tables, run: RunId, source: string, lots: seq<Lot>, x: Receipt, at: Time): Tables {
    Reconciled(t.(receipts := t.receipts[ReceiptKey(run, source, x.group) := x]),
               run, source, x.group, LotsIn(lots, x.group), at)
  }

  function AfterReceipts(t: Tables, run: RunId, source: string, r: ScanResult, times: seq<Time>, n: nat): Tables
    requires n <= |r.receipts| && n <= |times|
  {
    if n == 0 then Began(t, run, source, r)
    else ReceiptWritten(AfterReceipts(t, run, source, r, times, n - 1), run, source, r.lots,
                        r.receipts[n - 1], times[n - 1])
  }

  /** The tables after a whole source: every receipt, then the omitted groups unless opted out. */
  function Persisted(t: Tables, run: RunId, source: string, r: ScanResult, times: seq<Time>): Tables
    requires |times| > |r.receipts|
  {
    var covered := AfterReceipts(t, run, source, r, times, |r.receipts|);
    if r.omission == Some(false) then covered else OmittedClosed(covered, run, source, times[|r.receipts|])
  }

  /** Group the reported lots by auction, in one pass. */
  method GroupLots(lots: seq<Lot>) returns (byGroup: map<string, seq<Lot>>)
    ensures forall g :: LotsIn(lots, g) == if g in byGroup then byGroup[g] else []
  {
    byGroup := map[];
    for i := 0 to |lots|
      invariant forall g :: LotsIn(lots[..i], g) == if g in byGroup then byGroup[g] else []
    {
      var l := lots[i];
      assert lots[..i + 1][..i] == lots[..i];
      byGroup := byGroup[l.key.auction := (if l.key.auction in byGroup then byGroup[l.key.auction] else []) + [l]];
    }
    assert lots[..|lots|] == lots;
  }

  lemma {:induction false} LotsInDistinct(lots: seq<Lot>, group: string)
    requires NoDuplicates(LotKeys(lots))
    ensures NoDuplicates(LotKeys(LotsIn(lots, group)))
  {
    if lots != [] {
      var front, last := lots[..|lots| - 1], lots[|lots| - 1];
      assert forall i :: 0 <= i < |front| ==> LotKeys(front)[i] == LotKeys(lots)[i];
      LotsInDistinct(front, group);
      var kept := LotsIn(front, group);
      if last.key.auction == group {
        forall i | 0 <= i < |kept| ensures kept[i].key != last.key {
          assert kept[i] in front;
          var j :| 0 <= j < |front| && front[j] == kept[i];
          assert LotKeys(lots)[j] == kept[i].key;
          assert LotKeys(lots)[|lots| - 1] == last.key;
        }
        var all := LotKeys(kept + [last]);
        forall i, j | 0 <= i < j < |all| ensures all[i] != all[j] {
          assert i < |kept| && all[i] == kept[i].key;
          if j < |kept| { assert LotKeys(kept)[i] != LotKeys(kept)[j]; }
        }
      }
    }
  }

  method PersistReceipt(repo: OperationalRepository, run: RunId, source: string, r: ScanResult, x: Receipt,
                        byGroup: map<string, seq<Lot>>, at: Time)
    requires NoDuplicates(LotKeys(r.lots)) && forall l :: l in r.lots ==> l.key.source == source
    requires LotsIn(r.lots, x.group) == if x.group in byGroup then byGroup[x.group] else []
    modifies repo
    ensures repo.Contents() == ReceiptWritten(old(repo.Contents()), run, source, r.lots, x, at)
  {
    LotsInDistinct(r.lots, x.group);
    repo.RecordReceipt(ReceiptKey(run, source, x.group), x);
    var error := repo.ReconcileGroup(run, source, x.group, if x.group in byGroup then byGroup[x.group] else [], at);
  }

  method PersistSource(repo: OperationalRepository, run: RunId, source: string, r: ScanResult, times: seq<Time>)
    requires WellCovered(source, r) && |times| > |r.receipts|
    modifies repo
    ensures repo.Contents() == Persisted(old(repo.Contents()), run, source, r, times)
  {
    hide ReceiptWritten, Filter;
    repo.UpsertSourceRun(SourceRunKey(run, source), SourceRun(StatusOf(r.discovery), r.authoritative));
    var byGroup := GroupLots(r.lots);
    for i := 0 to |r.receipts|
      invariant repo.Contents() == AfterReceipts(old(repo.Contents()), run, source, r, times, i)
    {
      PersistReceipt(repo, run, source, r, r.receipts[i], byGroup, times[i]);
    }
    if r.omission != Some(false) {
      repo.ReconcileOmittedGroups(run, source, times[|r.receipts|]);
    }
  }

  // ----- The effect on a single lot

  predicate Reported(r: ScanResult, k: LotKey) {
    exists l :: l in r.lots && l.key == k
  }

  function IndexOf(ids: seq<string>, id: string): (i: nat)
    requires id in ids
    ensures i < |ids| && ids[i] == id
  {
    if ids[0] == id then 0 else 1 + IndexOf(ids[1..], id)
  }

  predicate OmissionProved(t: Tables, run: RunId, r: ScanResult, k: LotKey) {
    && r.omission != Some(false) && r.discovery == Complete && r.authoritative
    && k.auction !in t.ReceiptGroups(run, k.source)
  }

  /** What persisting this result means for one lot: a report, a proved absence, or nothing. */
  function EventsOf(t: Tables, run: RunId, source: string, r: ScanResult, times: seq<Time>, k: LotKey): seq<Event>
    requires |times| > |r.receipts|
  {
    if k.source != source then []
    else if k.auction in ReceiptIds(r) then
      var i := IndexOf(ReceiptIds(r), k.auction);
      if Reported(r, k) then [Touched(times[i])]
      else if r.receipts[i].status == Complete && r.receipts[i].authoritative then [Dropped(times[i])]
      else []
    else if OmissionProved(t, run, r, k) then [Dropped(times[|r.receipts|])]
    else []
  }

  lemma PlayOne(row: Option<Row>, run: RunId, e: Event)
    ensures Play(row, run, [e]) == Step(row, run, e)
  {
    assert [e][..0] == [];
    assert Play(row, run, []) == row;
  }

  lemma BatchKeys(source: string, r: ScanResult, group: string)
    requires WellCovered(source, r)
    ensures forall k :: k in SetOf(LotKeys(LotsIn(r.lots, group))) <==> Reported(r, k) && k.auction == group
    ensures forall k :: k in SetOf(LotKeys(LotsIn(r.lots, group))) ==> k.source == source
  {
    var batch := LotsIn(r.lots, group);
    forall k ensures k in SetOf(LotKeys(batch)) <==> Reported(r, k) && k.auction == group {
      if k in LotKeys(batch) {
        var i :| 0 <= i < |batch| && LotKeys(batch)[i] == k;
        assert batch[i] in r.lots;
      }
      if Reported(r, k) && k.auction == group {
        var l :| l in r.lots && l.key == k;
        assert l in batch;
        var i :| 0 <= i < |batch| && batch[i] == l;
        assert LotKeys(batch)[i] == k;
      }
    }
  }

  /** Reconciling one group moves exactly the rows of that group. */
  lemma ReconcileEffect(t: Tables, run: RunId, source: string, group: string, batch: seq<Lot>, at: Time, k: LotKey)
    requires ReceiptKey(run, source, group) in t.receipts && t.rows.Keys <= t.lots.Keys
    requires forall key :: key in SetOf(LotKeys(batch)) ==> key.source == source && key.auction == group
    ensures var t' := Reconciled(t, run, source, group, batch, at);
      var row := Lookup(t.rows, k);
      && t'.rows.Keys <= t'.lots.Keys
      && Lookup(t'.rows, k) ==
           if k in SetOf(LotKeys(batch)) then Step(row, run, Touched(at))
           else if k.source == source && k.auction == group && Proves(t.receipts[ReceiptKey(run, source, group)], batch)
           then Step(row, run, Dropped(at))
           else row
  {
  }

  /** Receipt x moves exactly the rows of its own group. */
  lemma ReceiptEffect(t: Tables, run: RunId, source: string, r: ScanResult, x: Receipt, at: Time, k: LotKey)
    requires WellCovered(source, r) && x in r.receipts
    requires t.rows.Keys <= t.lots.Keys
    ensures var t' := ReceiptWritten(t, run, source, r.lots, x, at);
      var row := Lookup(t.rows, k);
      && t'.rows.Keys <= t'.lots.Keys
      && t'.sourceRuns == t.sourceRuns
      && t'.receipts == t.receipts[ReceiptKey(run, source, x.group) := x]
      && Lookup(t'.rows, k) ==
           if k.source != source || k.auction != x.group then row
           else if Reported(r, k) then Step(row, run, Touched(at))
           else if x.status == Complete && x.authoritative then Step(row, run, Dropped(at))
           else row
  {
    BatchKeys(source, r, x.group);
    var recorded := t.(receipts := t.receipts[ReceiptKey(run, source, x.group) := x]);
    ReconcileEffect(recorded, run, source, x.group, LotsIn(r.lots, x.group), at, k);
  }

  /** Receipts first..n leave a row alone when none of them is for its auction. */
  lemma {:induction false} ReceiptsElsewhere(t: Tables, run: RunId, source: string, r: ScanResult, times: seq<Time>,
      first: nat, n: nat, k: LotKey)
    requires WellCovered(source, r) && first <= n <= |r.receipts| < |times|
    requires t.rows.Keys <= t.lots.Keys
    requires k.source != source || k.auction !in ReceiptIds(r)[first..n]
    ensures Lookup(AfterReceipts(t, run, source, r, times, n).rows, k)
         == Lookup(AfterReceipts(t, run, source, r, times, first).rows, k)
  {
    hide ReceiptWritten, WellCovered, Began;
    if first < n {
      assert ReceiptIds(r)[first..n] == ReceiptIds(r)[first..n - 1] + [ReceiptIds(r)[n - 1]];
      ReceiptsElsewhere(t, run, source, r, times, first, n - 1, k);
      ReceiptsFrame(t, run, source, r, times, n - 1);
      ReceiptEffect(AfterReceipts(t, run, source, r, times, n - 1), run, source, r, r.receipts[n - 1], times[n - 1], k);
    }
  }

  lemma {:induction false} ReceiptsFrame(t: Tables, run: RunId, source: string, r: ScanResult, times: seq<Time>, n: nat)
    requires WellCovered(source, r) && n <= |r.receipts| < |times|
    requires t.rows.Keys <= t.lots.Keys
    ensures var t' := AfterReceipts(t, run, source, r, times, n);
      && t'.rows.Keys <= t'.lots.Keys
      && t'.sourceRuns == Began(t, run, source, r).sourceRuns
      && t'.ReceiptGroups(run, source) == t.ReceiptGroups(run, source) + SetOf(ReceiptIds(r)[..n])
      && (forall x :: x in t'.receipts && x !in t.receipts ==> x.run == run && x.source == source)
      && (forall x :: x in t.receipts ==> x in t'.receipts)
  {
    hide WellCovered, ReceiptWritten;
    var t' := AfterReceipts(t, run, source, r, times, n);
    if n == 0 {
      assert ReceiptIds(r)[..0] == [];
    } else {
      ReceiptsFrame(t, run, source, r, times, n - 1);
      var prev := AfterReceipts(t, run, source, r, times, n - 1);
      var g := r.receipts[n - 1].group;
      ReceiptEffect(prev, run, source, r, r.receipts[n - 1], times[n - 1], LotKey("", "", ""));
      assert ReceiptIds(r)[..n] == ReceiptIds(r)[..n - 1] + [g];
      assert ReceiptKey(run, source, g) in t'.receipts;
      assert t'.ReceiptGroups(run, source) == prev.ReceiptGroups(run, source) + {g};
    }
  }

  /** After all receipts, each lot has lived exactly its own receipt's event. */
  lemma ReceiptsPlay(t: Tables, run: RunId, source: string, r: ScanResult, times: seq<Time>, k: LotKey)
    requires WellCovered(source, r) && |times| > |r.receipts|
    requires t.rows.Keys <= t.lots.Keys
    ensures Lookup(AfterReceipts(t, run, source, r, times, |r.receipts|).rows, k)
         == if k.source == source && k.auction in ReceiptIds(r)
            then Play(Lookup(t.rows, k), run, EventsOf(t, run, source, r, times, k))
            else Lookup(t.rows, k)
  {
    hide ReceiptWritten, Step, WellCovered, OmissionProved, Reported, Play;
    var ids, n := ReceiptIds(r), |r.receipts|;
    if k.source == source && k.auction in ids {
      var i := IndexOf(ids, k.auction);
      OneReceiptEach(source, r, i);
      ReceiptsElsewhere(t, run, source, r, times, 0, i, k);
      ReceiptsFrame(t, run, source, r, times, i);
      ReceiptEffect(AfterReceipts(t, run, source, r, times, i), run, source, r, r.receipts[i], times[i], k);
      ReceiptsElsewhere(t, run, source, r, times, i + 1, n, k);
      var row := Lookup(t.rows, k);
      PlayOne(row, run, Touched(times[i]));
      PlayOne(row, run, Dropped(times[i]));
      assert Play(row, run, []) == row by { PlayNone(row, run); }
    } else {
      assert ids[0..n] == ids;
      ReceiptsElsewhere(t, run, source, r, times, 0, n, k);
    }
  }

  lemma PlayNone(row: Option<Row>, run: RunId)
    ensures Play(row, run, []) == row
  {
  }

  lemma OneReceiptEach(source: string, r: ScanResult, i: nat)
    requires WellCovered(source, r) && i < |r.receipts|
    ensures var ids := ReceiptIds(r); ids[i] !in ids[0..i] && ids[i] !in ids[i + 1..|r.receipts|]
  {
    var ids := ReceiptIds(r);
    forall j | 0 <= j < i ensures ids[j] != ids[i] {}
    forall j | i < j < |ids| ensures ids[j] != ids[i] {}
  }

  /** Persisting a source plays on every stored lot exactly the events of its result. */
  lemma PersistPlays(t: Tables, run: RunId, source: string, r: ScanResult, times: seq<Time>, k: LotKey)
    requires WellCovered(source, r) && |times| > |r.receipts|
    requires t.rows.Keys <= t.lots.Keys
    ensures Lookup(Persisted(t, run, source, r, times).rows, k)
         == Play(Lookup(t.rows, k), run, EventsOf(t, run, source, r, times, k))
  {
    hide AfterReceipts, WellCovered;
    var n := |r.receipts|;
    var covered := AfterReceipts(t, run, source, r, times, n);
    ReceiptsPlay(t, run, source, r, times, k);
    ReceiptsFrame(t, run, source, r, times, n);
    assert ReceiptIds(r)[..n] == ReceiptIds(r);
    PlayOne(Lookup(t.rows, k), run, Dropped(times[n]));
    assert MayCloseOmitted(covered, run, source) <==> r.discovery == Complete && r.authoritative;
  }

  lemma PersistFrame(t: Tables, run: RunId, source: string, r: ScanResult, times: seq<Time>)
    requires WellCovered(source, r) && |times| > |r.receipts|
    requires t.rows.Keys <= t.lots.Keys
    ensures var t' := Persisted(t, run, source, r, times);
      && t'.rows.Keys <= t'.lots.Keys
      && (forall x :: x in t'.receipts && x !in t.receipts ==> x.run == run && x.source == source)
      && (forall x :: x in t.receipts ==> x in t'.receipts)
  {
    ReceiptsFrame(t, run, source, r, times, |r.receipts|);
  }
}
