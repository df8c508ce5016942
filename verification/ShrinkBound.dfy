/** Quarantine and reconciliation together bound how fast a Castells group can shrink. */
module ShrinkBound {
  import opened Wrappers
  import opened Sequences
  import opened Domain
  import opened SourceContract
  import opened Lifecycle
  import opened Operational
  import opened Stability
  import opened Persistence
  import opened RunEngine
  import opened RunTheorems

  function ActiveIn(t: Tables, group: string): set<LotKey> {
    KnownIn(t.ActiveKeys(CASTELLS), group)
  }

  /** The group's active lots that an earlier attempt of this run had removed: the removal guard protects them. */
  function Protected(t: Tables, run: RunId, group: string): set<LotKey> {
    set k | k in ActiveIn(t, group) && t.rows[k].lastAbsence == Some(run)
  }

  lemma ActiveInAfter(t: Tables, run: RunId, r: ScanResult, times: seq<Time>, group: string, k: LotKey)
    requires WellCovered(CASTELLS, r) && |times| > |r.receipts| && t.rows.Keys <= t.lots.Keys
    requires k.source == CASTELLS && k.auction == group && group in ReceiptIds(r)
    ensures var x := r.receipts[IndexOf(ReceiptIds(r), group)];
      k in ActiveIn(Persisted(t, run, CASTELLS, r, times), group) <==>
        || Reported(r, k)
        || (k in ActiveIn(t, group)
            && (t.rows[k].lastAbsence == Some(run) || !(x.status == Complete && x.authoritative)))
  {
    hide Persisted, WellCovered;
    PersistPlays(t, run, CASTELLS, r, times, k);
    PersistFrame(t, run, CASTELLS, r, times);
    var i, row := IndexOf(ReceiptIds(r), group), Lookup(t.rows, k);
    PlayOne(row, run, Touched(times[i]));
    PlayOne(row, run, Dropped(times[i]));
    assert k in t.ActiveKeys(CASTELLS) <==> Live(row);
    var t' := Persisted(t, run, CASTELLS, r, times);
    assert k in t'.ActiveKeys(CASTELLS) <==> Live(Lookup(t'.rows, k));
  }

  lemma ListedHasReceipt(scan: ScanResult, group: string)
    requires Conforms(CASTELLS, scan) && ReportedActive(scan, group)
    ensures group in ReceiptIds(scan)
  {
    var g :| g in scan.groups && g.active && g.id == group;
    var n :| 0 <= n < |scan.groups| && scan.groups[n] == g;
    assert GroupIds(scan)[n] == group;
    assert group in SetOf(GroupIds(scan));
  }

  /** The group's active lots after persisting: the reported and the guarded ones, or no fewer than before. */
  lemma GroupAfter(t: Tables, run: RunId, r: ScanResult, times: seq<Time>, group: string)
    requires WellCovered(CASTELLS, r) && |times| > |r.receipts| && t.rows.Keys <= t.lots.Keys
    requires group in ReceiptIds(r)
    ensures var x := r.receipts[IndexOf(ReceiptIds(r), group)];
      var after := ActiveIn(Persisted(t, run, CASTELLS, r, times), group);
      if x.status == Complete && x.authoritative then after == ReportedIn(r, group) + Protected(t, run, group)
      else ActiveIn(t, group) <= after
  {
    ReportedKeysOfSource(r, group);
    hide WellCovered, Persisted, ReportedIn, Reported;
    var x := r.receipts[IndexOf(ReceiptIds(r), group)];
    var before, after := ActiveIn(t, group), ActiveIn(Persisted(t, run, CASTELLS, r, times), group);
    forall k: LotKey | k.source == CASTELLS && k.auction == group
      ensures k in after <==>
        Reported(r, k) || (k in before && (k in Protected(t, run, group) || !(x.status == Complete && x.authoritative)))
    {
      ActiveInAfter(t, run, r, times, group, k);
    }
  }

  predicate Bounded(before: set<LotKey>, after: set<LotKey>) { after == {} || 4 * |after| >= |before| }

  /** The receipt proves the group empty, but the guard keeps a few of its lots. */
  predicate EmptiedButForProtected(t: Tables, run: RunId, scan: ScanResult, group: string)
    requires group in ReceiptIds(scan)
  {
    var x := scan.receipts[IndexOf(ReceiptIds(scan), group)];
    && x.status == Complete && x.authoritative && ReportedIn(scan, group) == {}
    && 0 < 4 * |Protected(t, run, group)| < |ActiveIn(t, group)|
  }

  /**
   * A group listed as active with at least eight lots ends empty or with at least a quarter of them, except
   * exactly when a retried run finds it proved empty while its guard protects fewer than a quarter.
   */
  lemma GroupEmptiesOrKeepsAQuarter(t: Tables, run: RunId, scan: ScanResult, times: seq<Time>, group: string)
    requires Conforms(CASTELLS, scan) && scan.discovery != Failed && ReportedActive(scan, group)
    requires |times| > |scan.receipts| && t.rows.Keys <= t.lots.Keys && |ActiveIn(t, group)| >= 8
    requires group in ReceiptIds(scan)
    ensures var r := Stabilized(scan, t.ActiveKeys(CASTELLS));
      Bounded(ActiveIn(t, group), ActiveIn(Persisted(t, run, CASTELLS, r, times), group)) <==>
        !EmptiedButForProtected(t, run, scan, group)
  {
    var prior := t.ActiveKeys(CASTELLS);
    var r := Stabilized(scan, prior);
    ConformingIsWellCovered(CASTELLS, scan);
    StabilizedIsWellCovered(CASTELLS, scan, prior);
    StabilizedIds(scan, prior);
    hide Conforms, WellCovered, Persisted, GuardedReceipts, Protected;
    var i := IndexOf(ReceiptIds(r), group);
    GroupAfter(t, run, r, times, group);
    StabilizedReceipt(scan, prior, i);
    var before, after := ActiveIn(t, group), ActiveIn(Persisted(t, run, CASTELLS, r, times), group);
    if r.receipts[i].status == Complete && r.receipts[i].authoritative {
      NotQuarantined(scan, prior, i);
      SubsetSize(ReportedIn(scan, group), after);
    } else {
      SubsetSize(before, after);
    }
  }

  /** Only a group that still reports lots is ever quarantined. */
  lemma StabilizedReceipt(scan: ScanResult, prior: set<LotKey>, i: nat)
    requires i < |scan.receipts|
    ensures var x, y := scan.receipts[i], Stabilized(scan, prior).receipts[i];
      y == x || (ReportedIn(scan, x.group) != {} && y.status == Partial)
  {
  }

  // ----- Over a whole run

  /**
   * In a whole run: with the group's lots counted once stale lots have been retired, the same bound holds
   * with the same exception.
   */
  lemma RunEmptiesOrKeepsAQuarter(t: Tables, input: RunInput, i: nat, group: string)
    requires WellFormed(input) && t.rows.Keys <= t.lots.Keys
    requires i < |input.sources| && input.sources[i] == CASTELLS
    requires var scan := input.scans[i];
      Conforms(CASTELLS, scan) && scan.discovery != Failed && ReportedActive(scan, group) && group in ReceiptIds(scan)
    requires |ActiveIn(AfterSources(t, input, 0), group)| >= 8
    ensures var retired := AfterSources(t, input, 0);
      Bounded(ActiveIn(retired, group), ActiveIn(AfterRun(t, input), group)) <==>
        !EmptiedButForProtected(retired, input.run, input.scans[i], group)
  {
    hide Conforms, WellCovered, Persisted, AfterSources, ReportedActive, EmptiedButForProtected;
    var scan, retired, before := input.scans[i], AfterSources(t, input, 0), AfterSources(t, input, i);
    SourcesFrame(t, input, i);
    VettedIsWellCovered(before, CASTELLS, scan);
    SameGroup(t, input, 0, i, group);
    SameGroup(t, input, i + 1, |input.sources|, group);
    SameProtected(retired, before, input.run, scan, group);
    GroupEmptiesOrKeepsAQuarter(before, input.run, scan, input.times[i], group);
    SourceStep(t, input, i);
  }

  lemma SourceStep(t: Tables, input: RunInput, i: nat)
    requires WellFormed(input) && i < |input.sources| && input.sources[i] == CASTELLS
    requires Conforms(CASTELLS, input.scans[i])
    ensures var before := AfterSources(t, input, i);
      && |Stabilized(input.scans[i], before.ActiveKeys(CASTELLS)).receipts| < |input.times[i]|
      && AfterSources(t, input, i + 1)
         == Persisted(before, input.run, CASTELLS, Stabilized(input.scans[i], before.ActiveKeys(CASTELLS)),
                      input.times[i])
  {
    hide Persisted, Conforms, Stabilized;
    VettedIsWellCovered(AfterSources(t, input, i), CASTELLS, input.scans[i]);
  }

  /** Other sources leave the group's rows alone. */
  lemma SameGroup(t: Tables, input: RunInput, first: nat, n: nat, group: string)
    requires WellFormed(input) && t.rows.Keys <= t.lots.Keys && first <= n <= |input.sources|
    requires CASTELLS !in input.sources[first..n]
    ensures SameRows(AfterSources(t, input, first), AfterSources(t, input, n), group)
    ensures ActiveIn(AfterSources(t, input, first), group) == ActiveIn(AfterSources(t, input, n), group)
  {
    hide AfterSources;
    SourcesFrame(t, input, first);
    SourcesFrame(t, input, n);
    var a, b := AfterSources(t, input, first), AfterSources(t, input, n);
    forall k: LotKey | k.source == CASTELLS && k.auction == group ensures Lookup(a.rows, k) == Lookup(b.rows, k) {
      OtherSources(t, input, first, n, k);
    }
    forall k ensures k in ActiveIn(a, group) <==> k in ActiveIn(b, group) {
      if k.source == CASTELLS && k.auction == group { assert Lookup(a.rows, k) == Lookup(b.rows, k); }
    }
  }

  ghost predicate SameRows(a: Tables, b: Tables, group: string) {
    forall k: LotKey :: k.source == CASTELLS && k.auction == group ==> Lookup(a.rows, k) == Lookup(b.rows, k)
  }

  lemma SameProtected(a: Tables, b: Tables, run: RunId, scan: ScanResult, group: string)
    requires SameRows(a, b, group) && ActiveIn(a, group) == ActiveIn(b, group) && group in ReceiptIds(scan)
    ensures EmptiedButForProtected(a, run, scan, group) <==> EmptiedButForProtected(b, run, scan, group)
  {
    forall k | k in ActiveIn(a, group) ensures a.rows[k] == b.rows[k] {
      assert Lookup(a.rows, k) == Lookup(b.rows, k);
    }
    assert Protected(a, run, group) == Protected(b, run, group);
  }

  /** A run with a new id is never in the exception. */
  lemma FreshRunEmptiesOrKeepsAQuarter(t: Tables, input: RunInput, i: nat, group: string)
    requires WellFormed(input) && t.rows.Keys <= t.lots.Keys && FreshRun(t, input.run)
    requires i < |input.sources| && input.sources[i] == CASTELLS
    requires var scan := input.scans[i];
      Conforms(CASTELLS, scan) && scan.discovery != Failed && ReportedActive(scan, group)
    requires |ActiveIn(AfterSources(t, input, 0), group)| >= 8
    ensures Bounded(ActiveIn(AfterSources(t, input, 0), group), ActiveIn(AfterRun(t, input), group))
  {
    ListedHasReceipt(input.scans[i], group);
    hide Conforms, AfterRun, ReportedActive;
    var retired := AfterSources(t, input, 0);
    forall k | k in ActiveIn(retired, group) ensures retired.rows[k].lastAbsence != Some(input.run) {
      assert FreshFor(Lookup(t.rows, k), input.run);
    }
    assert Protected(retired, input.run, group) == {};
    RunEmptiesOrKeepsAQuarter(t, input, i, group);
  }

  // ----- The exception occurs

  const EIGHT := ["1", "2", "3", "4", "5", "6", "7", "8"]

  function EightKeys(): seq<LotKey> { Map((id: string) => LotKey(CASTELLS, "g", id), EIGHT) }

  function EightLots(): set<LotKey> { SetOf(EightKeys()) }

  /** Eight active lots, one of them removed by run "r" before and seen again since. */
  function EightActive(lot: Lot): Tables {
    Tables(
      map k | k in EightLots() :: lot.(key := k),
      map k | k in EightLots() ::
        Row(0, 0, 1, true, None, Some("q"), if k.lot == "1" then Some("r") else None),
      map[], map[])
  }

  /** A complete, authoritative scan that lists the group and finds it empty. */
  function EmptyScan(): ScanResult {
    ScanResult(CASTELLS, [Group(CASTELLS, "g", "Remate g", "https://example.org/g", "", true, None)], [],
               Complete, true,
               Some(false), [Receipt("g", Complete, true, 0, 0)], [], [], [], [])
  }

  lemma EightAreEight()
    ensures |EightLots()| == 8
    ensures forall k :: k in EightLots() ==> k.source == CASTELLS && k.auction == "g"
    ensures LotKey(CASTELLS, "g", "1") in EightLots()
  {
    var keys := EightKeys();
    forall i, j | 0 <= i < j < |keys| ensures keys[i] != keys[j] {
      assert EIGHT[i][0] != EIGHT[j][0];
    }
    DistinctBySize(keys);
    assert keys[0] == LotKey(CASTELLS, "g", "1");
  }

  lemma EightAreActive(lot: Lot)
    ensures var t := EightActive(lot);
      && t.rows.Keys <= t.lots.Keys && |ActiveIn(t, "g")| == 8 && |Protected(t, "r", "g")| == 1
  {
    EightAreEight();
    hide EightLots;
    var t := EightActive(lot);
    assert ActiveIn(t, "g") == EightLots();
    assert Protected(t, "r", "g") == {LotKey(CASTELLS, "g", "1")};
  }

  /** Retried as "r", a run that finds the group empty leaves one of its eight lots active. */
  lemma OneOfEightIsLeft(lot: Lot, at: Time)
    ensures var t, scan := EightActive(lot), EmptyScan();
      && Conforms(CASTELLS, scan) && ReportedActive(scan, "g") && |ActiveIn(t, "g")| == 8
      && |Stabilized(scan, t.ActiveKeys(CASTELLS)).receipts| == 1
      && !Bounded(ActiveIn(t, "g"),
                  ActiveIn(Persisted(t, "r", CASTELLS, Stabilized(scan, t.ActiveKeys(CASTELLS)), [at, at]), "g"))
  {
    hide Conforms, Persisted, ActiveIn, Protected, EightActive, ReportedActive;
    var t, scan := EightActive(lot), EmptyScan();
    EightAreActive(lot);
    EmptyScanConforms();
    assert ReceiptIds(scan) == ["g"];
    assert EmptiedButForProtected(t, "r", scan, "g");
    GroupEmptiesOrKeepsAQuarter(t, "r", scan, [at, at], "g");
  }

  lemma EmptyScanConforms()
    ensures Conforms(CASTELLS, EmptyScan()) && ReportedActive(EmptyScan(), "g")
    ensures EmptyScan().discovery != Failed
  {
    var scan := EmptyScan();
    assert scan.groups[0].id == "g" && scan.groups[0] in scan.groups;
    assert GroupIds(scan) == ["g"] && ReceiptIds(scan) == ["g"] && SkippedIds(scan) == [];
    assert DiagnosticKeys(scan) == [] && LotKeys(scan.lots) == [];
    assert LotsIn(scan.lots, "g") == [];
  }

  lemma ReportedKeysOfSource(scan: ScanResult, group: string)
    requires WellCovered(CASTELLS, scan)
    ensures forall k :: k in ReportedIn(scan, group) <==> Reported(scan, k) && k.auction == group
    ensures forall k :: k in ReportedIn(scan, group) ==> k.source == CASTELLS
  {
  }

  lemma NotQuarantined(scan: ScanResult, prior: set<LotKey>, i: nat)
    requires scan.source == CASTELLS && scan.discovery != Failed && prior != {}
    requires i < |scan.receipts| && ReportedActive(scan, scan.receipts[i].group)
    requires var x := Stabilized(scan, prior).receipts[i]; x.status == Complete && x.authoritative
    ensures !Suspicious(scan, prior, scan.receipts[i].group)
  {
    assert scan.receipts[i] in scan.receipts;
  }
}
