/** What a run takes for a report, for staleness and for proved absence, read off its input alone. */
module RunEvidence {
  import opened Wrappers
  import opened Sequences
  import opened Domain
  import opened SourceContract
  import opened Lifecycle
  import opened Operational
  import opened Stability
  import opened Persistence
  import opened RunEngine
  import opened RunTheorems

  /** A lot is stale when it is active and was last seen more than 48 hours before the run read the clock. */
  lemma StaleMeans(t: Tables, input: RunInput, k: LotKey)
    ensures Stale(t, input, k) <==>
      k.source in input.sources && k in t.rows && t.rows[k].active && t.rows[k].lastSeen < input.reading - 48 * 60 * 60
  {
  }

  /** A lot is reported when its source's scan meets the contract and lists it. */
  lemma ReportedMeans(t: Tables, input: RunInput, i: nat, k: LotKey)
    requires WellFormed(input) && i < |input.sources| && k.source == input.sources[i]
    ensures ReportedByRun(t, input, k) <==>
      Conforms(k.source, input.scans[i]) && exists l :: l in input.scans[i].lots && l.key == k
  {
    hide Conforms, Stabilized, AfterSources;
    SameIndexOf(input.sources, i);
    VettedIsWellCovered(AfterSources(t, input, i), k.source, input.scans[i]);
  }

  lemma SameIndexOf(ids: seq<string>, i: nat)
    requires NoDuplicates(ids) && i < |ids|
    ensures IndexOf(ids, ids[i]) == i
  {
    assert ids[IndexOf(ids, ids[i])] == ids[i];
  }

  /** The source's active lots once the stale ones have been retired, as far as the removal guard lets them. */
  function StillActive(t: Tables, input: RunInput, source: string): set<LotKey> {
    set k | k in t.rows && k.source == source && t.rows[k].active
            && (t.rows[k].lastSeen >= input.reading - 48 * 60 * 60 || t.rows[k].lastAbsence == Some(input.run))
  }

  /** The receipt of an active Castells group claims that fewer than a quarter of its lots are left, but not none. */
  predicate Doubtful(t: Tables, input: RunInput, scan: ScanResult, x: Receipt) {
    && scan.source == "castells" && scan.discovery != Failed && x.status == Complete && x.authoritative
    && (exists g :: g in scan.groups && g.active && g.id == x.group)
    && var known, now := |set k | k in StillActive(t, input, "castells") && k.auction == x.group|,
                         |set l | l in scan.lots && l.key.auction == x.group :: l.key|;
       now > 0 && known >= 8 && 4 * now < known
  }

  lemma PriorMeans(t: Tables, input: RunInput, i: nat)
    requires WellFormed(input) && t.rows.Keys <= t.lots.Keys && i < |input.sources|
    ensures AfterSources(t, input, i).ActiveKeys(input.sources[i]) == StillActive(t, input, input.sources[i])
  {
    hide AfterSources;
    var source, before := input.sources[i], AfterSources(t, input, i);
    SourcesFrame(t, input, i);
    assert source !in input.sources[0..i];
    forall k: LotKey | k.source == source
      ensures k in before.ActiveKeys(source) <==> k in StillActive(t, input, source)
    {
      OtherSources(t, input, 0, i, k);
      RetirePlays(t, input, k);
      StaleMeans(t, input, k);
      PlayOne(Lookup(t.rows, k), input.run, Dropped(input.retiredAt));
      assert k in before.ActiveKeys(source) <==> Live(Lookup(before.rows, k));
    }
  }

  /** Of a conforming scan, just the doubtful receipts lose their authority. */
  lemma UsedReceipt(t: Tables, input: RunInput, i: nat, n: nat)
    requires WellFormed(input) && t.rows.Keys <= t.lots.Keys && i < |input.sources|
    requires Conforms(input.sources[i], input.scans[i]) && n < |input.scans[i].receipts|
    ensures |Used(t, input, i).receipts| == |input.scans[i].receipts|
    ensures var x, y := input.scans[i].receipts[n], Used(t, input, i).receipts[n];
      if Doubtful(t, input, input.scans[i], x) then y.group == x.group && !y.authoritative else y == x
  {
    hide Conforms, Stabilized, AfterSources, StillActive;
    PriorMeans(t, input, i);
    DowngradedReceipt(input.scans[i], StillActive(t, input, input.sources[i]), n);
    SourceIsOwn(input.sources[i], input.scans[i]);
  }

  lemma SourceIsOwn(source: string, scan: ScanResult)
    requires Conforms(source, scan)
    ensures scan.source == source
  {
  }

  predicate AnyDoubtful(t: Tables, input: RunInput, scan: ScanResult) {
    exists x :: x in scan.receipts && Doubtful(t, input, scan, x)
  }

  lemma UsedResult(t: Tables, input: RunInput, i: nat)
    requires WellFormed(input) && t.rows.Keys <= t.lots.Keys && i < |input.sources|
    requires Conforms(input.sources[i], input.scans[i])
    ensures var scan, used := input.scans[i], Used(t, input, i);
      && |used.receipts| == |scan.receipts| && used.omission == scan.omission
      && (AnyDoubtful(t, input, scan) ==> !used.authoritative)
      && (!AnyDoubtful(t, input, scan) ==> used == scan)
  {
    hide Conforms, Stabilized, AfterSources, Doubtful;
    var scan, used := input.scans[i], Used(t, input, i);
    DowngradedResult(scan, AfterSources(t, input, i).ActiveKeys(input.sources[i]));
    SameLength(scan, AfterSources(t, input, i).ActiveKeys(input.sources[i]));
    forall n | 0 <= n < |scan.receipts|
      ensures if Doubtful(t, input, scan, scan.receipts[n]) then used.receipts[n] != scan.receipts[n]
              else used.receipts[n] == scan.receipts[n]
    {
      UsedReceipt(t, input, i, n);
      if Doubtful(t, input, scan, scan.receipts[n]) { DoubtfulClaims(t, input, scan, scan.receipts[n]); }
    }
    if AnyDoubtful(t, input, scan) {
      var x :| x in scan.receipts && Doubtful(t, input, scan, x);
      var n :| 0 <= n < |scan.receipts| && scan.receipts[n] == x;
      assert used.receipts[n] != scan.receipts[n];
    } else {
      assert forall n :: 0 <= n < |scan.receipts| ==> scan.receipts[n] in scan.receipts;
      assert used.receipts == scan.receipts;
    }
  }

  lemma DoubtfulClaims(t: Tables, input: RunInput, scan: ScanResult, x: Receipt)
    requires Doubtful(t, input, scan, x)
    ensures x.authoritative
  {
  }

  lemma SameLength(r: ScanResult, prior: set<LotKey>)
    ensures |Stabilized(r, prior).receipts| == |r.receipts|
  {
  }

  /**
   * A lot's absence is proved by a conforming scan in one of two ways: its auction has a complete authoritative
   * receipt that is not doubtful; or its auction has no receipt, now or stored by this run before, and the source
   * is authoritative for what it omits, without any doubtful receipt.
   */
  lemma AbsenceMeans(t: Tables, input: RunInput, i: nat, k: LotKey)
    requires WellFormed(input) && t.rows.Keys <= t.lots.Keys && i < |input.sources| && k.source == input.sources[i]
    ensures var scan := input.scans[i];
      AbsenceProvedByRun(t, input, k) <==>
        && Conforms(k.source, scan)
        && if exists x :: x in scan.receipts && x.group == k.auction
           then exists x :: x in scan.receipts && x.group == k.auction && x.status == Complete && x.authoritative
                  && !Doubtful(t, input, scan, x)
           else scan.omission != Some(false) && scan.discovery == Complete && scan.authoritative
                && (forall x :: x in scan.receipts ==> !Doubtful(t, input, scan, x))
                && (forall y :: y in t.receipts && y.run == input.run && y.source == k.source ==> y.group != k.auction)
  {
    hide Conforms, Stabilized, AfterSources, Doubtful;
    var scan, used := input.scans[i], Used(t, input, i);
    SameIndexOf(input.sources, i);
    StoredGroups(t, input.run, k.source, k.auction);
    if Conforms(k.source, scan) {
      UsedResult(t, input, i);
      AbsenceByReceipts(t, input, i, k);
    } else {
      FailedProvesNothing(t, input, i);
    }
  }

  lemma StoredGroups(t: Tables, run: RunId, source: string, group: string)
    ensures group in t.ReceiptGroups(run, source) <==>
      exists y :: y in t.receipts && y.run == run && y.source == source && y.group == group
  {
  }

  lemma FailedProvesNothing(t: Tables, input: RunInput, i: nat)
    requires WellFormed(input) && i < |input.sources| && !Conforms(input.sources[i], input.scans[i])
    ensures Used(t, input, i).receipts == [] && Used(t, input, i).discovery == Failed
    ensures ReceiptIds(Used(t, input, i)) == []
  {
    hide AfterSources, Conforms;
    SameLength(FailedResult(input.sources[i]), AfterSources(t, input, i).ActiveKeys(input.sources[i]));
    assert !AnyQuarantined(FailedResult(input.sources[i]), AfterSources(t, input, i).ActiveKeys(input.sources[i]));
  }

  lemma AbsenceByReceipts(t: Tables, input: RunInput, i: nat, k: LotKey)
    requires WellFormed(input) && t.rows.Keys <= t.lots.Keys && i < |input.sources| && k.source == input.sources[i]
    requires Conforms(k.source, input.scans[i])
    ensures var scan, used := input.scans[i], Used(t, input, i);
      && (k.auction in ReceiptIds(used) <==> exists x :: x in scan.receipts && x.group == k.auction)
      && ((exists y :: y in used.receipts && y.group == k.auction && y.status == Complete && y.authoritative) <==>
            exists x :: x in scan.receipts && x.group == k.auction && x.status == Complete && x.authoritative
              && !Doubtful(t, input, scan, x))
  {
    hide Conforms, Stabilized, AfterSources, Doubtful, Used;
    var scan, used := input.scans[i], Used(t, input, i);
    UsedResult(t, input, i);
    forall n | 0 <= n < |scan.receipts|
      ensures used.receipts[n].group == scan.receipts[n].group
      ensures used.receipts[n].authoritative ==>
        used.receipts[n] == scan.receipts[n] && !Doubtful(t, input, scan, scan.receipts[n])
      ensures !Doubtful(t, input, scan, scan.receipts[n]) ==> used.receipts[n] == scan.receipts[n]
    {
      UsedReceipt(t, input, i, n);
    }
    ReceiptGroups(used, scan, k.auction);
    if y :| y in used.receipts && y.group == k.auction && y.status == Complete && y.authoritative {
      var n :| 0 <= n < |used.receipts| && used.receipts[n] == y;
      assert scan.receipts[n] in scan.receipts;
    }
    if x :| x in scan.receipts && x.group == k.auction && x.status == Complete && x.authoritative
            && !Doubtful(t, input, scan, x) {
      var n :| 0 <= n < |scan.receipts| && scan.receipts[n] == x;
      assert used.receipts[n] in used.receipts;
    }
  }

  lemma ReceiptGroups(used: ScanResult, scan: ScanResult, group: string)
    requires |used.receipts| == |scan.receipts|
    requires forall n :: 0 <= n < |scan.receipts| ==> used.receipts[n].group == scan.receipts[n].group
    ensures group in ReceiptIds(used) <==> exists x :: x in scan.receipts && x.group == group
  {
    if group in ReceiptIds(used) {
      var n :| 0 <= n < |used.receipts| && ReceiptIds(used)[n] == group;
      assert scan.receipts[n] in scan.receipts;
    }
    if x :| x in scan.receipts && x.group == group {
      var n :| 0 <= n < |scan.receipts| && scan.receipts[n] == x;
      assert ReceiptIds(used)[n] == group;
    }
  }
}
