/** What a run leaves in the lot table, and what it therefore publishes. */
module RunInventory {
  import opened Wrappers
  import opened Sequences
  import opened Domain
  import opened SourceContract
  import opened Lifecycle
  import opened Operational
  import opened Stability
  import opened Persistence
  import opened RunEngine
  import opened RunTheorems
  import opened RunEvidence
  import opened Normalization
  import opened Matching
  import opened Publication

  /** The lot reported under a key. */
  function LotOf(lots: seq<Lot>, k: LotKey): Option<Lot> {
    if lots == [] then None
    else if lots[|lots| - 1].key == k then Some(lots[|lots| - 1])
    else LotOf(lots[..|lots| - 1], k)
  }

  function OrElse<T>(a: Option<T>, b: Option<T>): Option<T> { if a.Some? then a else b }

  lemma {:induction false} LotOfMeaning(lots: seq<Lot>, k: LotKey)
    ensures LotOf(lots, k).Some? <==> exists l :: l in lots && l.key == k
    ensures LotOf(lots, k).Some? ==> LotOf(lots, k).value in lots && LotOf(lots, k).value.key == k
  {
    if lots != [] {
      var front, last := lots[..|lots| - 1], lots[|lots| - 1];
      LotOfMeaning(front, k);
      assert forall l :: l in lots <==> l in front || l == last;
    }
  }

  lemma {:induction false} WrittenLots(lots: map<LotKey, Lot>, batch: seq<Lot>, k: LotKey)
    ensures Lookup(WriteAll(lots, batch), k) == OrElse(LotOf(batch, k), Lookup(lots, k))
  {
    if batch != [] { WrittenLots(lots, batch[..|batch| - 1], k); }
  }

  lemma {:induction false} LotOfGroup(lots: seq<Lot>, group: string, k: LotKey)
    ensures LotOf(LotsIn(lots, group), k) == if k.auction == group then LotOf(lots, k) else None
  {
    if lots != [] {
      var front, last := lots[..|lots| - 1], lots[|lots| - 1];
      LotOfGroup(front, group, k);
      var kept := LotsIn(front, group);
      assert (kept + [last])[..|kept|] == kept;
    }
  }

  lemma ReceiptWritesItsLots(t: Tables, run: RunId, source: string, lots: seq<Lot>, x: Receipt, at: Time, k: LotKey)
    ensures Lookup(ReceiptWritten(t, run, source, lots, x, at).lots, k)
         == if k.auction == x.group then OrElse(LotOf(lots, k), Lookup(t.lots, k)) else Lookup(t.lots, k)
  {
    hide LotOf, LotsIn, WriteAll, TouchAll, RemoveAll, Proves;
    LotOfGroup(lots, x.group, k);
    WrittenLots(t.lots, LotsIn(lots, x.group), k);
  }

  lemma {:induction false} LotsAfterReceipts(
    t: Tables, run: RunId, source: string, r: ScanResult, times: seq<Time>, n: nat, k: LotKey)
    requires n <= |r.receipts| && n <= |times|
    ensures Lookup(AfterReceipts(t, run, source, r, times, n).lots, k)
         == if k.auction in ReceiptIds(r)[..n] then OrElse(LotOf(r.lots, k), Lookup(t.lots, k)) else Lookup(t.lots, k)
  {
    hide LotOf, ReceiptWritten, OrElse;
    if n > 0 {
      LotsAfterReceipts(t, run, source, r, times, n - 1, k);
      var before, x := AfterReceipts(t, run, source, r, times, n - 1), r.receipts[n - 1];
      assert ReceiptIds(r)[..n] == ReceiptIds(r)[..n - 1] + [x.group];
      ReceiptWritesItsLots(before, run, source, r.lots, x, times[n - 1], k);
      OrElseTwice(LotOf(r.lots, k), Lookup(t.lots, k));
    }
  }

  lemma OrElseTwice<T>(a: Option<T>, b: Option<T>)
    ensures OrElse(a, OrElse(a, b)) == OrElse(a, b)
  {
  }

  lemma LotsAfterSource(t: Tables, run: RunId, source: string, r: ScanResult, times: seq<Time>, k: LotKey)
    requires WellCovered(source, r) && |times| > |r.receipts|
    ensures Lookup(Persisted(t, run, source, r, times).lots, k) == OrElse(LotOf(r.lots, k), Lookup(t.lots, k))
  {
    CoveredLots(source, r, k);
    hide AfterReceipts, WellCovered, LotOf, OmittedClosed;
    OmittedKeepsLots(AfterReceipts(t, run, source, r, times, |r.receipts|), run, source, times[|r.receipts|]);
    LotsAfterReceipts(t, run, source, r, times, |r.receipts|, k);
    assert ReceiptIds(r)[..|r.receipts|] == ReceiptIds(r);
  }

  lemma OmittedKeepsLots(t: Tables, run: RunId, source: string, at: Time)
    ensures OmittedClosed(t, run, source, at).lots == t.lots
  {
  }

  lemma CoveredLots(source: string, r: ScanResult, k: LotKey)
    requires WellCovered(source, r)
    ensures LotOf(r.lots, k).Some? ==> k.source == source && k.auction in ReceiptIds(r)
  {
    LotOfMeaning(r.lots, k);
  }

  /** What the run's own result for the lot's source reports of it, after vetting. */
  function LotByRun(t: Tables, input: RunInput, k: LotKey): Option<Lot>
    requires WellFormed(input)
  {
    if k.source !in input.sources then None
    else LotOf(Used(t, input, IndexOf(input.sources, k.source)).lots, k)
  }

  lemma {:induction false} LotsAfterSources(t: Tables, input: RunInput, n: nat, k: LotKey)
    requires WellFormed(input) && n <= |input.sources|
    ensures Lookup(AfterSources(t, input, n).lots, k)
         == OrElse(if k.source in input.sources[..n] then LotByRun(t, input, k) else None, Lookup(t.lots, k))
  {
    hide Persisted, WellCovered, Vetted, LotOf;
    if n > 0 {
      LotsAfterSources(t, input, n - 1, k);
      var before, source := AfterSources(t, input, n - 1), input.sources[n - 1];
      VettedIsWellCovered(before, source, input.scans[n - 1]);
      var used := Vetted(before, source, input.scans[n - 1]);
      LotsAfterSource(before, input.run, source, used, input.times[n - 1], k);
      CoveredLots(source, used, k);
      assert input.sources[..n] == input.sources[..n - 1] + [source];
      if k.source == source {
        assert IndexOf(input.sources, source) == n - 1;
        assert source !in input.sources[..n - 1];
      }
    }
  }

  /** After a run the lot table holds every reported lot as it was reported, and the others as they were. */
  lemma LotsAfterRun(t: Tables, input: RunInput, k: LotKey)
    requires WellFormed(input)
    ensures Lookup(AfterRun(t, input).lots, k) == OrElse(LotByRun(t, input, k), Lookup(t.lots, k))
    ensures LotByRun(t, input, k).Some? <==> ReportedByRun(t, input, k)
  {
    hide AfterSources, LotOf;
    LotsAfterSources(t, input, |input.sources|, k);
    assert input.sources[..|input.sources|] == input.sources;
    if k.source in input.sources { LotOfMeaning(Used(t, input, IndexOf(input.sources, k.source)).lots, k); }
  }

  /** What the run has of a lot is what the source's own scan, if it meets the contract, says of it. */
  lemma LotByRunMeans(t: Tables, input: RunInput, i: nat, k: LotKey, lot: Lot)
    requires WellFormed(input) && i < |input.sources| && k.source == input.sources[i]
    ensures LotByRun(t, input, k) == Some(lot) <==>
      Conforms(k.source, input.scans[i]) && lot in input.scans[i].lots && lot.key == k
  {
    hide Stabilized, AfterSources, LotOf, ExactCoverage, HonestAuthority;
    SameIndexOf(input.sources, i);
    VettedIsWellCovered(AfterSources(t, input, i), k.source, input.scans[i]);
    var lots := Checked(k.source, input.scans[i]).lots;
    LotOfMeaning(lots, k);
    if Conforms(k.source, input.scans[i]) && lot in lots && lot.key == k {
      IdentitiesMean(k.source, input.scans[i]);
      var a :| 0 <= a < |lots| && lots[a] == lot;
      var b :| 0 <= b < |lots| && lots[b] == LotOf(lots, k).value;
    }
  }

  /** The lot as it is stored after the run: as the run reported it, or else as before. */
  function StoredByRun(t: Tables, input: RunInput, k: LotKey): Option<Lot>
    requires WellFormed(input)
  { OrElse(LotByRun(t, input, k), Lookup(t.lots, k)) }

  /** Still open at this moment, and accepted by the matcher. */
  predicate IsOpportunity(n: Normalizer, p: Profile, lot: Option<Lot>, now: Time) {
    lot.Some? && (lot.value.closingAt.None? || lot.value.closingAt.value > now) && Evaluate(n, p, lot.value).matched
  }

  /**
   * From scans to snapshot, whichever id the run carries: a lot is listed for a profile exactly when the run
   * reported it, or it was active before and either protected by the removal guard or recent and not proved
   * absent; and what is stored of it is still open and accepted by the matcher.
   */
  lemma PublishedByRun(
    t: Tables, input: RunInput, m: Matches, n: Normalizer, ps: seq<Profile>, now: Time, i: nat, k: LotKey)
    requires WellFormed(input) && t.rows.Keys <= t.lots.Keys
    requires DistinctProfiles(ps) && i < |ps|
    ensures var lots, row := OpenLots(AfterRun(t, input), SetOf(input.sources), now), Lookup(t.rows, k);
      k in Listing(ProfilesMatched(m, n, ps, lots, input.run, now), lots, ps[i].id) <==>
        && k.source in input.sources
        && (ReportedByRun(t, input, k)
            || (Live(row) && (row.value.lastAbsence == Some(input.run)
                              || (!Stale(t, input, k) && !AbsenceProvedByRun(t, input, k)))))
        && IsOpportunity(n, ps[i], StoredByRun(t, input, k), now)
  {
    hide AfterRun, ReportedByRun, AbsenceProvedByRun, Stale, Evaluate, Listing, ProfilesMatched, LotByRun;
    var lots := OpenLots(AfterRun(t, input), SetOf(input.sources), now);
    ActiveAfterRun(t, input, k);
    LotsAfterRun(t, input, k);
    SnapshotListsAccepted(m, n, ps, lots, input.run, now, i);
  }

  /** With a new id the guard protects nothing. */
  lemma PublishedByFreshRun(
    t: Tables, input: RunInput, m: Matches, n: Normalizer, ps: seq<Profile>, now: Time, i: nat, k: LotKey)
    requires WellFormed(input) && t.rows.Keys <= t.lots.Keys && FreshRun(t, input.run)
    requires DistinctProfiles(ps) && i < |ps|
    ensures var lots := OpenLots(AfterRun(t, input), SetOf(input.sources), now);
      k in Listing(ProfilesMatched(m, n, ps, lots, input.run, now), lots, ps[i].id) <==>
        && k.source in input.sources
        && (ReportedByRun(t, input, k)
            || (Live(Lookup(t.rows, k)) && !Stale(t, input, k) && !AbsenceProvedByRun(t, input, k)))
        && IsOpportunity(n, ps[i], StoredByRun(t, input, k), now)
  {
    hide AfterRun, ReportedByRun, AbsenceProvedByRun, Stale, Listing, ProfilesMatched, StoredByRun, IsOpportunity,
      OpenLots;
    assert FreshFor(Lookup(t.rows, k), input.run);
    PublishedByRun(t, input, m, n, ps, now, i, k);
  }
}
