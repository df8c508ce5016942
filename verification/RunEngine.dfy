/** The inventory half of one run: retire, then vet, stabilise and persist each source in turn. */
module RunEngine {
  import opened Wrappers
  import opened Sequences
  import opened Domain
  import opened SourceContract
  import opened Lifecycle
  import opened Operational
  import opened Stability
  import opened Persistence

  const STALE_LOT_TTL: Time := 48 * 3600

  /** Everything a run receives from outside: its scans and the clock readings of its steps. */
  datatype RunInput = RunInput(
    run: RunId, sources: seq<string>, scans: seq<ScanResult>,
    reading: Time, retiredAt: Time, times: seq<seq<Time>>)

  predicate WellFormed(input: RunInput) {
    && NoDuplicates(input.sources)
    && |input.sources| == |input.scans| == |input.times|
    && forall i :: 0 <= i < |input.sources| ==> |input.times[i]| > |input.scans[i].receipts|
  }

  /** The clock never goes back during the run. */
  predicate Timely(input: RunInput) {
    && input.retiredAt >= input.reading
    && forall i, j :: 0 <= i < |input.times| && 0 <= j < |input.times[i]| ==> input.times[i][j] >= input.reading
  }

  function Cutoff(input: RunInput): Time { input.reading - STALE_LOT_TTL }

  function FailedResult(source: string): ScanResult {
    ScanResult(source, [], [], Failed, false, None, [], [], [], ["source contract violation"], [])
  }

  function Checked(source: string, scan: ScanResult): ScanResult {
    if Conforms(source, scan) then scan else FailedResult(source)
  }

  function Vetted(t: Tables, source: string, scan: ScanResult): ScanResult {
    Stabilized(Checked(source, scan), t.ActiveKeys(source))
  }

  lemma VettedIsWellCovered(t: Tables, source: string, scan: ScanResult)
    ensures WellCovered(source, Vetted(t, source, scan))
    ensures |Vetted(t, source, scan).receipts| <= |scan.receipts|
    ensures Vetted(t, source, scan).lots == Checked(source, scan).lots
  {
    if Conforms(source, scan) { ConformingIsWellCovered(source, scan); }
    StabilizedIsWellCovered(source, Checked(source, scan), t.ActiveKeys(source));
  }

  function SourcePersisted(t: Tables, input: RunInput, i: nat): Tables
    requires WellFormed(input) && i < |input.sources|
  {
    VettedIsWellCovered(t, input.sources[i], input.scans[i]);
    Persisted(t, input.run, input.sources[i], Vetted(t, input.sources[i], input.scans[i]), input.times[i])
  }

  function AfterSources(t: Tables, input: RunInput, n: nat): Tables
    requires WellFormed(input) && n <= |input.sources|
  {
    if n == 0 then Retired(t, SetOf(input.sources), input.run, Cutoff(input), input.retiredAt)
    else SourcePersisted(AfterSources(t, input, n - 1), input, n - 1)
  }

  lemma FirstTables(t: Tables, input: RunInput)
    requires WellFormed(input)
    ensures AfterSources(t, input, 0) == Retired(t, SetOf(input.sources), input.run, Cutoff(input), input.retiredAt)
  {
  }

  lemma NextTables(t: Tables, input: RunInput, i: nat)
    requires WellFormed(input) && i < |input.sources|
    ensures AfterSources(t, input, i + 1) == SourcePersisted(AfterSources(t, input, i), input, i)
  {
  }

  function AfterRun(t: Tables, input: RunInput): Tables
    requires WellFormed(input)
  {
    AfterSources(t, input, |input.sources|)
  }

  class AuctionRunEngine {
    const operational: OperationalRepository

    constructor (operational: OperationalRepository)
      ensures this.operational == operational
    {
      this.operational := operational;
    }

    method ProcessSource(source: string, run: RunId, scan: ScanResult, times: seq<Time>) returns (used: ScanResult)
      requires |times| > |scan.receipts|
      modifies operational
      ensures used == Vetted(old(operational.Contents()), source, scan)
      ensures |times| > |used.receipts|
      ensures operational.Contents() == Persisted(old(operational.Contents()), run, source, used, times)
    {
      var t := operational.Contents();
      VettedIsWellCovered(t, source, scan);
      hide Conforms, Stabilized, Persisted, WellCovered;
      var scanned := scan;
      var error := ContractError(source, scan);
      if error.Some? { scanned := FailedResult(source); }
      used := StabilizeInventory(scanned, operational.Contents().ActiveKeys(source));
      PersistSource(operational, run, source, used, times);
    }

    /** The reconciling steps of `_execute`, source by source. */
    method ReconcileSources(input: RunInput) returns (results: seq<ScanResult>)
      requires WellFormed(input)
      modifies operational
      ensures operational.Contents() == AfterRun(old(operational.Contents()), input)
      ensures |results| == |input.sources|
      ensures forall i :: 0 <= i < |results| ==>
        results[i] == Vetted(AfterSources(old(operational.Contents()), input, i), input.sources[i], input.scans[i])
    {
      hide Vetted, Retired, Persisted, AfterSources;
      ghost var t := operational.Contents();
      FirstTables(t, input);
      var retired := operational.RetireStaleLots(SetOf(input.sources), input.run, Cutoff(input), input.retiredAt);
      results := [];
      for i := 0 to |input.sources|
        invariant operational.Contents() == AfterSources(t, input, i)
        invariant |results| == i
        invariant forall j :: 0 <= j < i ==>
          results[j] == Vetted(AfterSources(t, input, j), input.sources[j], input.scans[j])
      {
        NextTables(t, input, i);
        var used := ProcessSource(input.sources[i], input.run, input.scans[i], input.times[i]);
        results := results + [used];
      }
    }
  }

  // ----- What one run does to one lot

  function RetireEvents(t: Tables, input: RunInput, k: LotKey): seq<Event> {
    if k in t.StaleKeys(SetOf(input.sources), Cutoff(input)) then [Dropped(input.retiredAt)] else []
  }

  /** All events of one run for one lot: possibly a retirement, then its own source's verdict. */
  function EventsOfRun(t: Tables, input: RunInput, k: LotKey): seq<Event>
    requires WellFormed(input)
  {
    if k.source !in input.sources then []
    else
      var i := IndexOf(input.sources, k.source);
      var before := AfterSources(t, input, i);
      VettedIsWellCovered(before, k.source, input.scans[i]);
      RetireEvents(t, input, k)
        + EventsOf(before, input.run, k.source, Vetted(before, k.source, input.scans[i]), input.times[i], k)
  }

  lemma RetirePlays(t: Tables, input: RunInput, k: LotKey)
    requires WellFormed(input)
    ensures Lookup(AfterSources(t, input, 0).rows, k) == Play(Lookup(t.rows, k), input.run, RetireEvents(t, input, k))
  {
    PlayOne(Lookup(t.rows, k), input.run, Dropped(input.retiredAt));
  }

  lemma {:induction false} SourcesFrame(t: Tables, input: RunInput, n: nat)
    requires WellFormed(input) && n <= |input.sources|
    requires t.rows.Keys <= t.lots.Keys
    ensures var t' := AfterSources(t, input, n);
      && t'.rows.Keys <= t'.lots.Keys
      && (forall x :: x in t'.receipts && x !in t.receipts ==> x.run == input.run && x.source in input.sources[..n])
      && (forall x :: x in t.receipts ==> x in t'.receipts)
  {
    hide Persisted, WellCovered, Vetted;
    if n > 0 {
      SourcesFrame(t, input, n - 1);
      var before := AfterSources(t, input, n - 1);
      VettedIsWellCovered(before, input.sources[n - 1], input.scans[n - 1]);
      PersistFrame(before, input.run, input.sources[n - 1],
                   Vetted(before, input.sources[n - 1], input.scans[n - 1]), input.times[n - 1]);
      assert input.sources[..n] == input.sources[..n - 1] + [input.sources[n - 1]];
    }
  }

  /** Processing other sources leaves a lot alone. */
  lemma {:induction false} OtherSources(t: Tables, input: RunInput, first: nat, n: nat, k: LotKey)
    requires WellFormed(input) && first <= n <= |input.sources|
    requires t.rows.Keys <= t.lots.Keys
    requires k.source !in input.sources[first..n]
    ensures Lookup(AfterSources(t, input, n).rows, k) == Lookup(AfterSources(t, input, first).rows, k)
  {
    hide Persisted, WellCovered, Vetted;
    if first < n {
      assert input.sources[first..n] == input.sources[first..n - 1] + [input.sources[n - 1]];
      OtherSources(t, input, first, n - 1, k);
      SourcesFrame(t, input, n - 1);
      var before := AfterSources(t, input, n - 1);
      VettedIsWellCovered(before, input.sources[n - 1], input.scans[n - 1]);
      PersistPlays(before, input.run, input.sources[n - 1],
                   Vetted(before, input.sources[n - 1], input.scans[n - 1]), input.times[n - 1], k);
    }
  }

  lemma {:induction false} PlayAppend(row: Option<Row>, run: RunId, first: seq<Event>, second: seq<Event>)
    ensures Play(row, run, first + second) == Play(Play(row, run, first), run, second)
  {
    if second == [] {
      assert first + second == first;
    } else {
      PlayAppend(row, run, first, second[..|second| - 1]);
      assert (first + second)[..|first + second| - 1] == first + second[..|second| - 1];
    }
  }

  /** A whole run plays on every lot exactly its events, whichever run id it uses. */
  lemma RunPlays(t: Tables, input: RunInput, k: LotKey)
    requires WellFormed(input)
    requires t.rows.Keys <= t.lots.Keys
    ensures Lookup(AfterRun(t, input).rows, k) == Play(Lookup(t.rows, k), input.run, EventsOfRun(t, input, k))
  {
    hide Persisted, WellCovered, Vetted, EventsOf;
    var n := |input.sources|;
    RetirePlays(t, input, k);
    if k.source in input.sources {
      var i := IndexOf(input.sources, k.source);
      OtherSources(t, input, 0, i, k);
      SourcesFrame(t, input, i);
      var before := AfterSources(t, input, i);
      VettedIsWellCovered(before, k.source, input.scans[i]);
      var used := Vetted(before, k.source, input.scans[i]);
      PersistPlays(before, input.run, k.source, used, input.times[i], k);
      OtherSources(t, input, i + 1, n, k);
      PlayAppend(Lookup(t.rows, k), input.run, RetireEvents(t, input, k),
                 EventsOf(before, input.run, k.source, used, input.times[i], k));
    } else {
      assert input.sources[0..n] == input.sources;
      OtherSources(t, input, 0, n, k);
    }
  }
}
