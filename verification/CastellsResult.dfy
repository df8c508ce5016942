/** The result of a Castells scan and its conformance to the engine's contract. */
module CastellsResult {
  import opened Wrappers
  import opened Sequences
  import opened Ordering
  import opened Domain
  import opened Validation
  import opened Cleaning
  import opened SourceContract
  import opened Stability
  import opened CastellsDecoder
  import opened CastellsPages
  import opened CastellsPaging
  import opened CastellsLots
  import opened CastellsGroups
  import opened CastellsDiscovery
  import opened CastellsScan

  function Relevant(r: Reader, rules: Rules, conflicted: set<string>, auctions: seq<Record>): seq<Record> {
    Filter((raw: Record) => !Skippable(r, rules, conflicted, raw), auctions)
  }

  function Skipped(r: Reader, rules: Rules, conflicted: set<string>, auctions: seq<Record>): seq<SkippedGroup> {
    Map((raw: Record) => SkippedGroup(RawId(r, raw), Title(r, raw)),
        Filter((raw: Record) => Skippable(r, rules, conflicted, raw), auctions))
  }

  /** Distinct identities stay distinct in any selection. */
  lemma {:induction false} SelectionIsDistinct(r: Reader, p: Record -> bool, auctions: seq<Record>)
    requires NoDuplicates(AuctionIds(r, auctions))
    ensures NoDuplicates(AuctionIds(r, Filter(p, auctions)))
    ensures forall raw :: raw in Filter(p, auctions) ==> RawId(r, raw) in AuctionIds(r, auctions)
  {
    hide RawId;
    if auctions != [] {
      var front, last := auctions[..|auctions| - 1], auctions[|auctions| - 1];
      assert AuctionIds(r, auctions) == AuctionIds(r, front) + [RawId(r, last)];
      SelectionIsDistinct(r, p, front);
      if p(last) {
        var kept := Filter(p, front);
        assert AuctionIds(r, kept + [last]) == AuctionIds(r, kept) + [RawId(r, last)];
        assert RawId(r, last) !in AuctionIds(r, front);
        assert forall i :: 0 <= i < |kept| ==> AuctionIds(r, kept)[i] == RawId(r, kept[i]) && kept[i] in kept;
      }
    }
  }

  lemma SameIdSameRecord(r: Reader, auctions: seq<Record>, a: Record, b: Record)
    requires NoDuplicates(AuctionIds(r, auctions)) && a in auctions && b in auctions && RawId(r, a) == RawId(r, b)
    ensures a == b
  {
    var i :| 0 <= i < |auctions| && auctions[i] == a;
    var j :| 0 <= j < |auctions| && auctions[j] == b;
    assert AuctionIds(r, auctions)[i] == AuctionIds(r, auctions)[j];
  }

  lemma AscendingIsDistinct(s: seq<string>)
    requires Ascending(s)
    ensures NoDuplicates(s)
  {
  }

  /** Every discovered auction is either scanned or skipped, never both. */
  lemma Partition(r: Reader, rules: Rules, conflicted: set<string>, auctions: seq<Record>)
    requires NoDuplicates(AuctionIds(r, auctions))
    ensures var relevant := AuctionIds(r, Relevant(r, rules, conflicted, auctions));
      var skipped := Map((s: SkippedGroup) => s.group, Skipped(r, rules, conflicted, auctions));
      && NoDuplicates(relevant) && NoDuplicates(skipped) && SetOf(relevant) * SetOf(skipped) == {}
      && SetOf(relevant) + SetOf(skipped) == SetOf(AuctionIds(r, auctions))
  {
    hide RawId, Skippable, Title;
    var skip := (raw: Record) => Skippable(r, rules, conflicted, raw);
    var keep := (raw: Record) => !Skippable(r, rules, conflicted, raw);
    SelectionIsDistinct(r, skip, auctions);
    SelectionIsDistinct(r, keep, auctions);
    var kept, dropped := Filter(keep, auctions), Filter(skip, auctions);
    var skipped := Map((s: SkippedGroup) => s.group, Skipped(r, rules, conflicted, auctions));
    assert skipped == AuctionIds(r, dropped);
    IdsOf(r, auctions);
    IdsOf(r, kept);
    IdsOf(r, dropped);
    forall id ensures !(id in AuctionIds(r, kept) && id in AuctionIds(r, dropped)) {
      if id in AuctionIds(r, kept) && id in AuctionIds(r, dropped) {
        var a :| a in kept && RawId(r, a) == id;
        var b :| b in dropped && RawId(r, b) == id;
        SameIdSameRecord(r, auctions, a, b);
        assert false;
      }
    }
  }

  lemma IdsOf(r: Reader, s: seq<Record>)
    ensures forall id :: id in SetOf(AuctionIds(r, s)) <==> exists raw :: raw in s && RawId(r, raw) == id
  {
    forall raw | raw in s ensures RawId(r, raw) in AuctionIds(r, s) {
      var i :| 0 <= i < |s| && s[i] == raw;
      assert AuctionIds(r, s)[i] == RawId(r, raw);
    }
    forall id | id in AuctionIds(r, s) ensures exists raw :: raw in s && RawId(r, raw) == id {
      var i :| 0 <= i < |s| && AuctionIds(r, s)[i] == id;
      assert s[i] in s;
    }
  }

  function FailedDiscovery(error: string): ScanResult {
    ScanResult(CASTELLS, [], [], Failed, false, None, [], [], [], [error], [])
  }

  lemma FailedDiscoveryConforms(error: string)
    ensures Conforms(CASTELLS, FailedDiscovery(error))
  {
  }

  /** An assembled inventory with honest flags makes a conforming result. */
  lemma AssembledConforms(ids: seq<string>, v: Inventory, result: ScanResult)
    requires Assembled(ids, v) && NoDuplicates(ids)
    requires result.source == CASTELLS && result.groups == v.groups && result.lots == v.lots
    requires result.receipts == v.receipts && result.omission == Some(false)
    requires result.authoritative ==> result.discovery == Complete && result.errors == []
    requires result.authoritative ==> forall x :: x in v.receipts ==> x.authoritative
    requires NoDuplicates(SkippedIds(result)) && SetOf(ids) * SetOf(SkippedIds(result)) == {}
    requires NoDuplicates(DiagnosticKeys(result))
    requires forall d :: d in result.diagnostics ==> d in v.diagnostics
    ensures Conforms(CASTELLS, result)
  {
    hide LotsIn, LotKeys, NoDuplicates, KeyOf, Quiet;
    assert GroupIds(result) == ids && ReceiptIds(result) == ids;
  }

  /** What the result says about the discovered records. */
  ghost predicate Reports(r: Reader, rules: Rules, records: seq<Record>, result: ScanResult) {
    && (forall id :: id in SetOf(GroupIds(result)) || id in SetOf(SkippedIds(result)) <==> Named(r, records, id))
    && (forall x :: x in result.receipts && Disputed(r, records, x.group) ==> !x.authoritative)
    && result.omission == Some(false)
    && (result.authoritative <==> result.errors == [])
    && (result.authoritative <==>
          Nameless(r, records) == 0 && forall x :: x in result.receipts ==> x.authoritative)
    && result.discovery == if result.authoritative then Complete else Partial
  }

  lemma KindsKept(all: seq<Diagnostic>, unique: seq<Diagnostic>)
    requires forall d :: d in all ==> KeyOf(d) in Map((d: Diagnostic) => KeyOf(d), unique)
    ensures forall d :: d in all ==> exists e :: e in unique && KeyOf(e) == KeyOf(d)
  {
    hide KeyOf;
    var kinds := Map((d: Diagnostic) => KeyOf(d), unique);
    forall d | d in all ensures exists e :: e in unique && KeyOf(e) == KeyOf(d) {
      var i :| 0 <= i < |kinds| && kinds[i] == KeyOf(d);
      assert unique[i] in unique;
    }
  }

  /** Put the inventory and the skipped auctions together. */
  method Build(
    r: Reader, rules: Rules, ghost records: seq<Record>, ghost ids: seq<string>, v: Inventory,
    skipped: seq<SkippedGroup>, drift: nat, ghost conflicted: set<string>) returns (result: ScanResult)
    requires Assembled(ids, v) && NoDuplicates(ids) && DisputesHonoured(v, conflicted)
    requires var skippedIds := Map((s: SkippedGroup) => s.group, skipped);
      && NoDuplicates(skippedIds) && SetOf(ids) * SetOf(skippedIds) == {}
      && forall id :: id in SetOf(ids) || id in SetOf(skippedIds) <==> Named(r, records, id)
    requires drift == Nameless(r, records) && forall id :: id in conflicted <==> Disputed(r, records, id)
    ensures Conforms(CASTELLS, result) && Reports(r, rules, records, result)
    ensures result.groups == v.groups && result.lots == v.lots && result.receipts == v.receipts
    ensures result.skipped == skipped
    ensures result.errors == Map(rules.summary, Summarize(ISSUES, v.issues, drift))
    ensures result.warnings ==
      if v.warned == {} then [] else [rules.summary(OfGroups(InvalidPriceCurrency, |v.warned|))]
    ensures forall d :: d in v.diagnostics ==> exists e :: e in result.diagnostics && KeyOf(e) == KeyOf(d)
    ensures forall e :: e in result.diagnostics ==> e in v.diagnostics
  {
    hide Named, Disputed, Nameless, LotsIn, LotKeys, KeyOf, Conforms, Assembled, Reports, Summarize, DisputesHonoured,
      NoDuplicates;
    var errors := Map(rules.summary, Summarize(ISSUES, v.issues, drift));
    var warnings := if |v.warned| > 0 then [rules.summary(OfGroups(InvalidPriceCurrency, |v.warned|))] else [];
    var unique := UniqueDiagnostics(v.diagnostics);
    KindsKept(v.diagnostics, unique);
    var authoritative := errors == [] && forall x :: x in v.receipts ==> x.status == Complete && x.authoritative;
    result := ScanResult(CASTELLS, v.groups, v.lots, if authoritative then Complete else Partial, authoritative,
                         Some(false), v.receipts, skipped, unique, errors, warnings);
    BuiltIsHonest(r, rules, records, ids, v, drift, conflicted, result);
  }

  lemma BuiltIsHonest(
    r: Reader, rules: Rules, records: seq<Record>, ids: seq<string>, v: Inventory, drift: nat, conflicted: set<string>,
    result: ScanResult)
    requires Assembled(ids, v) && NoDuplicates(ids) && DisputesHonoured(v, conflicted)
    requires drift == Nameless(r, records) && forall id :: id in conflicted <==> Disputed(r, records, id)
    requires NoDuplicates(SkippedIds(result)) && SetOf(ids) * SetOf(SkippedIds(result)) == {}
    requires forall id :: id in SetOf(ids) || id in SetOf(SkippedIds(result)) <==> Named(r, records, id)
    requires NoDuplicates(DiagnosticKeys(result)) && forall d :: d in result.diagnostics ==> d in v.diagnostics
    requires result.errors == Map(rules.summary, Summarize(ISSUES, v.issues, drift))
    requires result.authoritative <==>
      result.errors == [] && forall x :: x in v.receipts ==> x.status == Complete && x.authoritative
    requires result.source == CASTELLS && result.groups == v.groups && result.lots == v.lots
    requires result.receipts == v.receipts && result.omission == Some(false)
    requires result.discovery == if result.authoritative then Complete else Partial
    ensures Conforms(CASTELLS, result) && Reports(r, rules, records, result)
  {
    hide Named, Disputed, Nameless, LotsIn, LotKeys, KeyOf, Conforms, NoDuplicates;
    NothingToSummarize(ISSUES, v.issues, drift);
    EveryIssueListed(StructureDrift);
    assert result.errors == [] <==> drift == 0 && Quiet(v.issues);
    AssembledConforms(ids, v, result);
    assert GroupIds(result) == ids;
  }

  /** What the server said on the home page, if it was readable. */
  ghost predicate Discovered(
    site: Site, world: World, rules: Rules, log: seq<string>, start: nat, records: seq<Record>) {
    && start < |log| && log[start] == site.homeUrl && world.reply(start, site.homeUrl).Answer?
    && world.reply(start, site.homeUrl).payload.JString?
    && rules.records(world.reply(start, site.homeUrl).payload.s) == Some(records)
  }

  /** Request number n to the home page is answered with a text that holds records. */
  ghost predicate Readable(site: Site, world: World, rules: Rules, n: nat) {
    var reply := world.reply(n, site.homeUrl);
    reply.Answer? && reply.payload.JString? && rules.records(reply.payload.s).Some?
  }

  /** The home page's records, or the issue that ends the scan. */
  method Discover(source: CastellsSource, rules: Rules) returns (records: Option<seq<Record>>, issue: Issue)
    requires source.Valid()
    modifies source
    ensures source.Valid() && old(source.log) <= source.log
    ensures source.requestCount - old(source.requestCount) == |source.log| - |old(source.log)|
    ensures records.Some? ==>
      Discovered(source.site, source.world, rules, source.log, |old(source.log)|, records.value)
    ensures source.deadline == old(source.deadline)
    ensures records.None? ==>
      || (source.log == old(source.log) && source.Spent(old(source.readings)))
      || !Readable(source.site, source.world, rules, |old(source.log)|)
  {
    issue := InvalidGxState;
    var reply := source.Get(source.site.homeUrl);
    match reply
    case Failure(cause) => return None, cause;
    case Answer(document) =>
      if !document.JString? { return None, InvalidGxState; }
      records := rules.records(document.s);
  }

  /** A read home page: its records and the auctions, drift and disputes they collapse to. */
  datatype Finding = Finding(records: seq<Record>, auctions: seq<Record>, drift: nat, conflicted: set<string>) {
    ghost predicate Valid(r: Reader) { Canonical(r, records, auctions, drift, conflicted) }

    function Wanted(r: Reader, rules: Rules): seq<Record> { Relevant(r, rules, conflicted, auctions) }
  }

  /** The result is exactly what the evidence for the relevant auctions adds up to. */
  ghost predicate Grounded(
    site: Site, limits: Limits, world: World, log: seq<string>, r: Reader, rules: Rules, f: Finding,
    evidence: seq<Evidence>, result: ScanResult)
  {
    var collected := Collected(evidence, f.conflicted);
    && AllEvidenced(site, limits, world, log, r, f.Wanted(r, rules), evidence)
    && |evidence| == |f.Wanted(r, rules)|
    && result.groups == collected.groups && result.lots == collected.lots && result.receipts == collected.receipts
    && result.skipped == Skipped(r, rules, f.conflicted, f.auctions)
    && result.errors == Map(rules.summary, Summarize(ISSUES, collected.issues, f.drift))
    && result.warnings ==
         (if collected.warned == {} then [] else [rules.summary(OfGroups(InvalidPriceCurrency, |collected.warned|))])
    && (forall d :: d in collected.diagnostics ==> exists e :: e in result.diagnostics && KeyOf(e) == KeyOf(d))
    && (forall e :: e in result.diagnostics ==> e in collected.diagnostics)
  }

  /**
   * One scan. For every behaviour of server and clock the result meets the engine's contract and spends
   * no more than the request budget. It raises instead exactly when the home page was read and the record of
   * some relevant auction cannot be made a group.
   */
  method Scan(source: CastellsSource, r: Reader, rules: Rules)
    returns (result: Option<ScanResult>, ghost found: Option<Finding>, ghost evidence: seq<Evidence>)
    requires source.Valid()
    modifies source
    ensures source.Valid() && old(source.log) <= source.log
    ensures |source.log| - |old(source.log)| <= source.limits.maxRequests
    ensures found.Some? ==> found.value.Valid(r)
    ensures found.Some? ==>
      Discovered(source.site, source.world, rules, source.log, |old(source.log)|, found.value.records)
    ensures found.Some? ==>
      var start, home := |old(source.log)|, source.site.homeUrl;
      && start < |source.log| && source.log[start] == home && source.world.reply(start, home).Answer?
      && source.world.reply(start, home).payload.JString?
      && rules.records(source.world.reply(start, home).payload.s) == Some(found.value.records)
    ensures found.None? ==>
      || source.world.clock(old(source.readings)) + source.limits.seconds
           <= source.world.clock(old(source.readings) + 1)
      || !Readable(source.site, source.world, rules, |old(source.log)|)
    ensures result.Some? ==> Conforms(CASTELLS, result.value)
    ensures result.Some? && found.None? ==>
      result.value.discovery == Failed && result.value.groups == [] && result.value.lots == []
      && result.value.omission == None
    ensures result.Some? && found.Some? ==> Reports(r, rules, found.value.records, result.value)
    ensures result.Some? && found.Some? ==>
      Grounded(source.site, source.limits, source.world, source.log, r, rules, found.value, evidence, result.value)
    ensures result.None? <==>
      found.Some? && exists raw :: raw in found.value.Wanted(r, rules) && Ungroupable(r, raw)
  {
    hide RawId, MakeGroup, Ungroupable, AllEvidenced, Assembled, Named, Disputed, Reports, Conforms, Discovered,
      Collected, DisputesHonoured, Skippable, NoDuplicates;
    evidence := [];
    source.Begin();
    found := None;
    var records, issue := Discover(source, rules);
    if records.None? {
      FailedDiscoveryConforms(rules.discoveryError(issue));
      return Some(FailedDiscovery(rules.discoveryError(issue))), found, evidence;
    }
    ghost var afterHome := source.log;
    var auctions, drift, conflicted := CanonicalAuctions(r, records.value);
    found := Some(Finding(records.value, auctions, drift, conflicted));
    AscendingIsDistinct(AuctionIds(r, auctions));
    Partition(r, rules, conflicted, auctions);
    var relevant := Relevant(r, rules, conflicted, auctions);
    var skipped := Skipped(r, rules, conflicted, auctions);
    var v, proof := ScanAuctions(source, r, relevant, conflicted);
    evidence := proof;
    DiscoveryLasts(source.site, source.world, rules, afterHome, source.log, |old(source.log)|, records.value);
    if v.None? { return None, found, evidence; }
    var built := Build(r, rules, records.value, AuctionIds(r, relevant), v.value, skipped, drift, conflicted);
    result := Some(built);
  }

  lemma DiscoveryLasts(
    site: Site, world: World, rules: Rules, before: seq<string>, log: seq<string>, start: nat, records: seq<Record>)
    requires Discovered(site, world, rules, before, start, records) && before <= log
    ensures Discovered(site, world, rules, log, start, records)
  {
  }

  // ----- When a scan raises, read off the home page

  /** A record that stands for its auction, is not dismissed by its title, and cannot be made a group. */
  predicate Raises(r: Reader, rules: Rules, records: seq<Record>, raw: Record) {
    && StandsFor(r, records, RawId(r, raw), raw) && Ungroupable(r, raw)
    && !ContainsAny(rules.normalizer, Title(r, raw), rules.ignored)
    && (Disputed(r, records, RawId(r, raw)) || !IrrelevantArt(rules.normalizer, Title(r, raw)))
  }

  /** Given a home page whose records the canonical text tells apart, the scan raises iff some record does. */
  lemma RaisingRecords(r: Reader, rules: Rules, f: Finding)
    requires f.Valid(r) && DumpTellsApart(r, f.records)
    ensures (exists raw :: raw in f.Wanted(r, rules) && Ungroupable(r, raw)) <==>
            (exists raw :: raw in f.records && Raises(r, rules, f.records, raw))
  {
    hide GroupId, RawId, Ungroupable, Disputed, IrrelevantArt, ContainsAny, Title;
    if raw :| raw in f.Wanted(r, rules) && Ungroupable(r, raw) {
      assert raw in f.auctions && StandsFor(r, f.records, RawId(r, raw), raw);
      assert Raises(r, rules, f.records, raw);
    }
    if raw :| raw in f.records && Raises(r, rules, f.records, raw) {
      AuctionOf(r, f, raw);
      assert raw in f.auctions && !Skippable(r, rules, f.conflicted, raw);
    }
  }

  lemma AuctionOf(r: Reader, f: Finding, raw: Record)
    requires f.Valid(r) && DumpTellsApart(r, f.records) && StandsFor(r, f.records, RawId(r, raw), raw)
    ensures raw in f.auctions
  {
    assert Named(r, f.records, RawId(r, raw));
    assert RawId(r, raw) in SetOf(AuctionIds(r, f.auctions));
    var i :| 0 <= i < |f.auctions| && AuctionIds(r, f.auctions)[i] == RawId(r, raw);
    assert f.auctions[i] in f.auctions;
    OneStandsFor(r, f.records, RawId(r, raw), raw, f.auctions[i]);
  }

  /** A home page record of an untitled auction with the identity 7, and one field more. */
  function Untitled(name: string, value: string): Record {
    map["RemateId" := JString("7"), "RemateImagen" := JString("7.jpg"), "RemateNombre" := JString("")]
       [name := JString(value)]
  }

  /** The reader leaves plain text as it is. */
  predicate Plain(r: Reader, s: string) {
    r.text.plain(JString(s)) == s && forall c :: c in s ==> !r.text.unicode.isSpace(c) && !r.text.unicode.isControl(c)
  }

  lemma UntitledRaises(r: Reader, rules: Rules, f: Finding, name: string, value: string)
    requires name !in {"RemateId", "RemateImagen", "RemateNombre"}
    requires f.Valid(r) && f.records == [Untitled(name, value)] && Plain(r, "7") && Plain(r, "")
    requires Ungroupable(r, Untitled(name, value))
    ensures exists raw :: raw in f.Wanted(r, rules) && Ungroupable(r, raw)
  {
    hide Ungroupable;
    var raw := Untitled(name, value);
    SevenIsItsId(r, raw);
    TextTotal(r.dump(raw), r.dump(raw));
    assert StandsFor(r, f.records, RawId(r, raw), raw);
    assert Title(r, raw) == "";
    assert Raises(r, rules, f.records, raw);
    RaisingRecords(r, rules, f);
  }

  /** A home page with one auction closing on the last day of the calendar makes the scan raise. */
  lemma LastDayRaises(r: Reader, rules: Rules, f: Finding)
    requires f.Valid(r) && f.records == [Untitled("RemateCierre", "9999-12-31")] && Plain(r, "7") && Plain(r, "")
    requires r.instant(JString("9999-12-31")).Overflow?
    ensures exists raw :: raw in f.Wanted(r, rules) && Ungroupable(r, raw)
  {
    UntitledRaises(r, rules, f, "RemateCierre", "9999-12-31");
  }

  /** So does one with an auction whose category is half of a surrogate pair. */
  lemma LoneSurrogateRaises(r: Reader, rules: Rules, f: Finding, half: char)
    requires f.Valid(r) && f.records == [Untitled("RemateCategoriaNombre", [half])] && Plain(r, "7") && Plain(r, "")
    requires r.text.plain(JString([half])) == [half] && !r.text.unicode.isSpace(half) && !r.encodable([half])
    ensures exists raw :: raw in f.Wanted(r, rules) && Ungroupable(r, raw)
  {
    WordIsItself(r.text.unicode, half);
    UntitledRaises(r, rules, f, "RemateCategoriaNombre", [half]);
  }

  lemma WordIsItself(u: Unicode, c: char)
    requires !u.isSpace(c)
    ensures Collapse(u, [c]) == [c]
  {
    assert Word(u, [c]) == [c] && Fields(u, [c]) == [[c]];
  }

  lemma SevenIsItsId(r: Reader, raw: Record)
    requires Plain(r, "7") && Field(raw, "RemateId") == JString("7")
    ensures Names(r, raw, RawId(r, raw))
  {
    var u := r.text.unicode;
    assert '7' in "7";
    WordIsItself(u, '7');
    StripTrims(u, "7");
  }

  /**
   * The engine's view: a scan that raised counts as failed, so what it vets always conforms, and still
   * does after quarantine, whatever the active inventory.
   */
  method ScanSource(source: CastellsSource, r: Reader, rules: Rules, crash: string)
    returns (result: ScanResult, ghost scanned: Option<ScanResult>, ghost found: Option<Finding>)
    requires source.Valid()
    modifies source
    ensures found.Some? ==> found.value.Valid(r)
    ensures scanned.None? <==>
      found.Some? && exists raw :: raw in found.value.Wanted(r, rules) && Ungroupable(r, raw)
    ensures scanned.Some? ==> result == scanned.value
    ensures scanned.Some? && found.Some? ==> Reports(r, rules, found.value.records, result)
    ensures scanned.None? || found.None? ==> result.discovery == Failed && result.groups == [] && result.lots == []
    ensures found.None? ==>
      || source.world.clock(old(source.readings)) + source.limits.seconds
           <= source.world.clock(old(source.readings) + 1)
      || !Readable(source.site, source.world, rules, |old(source.log)|)
    ensures Conforms(CASTELLS, result) && result.omission != Some(true)
    ensures forall prior :: Conforms(CASTELLS, Stabilized(result, prior))
  {
    hide Conforms, Reports, AllEvidenced, Collected, Stabilized;
    FailedDiscoveryConforms(crash);
    var outcome, finding, evidence := Scan(source, r, rules);
    scanned, found := outcome, finding;
    result := FailedDiscovery(crash);
    if outcome.Some? {
      OmissionIsDeclined(r, rules, found, outcome.value);
      result := outcome.value;
    }
    forall prior ensures Conforms(CASTELLS, Stabilized(result, prior)) {
      QuarantineKeepsContract(CASTELLS, result, prior);
    }
  }

  lemma OmissionIsDeclined(r: Reader, rules: Rules, found: Option<Finding>, result: ScanResult)
    ensures found.Some? && Reports(r, rules, found.value.records, result) ==> result.omission == Some(false)
  {
  }

  // ----- What an authoritative scan is worth

  lemma {:induction false} CollectedHolds(evidence: seq<Evidence>, conflicted: set<string>, i: nat)
    requires i < |evidence|
    ensures forall l :: l in evidence[i].scan.lots ==> l in Collected(evidence, conflicted).lots
    ensures exists disputed :: Disputing(evidence[i].scan.receipt, disputed) in Collected(evidence, conflicted).receipts
  {
    var front, last := evidence[..|evidence| - 1], evidence[|evidence| - 1].scan;
    if i < |front| {
      CollectedHolds(front, conflicted, i);
    } else {
      var collected := Collected(evidence, conflicted);
      assert collected.receipts[|collected.receipts| - 1]
        == Disputing(last.receipt, last.receipt.group in conflicted);
    }
  }

  /** What the evidence of one auction with an authoritative receipt shows, page by page. */
  lemma EvidenceIsWhole(
    site: Site, limits: Limits, world: World, log: seq<string>, r: Reader, raw: Record, e: Evidence, j: nat, x: Json)
    requires Evidenced(site, limits, world, log, r, raw, e) && e.scan.receipt.authoritative
    ensures var id, pages, kind := RawId(r, raw), e.pages, Kind(r, raw);
      && MakeGroup(r, id, raw).Some? && kind.Integer?
      && pages != [] && pages[0].url == site.lotsUrl(id, kind.n, "0")
      && !Truthy(pages[|pages| - 1].next) && |pages[|pages| - 1].rows| < limits.pageSize
    ensures j + 1 < |e.pages| ==>
      var p, url := e.pages[j], e.pages[j + 1].url;
      if Truthy(p.next) then site.join(p.url, p.next) == Follow(url)
      else |p.rows| >= limits.pageSize && p.rows != []
           && url == site.lotsUrl(RawId(r, raw), Kind(r, raw).n, LotCursor(site.text, p.rows[|p.rows| - 1]))
    ensures j < |e.pages| ==>
      var p := e.pages[j];
      && e.start + j < |log| && log[e.start + j] == p.url && world.reply(e.start + j, p.url).Answer?
      && var d := DecodePage(site.text, RawId(r, raw), world.reply(e.start + j, p.url).payload);
         d.Page? && d.rows == p.rows && d.next == p.next
    ensures j < |e.pages| && x in e.pages[j].rows ==>
      var group := MakeGroup(r, RawId(r, raw), raw).value;
      x.JObject? && ParseRow(r, group, x).lot.Some? && ParseRow(r, group, x).lot.value in e.scan.lots
  {
    hide Scanned, MakeGroup, ParseRow, AllRows, Finished, RawId, Walked, Truthy, LotCursor, DecodePage, ReadFrom,
      AccountsFor, Flawless, Kind;
    var group := MakeGroup(r, RawId(r, raw), raw).value;
    AuthorityIsEarned(r, group, raw, limits, e.fetch, e.pages, e.scan);
    WalkMeans(site, limits, RawId(r, raw), KindOr1(r, raw), e.pages, if j < |e.pages| then j else 0);
    if j < |e.pages| {
      PageMeans(site, world, RawId(r, raw), log, e.start, e.pages, j);
      AllRowsMeans(e.pages, x);
      if x in e.pages[j].rows {
        AuthoritativePublishesAll(r, group, raw, limits, e.fetch, e.pages, e.scan, x);
      }
    }
  }

  /**
   * If a scan claims authority, then every relevant auction has its pages, and these are the server's whole
   * list of it: the first at the list's own address, each where the one before leads, by its link or, when it
   * is full, by the cursor of its last lot, and the last short and without a link. Every entry of every page
   * is among the reported lots.
   */
  lemma AuthoritativeScanIsComplete(
    site: Site, limits: Limits, world: World, log: seq<string>, r: Reader, rules: Rules, f: Finding,
    evidence: seq<Evidence>, result: ScanResult, i: nat, j: nat, x: Json)
    requires Grounded(site, limits, world, log, r, rules, f, evidence, result)
    requires Reports(r, rules, f.records, result) && result.authoritative
    requires i < |f.Wanted(r, rules)|
    ensures i < |evidence|
    ensures var raw, pages := f.Wanted(r, rules)[i], evidence[i].pages;
      && MakeGroup(r, RawId(r, raw), raw).Some? && Kind(r, raw).Integer?
      && pages != [] && pages[0].url == site.lotsUrl(RawId(r, raw), Kind(r, raw).n, "0")
      && !Truthy(pages[|pages| - 1].next) && |pages[|pages| - 1].rows| < limits.pageSize
    ensures j + 1 < |evidence[i].pages| ==>
      var raw, p, url := f.Wanted(r, rules)[i], evidence[i].pages[j], evidence[i].pages[j + 1].url;
      if Truthy(p.next) then site.join(p.url, p.next) == Follow(url)
      else |p.rows| >= limits.pageSize && p.rows != []
           && url == site.lotsUrl(RawId(r, raw), Kind(r, raw).n, LotCursor(site.text, p.rows[|p.rows| - 1]))
    ensures j < |evidence[i].pages| ==>
      var raw, p, n := f.Wanted(r, rules)[i], evidence[i].pages[j], evidence[i].start + j;
      && n < |log| && log[n] == p.url && world.reply(n, p.url).Answer?
      && var d := DecodePage(site.text, RawId(r, raw), world.reply(n, p.url).payload);
         d.Page? && d.rows == p.rows && d.next == p.next
    ensures j < |evidence[i].pages| && x in evidence[i].pages[j].rows ==>
      var raw := f.Wanted(r, rules)[i];
      var group := MakeGroup(r, RawId(r, raw), raw).value;
      x.JObject? && ParseRow(r, group, x).lot.Some? && ParseRow(r, group, x).lot.value in result.lots
  {
    hide Evidenced, MakeGroup, ParseRow, RawId, Truthy, LotCursor, DecodePage, Kind, Grounded, Reports;
    EvidenceCounts(site, limits, world, log, r, rules, f, evidence, result, i);
    EvidenceIsWhole(site, limits, world, log, r, f.Wanted(r, rules)[i], evidence[i], j, x);
  }

  /** Each relevant auction has its evidence, and that of an authoritative scan is authoritative and reported. */
  lemma EvidenceCounts(
    site: Site, limits: Limits, world: World, log: seq<string>, r: Reader, rules: Rules, f: Finding,
    evidence: seq<Evidence>, result: ScanResult, i: nat)
    requires Grounded(site, limits, world, log, r, rules, f, evidence, result)
    requires Reports(r, rules, f.records, result) && result.authoritative
    requires i < |f.Wanted(r, rules)|
    ensures i < |evidence| && Evidenced(site, limits, world, log, r, f.Wanted(r, rules)[i], evidence[i])
    ensures evidence[i].scan.receipt.authoritative && forall l :: l in evidence[i].scan.lots ==> l in result.lots
  {
    hide Evidenced, Collected, Canonical, Named, Disputed, Nameless, Skippable, Summarize;
    CollectedHolds(evidence, f.conflicted, i);
    var disputed :| Disputing(evidence[i].scan.receipt, disputed) in Collected(evidence, f.conflicted).receipts;
  }
}
