/** A whole Castells scan: discovery, every relevant auction, and the result handed to the engine. */
module CastellsScan {
  import opened Wrappers
  import opened Sequences
  import opened Ordering
  import opened Domain
  import opened SourceContract
  import opened Normalization
  import opened CastellsDecoder
  import opened CastellsPaging
  import opened CastellsLots
  import opened CastellsGroups
  import opened CastellsDiscovery

  const ART_TITLE_MARKERS :=
    ["pinacoteca", "pintura", "pinturas", "arte", "obra de arte", "obras de arte", "escultura", "esculturas",
     "acuarela", "acuarelas", "grabado", "grabados", "dibujo", "dibujos", "litografia", "litografias"]
  const ART_TITLE_MIXED_MARKERS :=
    ["antiguedad", "antiguedades", "mueble", "muebles", "joya", "joyas", "reloj", "relojes", "juguete", "juguetes",
     "coleccionable", "coleccionables", "libro", "libros", "disco", "discos", "consola", "consolas", "videojuego",
     "videojuegos", "electronica", "vehiculo", "vehiculos", "maquinaria", "herramienta", "herramientas", "bazar",
     "hogar", "varios", "general"]

  /** Every category of issue, in reporting order. */
  const ISSUES :=
    [HttpError, Timeout, InvalidGxState, InvalidPriceCurrency, Pagination, InvalidLot, RequestBudget, HtmlResponse,
     Issue.ErrorPayload, AmbiguousEnvelope, UnverifiedEmpty, LotShapeDrift, StructureDrift]

  datatype Summary = OfGroups(category: Issue, count: nat) | OfRecords(category: Issue, count: nat)

  /** What the scan knows beyond the field readers. */
  datatype Rules = Rules(
    normalizer: Normalizer,
    ignored: seq<string>,                               // titles the user asked to skip
    records: string -> Option<seq<Record>>,             // the records in the page's GXState, if any
    summary: Summary -> string,
    discoveryError: Issue -> string)

  predicate ContainsAny(n: Normalizer, title: string, terms: seq<string>) {
    title != "" && exists term :: term in terms && ContainsTerm(n, title, term)
  }

  predicate IrrelevantArt(n: Normalizer, title: string) {
    ContainsAny(n, title, ART_TITLE_MARKERS) && !ContainsAny(n, title, ART_TITLE_MIXED_MARKERS)
  }

  /** A disputed auction is never dismissed as art, only for a title the user asked to ignore. */
  predicate Skippable(r: Reader, rules: Rules, conflicted: set<string>, raw: Record) {
    || ContainsAny(rules.normalizer, Title(r, raw), rules.ignored)
    || (RawId(r, raw) !in conflicted && IrrelevantArt(rules.normalizer, Title(r, raw)))
  }

  /** A title is dismissed when it names something the user ignores, or, unless the auction is disputed, when it
      names art and nothing else that is sold there. */
  lemma SkippableMeans(r: Reader, rules: Rules, conflicted: set<string>, raw: Record)
    ensures var n, title := rules.normalizer, CleanText(r.text, Field(raw, "RemateNombre"));
      Skippable(r, rules, conflicted, raw) <==>
        && title != ""
        && ((exists term :: term in rules.ignored && ContainsTerm(n, title, term))
            || (RawId(r, raw) !in conflicted
                && (exists term :: term in ART_TITLE_MARKERS && ContainsTerm(n, title, term))
                && forall term :: term in ART_TITLE_MIXED_MARKERS ==> !ContainsTerm(n, title, term)))
  {
    hide ContainsTerm, CleanText;
  }

  // ----- Collecting the scanned auctions

  datatype Inventory = Inventory(
    groups: seq<Group>, lots: seq<Lot>, receipts: seq<Receipt>, diagnostics: seq<Diagnostic>,
    issues: map<Issue, set<string>>, warned: set<string>)

  /** A disputed auction never keeps its authority. */
  function Disputing(receipt: Receipt, disputed: bool): Receipt {
    if disputed
    then receipt.(status := if receipt.status == Failed then Failed else Partial, authoritative := false,
                  errorCount := receipt.errorCount + 1)
    else receipt
  }

  function Noting(issues: map<Issue, set<string>>, found: seq<Issue>, id: string): map<Issue, set<string>> {
    map c | c in issues :: if c in found then issues[c] + {id} else issues[c]
  }

  function Added(v: Inventory, s: GroupScan, disputed: bool): Inventory {
    Inventory(v.groups + [s.group], v.lots + s.lots, v.receipts + [Disputing(s.receipt, disputed)],
              v.diagnostics + s.diagnostics,
              Noting(v.issues, s.issues + (if disputed then [StructureDrift] else []), s.group.id),
              if s.warnings > 0 then v.warned + {s.group.id} else v.warned)
  }

  predicate Quiet(issues: map<Issue, set<string>>) { forall c :: c in issues ==> issues[c] == {} }

  lemma EveryIssueListed(c: Issue)
    ensures c in ISSUES
  {
    match c {
      case HttpError => assert ISSUES[0] == c;
      case Timeout => assert ISSUES[1] == c;
      case InvalidGxState => assert ISSUES[2] == c;
      case InvalidPriceCurrency => assert ISSUES[3] == c;
      case Pagination => assert ISSUES[4] == c;
      case InvalidLot => assert ISSUES[5] == c;
      case RequestBudget => assert ISSUES[6] == c;
      case HtmlResponse => assert ISSUES[7] == c;
      case ErrorPayload => assert ISSUES[8] == c;
      case AmbiguousEnvelope => assert ISSUES[9] == c;
      case UnverifiedEmpty => assert ISSUES[10] == c;
      case LotShapeDrift => assert ISSUES[11] == c;
      case StructureDrift => assert ISSUES[12] == c;
    }
  }

  lemma NotingKeepsQuiet(issues: map<Issue, set<string>>, found: seq<Issue>, id: string)
    requires issues.Keys == SetOf(ISSUES)
    ensures Noting(issues, found, id).Keys == SetOf(ISSUES)
    ensures Quiet(Noting(issues, found, id)) <==> Quiet(issues) && found == []
  {
    if found != [] {
      EveryIssueListed(found[0]);
      assert id in Noting(issues, found, id)[found[0]];
    }
    if Quiet(Noting(issues, found, id)) {
      forall c | c in issues ensures issues[c] == {} { assert issues[c] <= Noting(issues, found, id)[c]; }
    }
  }

  /** What the engine needs of one scanned auction. */
  ghost predicate Sound(id: string, s: GroupScan) {
    && s.group.source == CASTELLS && s.group.id == id && s.receipt.group == id
    && (s.receipt.status != Failed ==> s.receipt.lotCount == |s.lots|)
    && (s.receipt.status == Failed ==> s.lots == [])
    && (s.receipt.authoritative <==> s.receipt.status == Complete) && (s.issues == [] <==> s.receipt.authoritative)
    && (forall l :: l in s.lots ==> l.key.source == CASTELLS && l.key.auction == id)
    && NoDuplicates(LotKeys(s.lots)) && AboutGroup(s.diagnostics, id)
  }

  /** The inventory of the auctions scanned so far. */
  ghost predicate Assembled(ids: seq<string>, v: Inventory) {
    && Map((g: Group) => g.id, v.groups) == ids && Map((x: Receipt) => x.group, v.receipts) == ids
    && (forall g :: g in v.groups ==> g.source == CASTELLS)
    && (forall l :: l in v.lots ==> l.key.source == CASTELLS && l.key.auction in ids)
    && NoDuplicates(LotKeys(v.lots))
    && (forall x :: x in v.receipts && x.status != Failed ==> x.lotCount == |LotsIn(v.lots, x.group)|)
    && (forall x :: x in v.receipts && x.authoritative ==> x.status == Complete)
    && (Quiet(v.issues) <==> forall x :: x in v.receipts ==> x.authoritative)
    && (forall d :: d in v.diagnostics ==> d.group in ids)
    && v.issues.Keys == SetOf(ISSUES)
  }

  lemma {:induction false} LotsInBoth(a: seq<Lot>, b: seq<Lot>, group: string)
    ensures LotsIn(a + b, group) == LotsIn(a, group) + LotsIn(b, group)
  {
    if b == [] {
      assert a + b == a;
    } else {
      assert (a + b)[..|a + b| - 1] == a + b[..|b| - 1];
      LotsInBoth(a, b[..|b| - 1], group);
    }
  }

  lemma {:induction false} LotsOfOthers(lots: seq<Lot>, group: string)
    requires forall l :: l in lots ==> l.key.auction != group
    ensures LotsIn(lots, group) == []
  {
    if lots != [] { LotsOfOthers(lots[..|lots| - 1], group); }
  }

  lemma {:induction false} LotsOfOne(lots: seq<Lot>, group: string)
    requires forall l :: l in lots ==> l.key.auction == group
    ensures LotsIn(lots, group) == lots
  {
    if lots != [] { LotsOfOne(lots[..|lots| - 1], group); }
  }

  lemma KeysStayDistinct(a: seq<Lot>, b: seq<Lot>)
    requires NoDuplicates(LotKeys(a)) && NoDuplicates(LotKeys(b))
    requires forall x, y :: x in a && y in b ==> x.key != y.key
    ensures NoDuplicates(LotKeys(a + b))
  {
    forall i, j | 0 <= i < j < |a + b| ensures LotKeys(a + b)[i] != LotKeys(a + b)[j] {
      if j < |a| {
        assert LotKeys(a)[i] != LotKeys(a)[j];
      } else if i >= |a| {
        assert LotKeys(b)[i - |a|] != LotKeys(b)[j - |a|];
      } else {
        assert (a + b)[i] in a && (a + b)[j] in b;
      }
    }
  }

  lemma CountsStay(v: Inventory, ids: seq<string>, s: GroupScan, id: string, x: Receipt)
    requires Assembled(ids, v) && Sound(id, s) && id !in ids && x.status != Failed
    requires x in v.receipts || (x.group == id && x.lotCount == |s.lots|)
    ensures x.lotCount == |LotsIn(v.lots + s.lots, x.group)|
  {
    hide LotsIn, LotKeys, NoDuplicates;
    LotsInBoth(v.lots, s.lots, x.group);
    if x in v.receipts {
      var i :| 0 <= i < |v.receipts| && v.receipts[i] == x;
      assert Map((y: Receipt) => y.group, v.receipts)[i] == x.group;
      assert x.group in ids;
      LotsOfOthers(s.lots, x.group);
    } else {
      LotsOfOthers(v.lots, id);
      LotsOfOne(s.lots, id);
    }
  }

  lemma AddedIsAssembled(ids: seq<string>, v: Inventory, id: string, s: GroupScan, disputed: bool)
    requires Assembled(ids, v) && Sound(id, s) && id !in ids
    ensures Assembled(ids + [id], Added(v, s, disputed))
  {
    hide LotsIn, LotKeys, NoDuplicates;
    var after, receipt := Added(v, s, disputed), Disputing(s.receipt, disputed);
    assert forall x :: x in after.receipts <==> x in v.receipts || x == receipt;
    forall x | x in after.receipts && x.status != Failed ensures x.lotCount == |LotsIn(after.lots, x.group)| {
      CountsStay(v, ids, s, id, x);
    }
    KeysStayDistinct(v.lots, s.lots);
    NotingKeepsQuiet(v.issues, s.issues + (if disputed then [StructureDrift] else []), s.group.id);
    assert receipt in after.receipts;
    assert Quiet(after.issues) <==> Quiet(v.issues) && receipt.authoritative;
  }

  // ----- A scanned auction is sound

  lemma LotsAreOwn(
    r: Reader, group: Group, fetch: Fetch, kept: map<string, Lot>, conflicted: set<string>, lots: seq<Lot>)
    requires fetch.Fetched? && forall x :: x in fetch.rows ==> x.JObject?
    requires Deduplicated(Rows(r, group, fetch.rows), kept, conflicted) && Listed(kept, lots)
    ensures forall l :: l in lots ==> l.key.source == CASTELLS && l.key.auction == group.id
    ensures NoDuplicates(LotKeys(lots))
  {
    hide ParseRow, Deduplicated;
    var rows := Rows(r, group, fetch.rows);
    forall id | id in kept
      ensures kept[id].key == LotKey(CASTELLS, group.id, id)
    {
      KeptMeans(rows, kept, conflicted, id);
      var row :| row in rows && row.lot == Some(kept[id]);
      var i :| 0 <= i < |rows| && rows[i] == row;
      assert row == ParseRow(r, group, fetch.rows[i]);
    }
    var keys :| Ascending(keys) && SetOf(keys) == kept.Keys && Lists(kept, keys, lots);
    forall l | l in lots ensures l.key.source == CASTELLS && l.key.auction == group.id {
      var i :| 0 <= i < |lots| && lots[i] == l;
      assert keys[i] in kept;
    }
  }

  lemma SettledIsSound(r: Reader, group: Group, kindOk: bool, fetch: Fetch, s: GroupScan)
    requires group.source == CASTELLS && AboutGroup(fetch.diagnostics, group.id)
    requires fetch.Fetched? && forall x :: x in fetch.rows ==> x.JObject?
    requires Settled(r, group, kindOk, fetch, s)
    ensures Sound(group.id, s)
  {
    hide Deduplicated, Listed, Rows, GroupIssues, LotKeys, NoDuplicates, AboutGroup;
    var rows := Rows(r, group, fetch.rows);
    var kept, conflicted :| Deduplicated(rows, kept, conflicted) && Listed(kept, s.lots)
      && s.issues == GroupIssues(kindOk, fetch, Unparsed(rows) + |conflicted|);
    LotsAreOwn(r, group, fetch, kept, conflicted, s.lots);
  }

  lemma ScannedIsSound(r: Reader, group: Group, raw: Record, fetch: Fetch, s: GroupScan)
    requires group.source == CASTELLS && Scanned(r, group, raw, fetch, s) && AboutGroup(fetch.diagnostics, group.id)
    ensures Sound(group.id, s)
  {
    if fetch.Fetched? && forall x :: x in fetch.rows ==> !RowRaises(r, x, group) {
      hide Settled, Sound;
      SettledIsSound(r, group, Kind(r, raw).Integer?, fetch, s);
    }
  }

  /** The record raises where it should become a group: its link is no URL, its closing time overflows,
      or its title, address or category cannot be encoded. */
  predicate Ungroupable(r: Reader, raw: Record) { MakeGroup(r, RawId(r, raw), raw).None? }

  /** How one auction was scanned: what was fetched for it, and which pages that came from. */
  datatype Evidence = Evidence(raw: Record, scan: GroupScan, fetch: Fetch, pages: seq<PageRead>, start: nat)

  ghost predicate Evidenced(
    site: Site, limits: Limits, world: World, log: seq<string>, r: Reader, raw: Record, e: Evidence)
  {
    var id := RawId(r, raw);
    && e.raw == raw && MakeGroup(r, id, raw).Some?
    && Scanned(r, MakeGroup(r, id, raw).value, raw, e.fetch, e.scan)
    && Walked(site, limits, id, KindOr1(r, raw), e.pages)
    && ReadFrom(site, world, id, log, e.start, e.pages) && AccountsFor(e.fetch, e.pages)
    && (e.fetch.Fetched? && e.fetch.issue.None? <==> Finished(limits, e.pages))
  }

  /** The inventory the scans add up to. */
  ghost function Collected(evidence: seq<Evidence>, conflicted: set<string>): Inventory {
    if evidence == [] then Inventory([], [], [], [], map c | c in ISSUES :: {}, {})
    else
      var last := evidence[|evidence| - 1].scan;
      Added(Collected(evidence[..|evidence| - 1], conflicted), last, last.receipt.group in conflicted)
  }

  ghost predicate AllEvidenced(
    site: Site, limits: Limits, world: World, log: seq<string>, r: Reader, relevant: seq<Record>, all: seq<Evidence>)
  {
    |all| <= |relevant| && forall i :: 0 <= i < |all| ==> Evidenced(site, limits, world, log, r, relevant[i], all[i])
  }

  ghost predicate DisputesHonoured(v: Inventory, conflicted: set<string>) {
    forall x :: x in v.receipts && x.group in conflicted ==> !x.authoritative
  }

  /** Scan the relevant auctions in order; a record that cannot be made a group raises and ends the scan. */
  method ScanAuctions(source: CastellsSource, r: Reader, relevant: seq<Record>, conflicted: set<string>)
    returns (v: Option<Inventory>, ghost evidence: seq<Evidence>)
    requires source.Valid() && NoDuplicates(AuctionIds(r, relevant))
    modifies source
    ensures source.Valid() && old(source.log) <= source.log
    ensures source.requestCount - old(source.requestCount) == |source.log| - |old(source.log)|
    ensures v.Some? ==> v.value == Collected(evidence, conflicted) && Assembled(AuctionIds(r, relevant), v.value)
    ensures v.Some? ==> |evidence| == |relevant| && DisputesHonoured(v.value, conflicted)
    ensures AllEvidenced(source.site, source.limits, source.world, source.log, r, relevant, evidence)
    ensures v.None? <==> exists raw :: raw in relevant && Ungroupable(r, raw)
  {
    hide Assembled, Scanned, MakeGroup, RawId, ReadFrom, Walked, AccountsFor, Finished, Evidenced, AllEvidenced,
      Collected, Added, DisputesHonoured;
    var found := Inventory([], [], [], [], map c | c in ISSUES :: {}, {});
    var ids := AuctionIds(r, relevant);
    evidence := [];
    NothingAssembled(found, conflicted);
    NothingEvidenced(source.site, source.limits, source.world, source.log, r, relevant);
    for i := 0 to |relevant|
      invariant source.Valid() && old(source.log) <= source.log
      invariant source.requestCount - old(source.requestCount) == |source.log| - |old(source.log)|
      invariant Assembled(ids[..i], found) && found == Collected(evidence, conflicted)
      invariant |evidence| == i && DisputesHonoured(found, conflicted)
      invariant AllEvidenced(source.site, source.limits, source.world, source.log, r, relevant, evidence)
    {
      var id := RawId(r, relevant[i]);
      ghost var before := source.log;
      var s, fetch, pages, why := ScanGroup(source, r, id, relevant[i]);
      EvidenceLasts(source.site, source.limits, source.world, before, source.log, r, relevant, evidence);
      if s.None? { assert relevant[i] in relevant && Ungroupable(r, relevant[i]); return None, evidence; }
      ghost var e := Evidence(relevant[i], s.value, fetch, pages, |before|);
      MakeEvidence(source.site, source.limits, source.world, source.log, r, relevant, evidence, e);
      GroupIsOwn(r, id, relevant[i]);
      ScannedIsSound(r, MakeGroup(r, id, relevant[i]).value, relevant[i], fetch, s.value);
      assert id !in ids[..i] && ids[..i + 1] == ids[..i] + [id];
      var disputed := s.value.receipt.group in conflicted;
      AddedIsAssembled(ids[..i], found, id, s.value, disputed);
      CollectedMore(evidence, e, conflicted);
      evidence, found := evidence + [e], Added(found, s.value, disputed);
    }
    assert ids[..|relevant|] == ids;
    EvidencedAreGroups(source.site, source.limits, source.world, source.log, r, relevant, evidence);
    v := Some(found);
  }

  lemma EvidencedAreGroups(
    site: Site, limits: Limits, world: World, log: seq<string>, r: Reader, relevant: seq<Record>,
    evidence: seq<Evidence>)
    requires AllEvidenced(site, limits, world, log, r, relevant, evidence) && |evidence| == |relevant|
    ensures forall raw :: raw in relevant ==> !Ungroupable(r, raw)
  {
    hide Scanned, MakeGroup, ReadFrom, Walked, Finished, AccountsFor, RawId;
    forall raw | raw in relevant ensures !Ungroupable(r, raw) {
      var i :| 0 <= i < |relevant| && relevant[i] == raw;
      assert Evidenced(site, limits, world, log, r, relevant[i], evidence[i]);
    }
  }

  /** The scan of this auction had the issue, or the auction was disputed. */
  predicate HasIssue(e: Evidence, conflicted: set<string>, c: Issue, id: string) {
    e.scan.group.id == id && (c in e.scan.issues || (c == StructureDrift && e.scan.receipt.group in conflicted))
  }

  predicate HasWarning(e: Evidence, id: string) { e.scan.group.id == id && e.scan.warnings > 0 }

  lemma AddedTells(v: Inventory, e: Evidence, conflicted: set<string>, c: Issue, id: string)
    requires c in v.issues
    ensures var after := Added(v, e.scan, e.scan.receipt.group in conflicted);
      && c in after.issues
      && (id in after.issues[c] <==> id in v.issues[c] || HasIssue(e, conflicted, c, id))
      && (id in after.warned <==> id in v.warned || HasWarning(e, id))
  {
  }

  /** The inventory's issues and warnings are just those of its auctions. */
  lemma {:induction false} CollectedTells(evidence: seq<Evidence>, conflicted: set<string>, c: Issue, id: string)
    ensures var v := Collected(evidence, conflicted);
      && c in v.issues
      && (id in v.issues[c] <==> exists i :: 0 <= i < |evidence| && HasIssue(evidence[i], conflicted, c, id))
      && (id in v.warned <==> exists i :: 0 <= i < |evidence| && HasWarning(evidence[i], id))
  {
    hide Added, HasIssue, HasWarning;
    EveryIssueListed(c);
    if evidence != [] {
      var front, last := evidence[..|evidence| - 1], evidence[|evidence| - 1];
      CollectedTells(front, conflicted, c, id);
      AddedTells(Collected(front, conflicted), last, conflicted, c, id);
      assert forall i :: 0 <= i < |front| ==> front[i] == evidence[i];
      assert evidence[|front|] == last;
    }
  }

  /** Each auction's receipt is kept as it is, or, for a disputed auction, without authority and with one error more. */
  lemma {:induction false} CollectedReceipts(evidence: seq<Evidence>, conflicted: set<string>, i: nat)
    requires i < |evidence|
    ensures |Collected(evidence, conflicted).receipts| == |evidence|
    ensures var before, after := evidence[i].scan.receipt, Collected(evidence, conflicted).receipts[i];
      && after.group == before.group && after.lotCount == before.lotCount
      && (before.group !in conflicted ==> after == before)
      && (before.group in conflicted ==>
            && !after.authoritative && after.errorCount == before.errorCount + 1
            && after.status == if before.status == Failed then Failed else Partial)
  {
    var front := evidence[..|evidence| - 1];
    if i < |front| {
      CollectedReceipts(front, conflicted, i);
    } else if front != [] {
      CollectedReceipts(front, conflicted, 0);
    }
  }

  lemma CollectedMore(evidence: seq<Evidence>, e: Evidence, conflicted: set<string>)
    ensures Collected(evidence + [e], conflicted)
         == Added(Collected(evidence, conflicted), e.scan, e.scan.receipt.group in conflicted)
    ensures DisputesHonoured(Collected(evidence, conflicted), conflicted) ==>
            DisputesHonoured(Collected(evidence + [e], conflicted), conflicted)
  {
    assert (evidence + [e])[..|evidence|] == evidence;
  }

  lemma NothingEvidenced(site: Site, limits: Limits, world: World, log: seq<string>, r: Reader, relevant: seq<Record>)
    ensures AllEvidenced(site, limits, world, log, r, relevant, [])
  {
  }

  lemma MakeEvidence(
    site: Site, limits: Limits, world: World, log: seq<string>, r: Reader, relevant: seq<Record>,
    evidence: seq<Evidence>, e: Evidence)
    requires |evidence| < |relevant| && AllEvidenced(site, limits, world, log, r, relevant, evidence)
    requires e.raw == relevant[|evidence|] && MakeGroup(r, RawId(r, e.raw), e.raw).Some?
    requires Scanned(r, MakeGroup(r, RawId(r, e.raw), e.raw).value, e.raw, e.fetch, e.scan)
    requires Walked(site, limits, RawId(r, e.raw), KindOr1(r, e.raw), e.pages)
    requires ReadFrom(site, world, RawId(r, e.raw), log, e.start, e.pages) && AccountsFor(e.fetch, e.pages)
    requires e.fetch.Fetched? && e.fetch.issue.None? <==> Finished(limits, e.pages)
    ensures AllEvidenced(site, limits, world, log, r, relevant, evidence + [e])
  {
    hide Scanned, MakeGroup, ReadFrom, Walked, Finished, AccountsFor, RawId;
  }

  /** Later requests do not change what earlier ones showed. */
  lemma EvidenceLasts(
    site: Site, limits: Limits, world: World, before: seq<string>, log: seq<string>, r: Reader,
    relevant: seq<Record>, evidence: seq<Evidence>)
    requires AllEvidenced(site, limits, world, before, r, relevant, evidence) && before <= log
    ensures AllEvidenced(site, limits, world, log, r, relevant, evidence)
  {
    hide Scanned, MakeGroup, ReadAt, Walked, Finished, AccountsFor, RawId;
  }

  lemma NothingAssembled(v: Inventory, conflicted: set<string>)
    requires v == Inventory([], [], [], [], map c | c in ISSUES :: {}, {})
    ensures Assembled([], v) && v == Collected([], conflicted) && DisputesHonoured(v, conflicted)
  {
  }

  lemma GroupIsOwn(r: Reader, id: string, raw: Record)
    requires MakeGroup(r, id, raw).Some?
    ensures MakeGroup(r, id, raw).value.source == CASTELLS && MakeGroup(r, id, raw).value.id == id
  {
  }

  // ----- The result

  function Summarize(categories: seq<Issue>, issues: map<Issue, set<string>>, drift: nat): seq<Summary> {
    if categories == [] then []
    else
      var c, front := categories[|categories| - 1], categories[..|categories| - 1];
      Summarize(front, issues, drift)
        + (if c in issues && issues[c] != {} then [OfGroups(c, |issues[c]|)] else [])
        + (if c == StructureDrift && drift > 0 then [OfRecords(c, drift)] else [])
  }

  lemma {:induction false} NothingToSummarize(categories: seq<Issue>, issues: map<Issue, set<string>>, drift: nat)
    ensures Summarize(categories, issues, drift) == [] <==>
      (forall c :: c in categories && c in issues ==> issues[c] == {}) && (StructureDrift in categories ==> drift == 0)
  {
    if categories != [] {
      NothingToSummarize(categories[..|categories| - 1], issues, drift);
      assert forall c :: c in categories <==> c in categories[..|categories| - 1] || c == categories[|categories| - 1];
    }
  }

  /** The summaries count, for each category, the auctions it concerns, and for drift also the nameless records. */
  lemma {:induction false} SummaryMeans(categories: seq<Issue>, issues: map<Issue, set<string>>, drift: nat, s: Summary)
    ensures s in Summarize(categories, issues, drift) <==>
      match s
      case OfGroups(c, count) => c in categories && c in issues && issues[c] != {} && count == |issues[c]|
      case OfRecords(c, count) => c in categories && c == StructureDrift && drift > 0 && count == drift
  {
    if categories != [] {
      SummaryMeans(categories[..|categories| - 1], issues, drift, s);
      assert forall c :: c in categories <==> c in categories[..|categories| - 1] || c == categories[|categories| - 1];
    }
  }

  /** The last diagnostic of each kind, kinds in order of first appearance. */
  method UniqueDiagnostics(diagnostics: seq<Diagnostic>) returns (unique: seq<Diagnostic>)
    ensures NoDuplicates(Map((d: Diagnostic) => KeyOf(d), unique))
    ensures forall d :: d in unique ==> d in diagnostics
    ensures forall d :: d in diagnostics ==> KeyOf(d) in Map((d: Diagnostic) => KeyOf(d), unique)
  {
    var keys: seq<DiagnosticKey>, last: map<DiagnosticKey, Diagnostic> := [], map[];
    for i := 0 to |diagnostics|
      invariant NoDuplicates(keys) && forall k :: k in keys <==> k in last
      invariant forall k :: k in last ==> KeyOf(last[k]) == k && last[k] in diagnostics
      invariant forall d :: d in diagnostics[..i] ==> KeyOf(d) in keys
    {
      var d := diagnostics[i];
      assert d in diagnostics && diagnostics[..i + 1] == diagnostics[..i] + [d];
      if KeyOf(d) !in last { keys := keys + [KeyOf(d)]; }
      last := last[KeyOf(d) := d];
    }
    assert diagnostics[..|diagnostics|] == diagnostics;
    unique := seq(|keys|, i requires 0 <= i < |keys| => assert keys[i] in keys; last[keys[i]]);
    assert forall i :: 0 <= i < |keys| ==> keys[i] in keys && KeyOf(unique[i]) == keys[i];
    assert Map((d: Diagnostic) => KeyOf(d), unique) == keys;
    forall d | d in unique ensures d in diagnostics {
      var i :| 0 <= i < |unique| && unique[i] == d;
      assert keys[i] in last;
    }
  }
}
