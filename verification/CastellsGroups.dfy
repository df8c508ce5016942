/** Scanning one Castells auction, and what its receipt is worth. */
module CastellsGroups {
  import opened Wrappers
  import opened Sequences
  import opened Ordering
  import opened Domain
  import opened CastellsDecoder
  import opened CastellsPages
  import opened CastellsPaging
  import opened CastellsLots

  /** The auction's kind, read leniently; a bad one is replaced by 1. */
  function Kind(r: Reader, raw: Record): Number {
    var field := Field(raw, "RemateTipo");
    var kind := if Truthy(field) then r.integer(field) else Integer(1);
    if kind.Integer? && kind.n < 1 then NotANumber else kind
  }

  /** The kind asked for: 1 stands in for a bad one. */
  function KindOr1(r: Reader, raw: Record): int { if Kind(r, raw).Integer? then Kind(r, raw).n else 1 }

  /** A missing or false kind counts as 1; one that is no number, or below 1, is bad. */
  lemma KindMeans(r: Reader, raw: Record)
    ensures var given := "RemateTipo" in raw && Truthy(raw["RemateTipo"]);
      && (!given ==> Kind(r, raw) == Integer(1))
      && (given && r.integer(raw["RemateTipo"]).Integer? && r.integer(raw["RemateTipo"]).n >= 1 ==>
            Kind(r, raw) == r.integer(raw["RemateTipo"]))
      && (given && r.integer(raw["RemateTipo"]).Integer? && r.integer(raw["RemateTipo"]).n < 1 ==>
            Kind(r, raw) == NotANumber)
      && (given && !r.integer(raw["RemateTipo"]).Integer? ==> Kind(r, raw) == r.integer(raw["RemateTipo"]))
  {
  }

  ghost predicate Scanned(r: Reader, group: Group, raw: Record, fetch: Fetch, s: GroupScan) {
    match fetch
    case Aborted(cause, diagnostics) => s == FailedScan(group, cause, diagnostics)
    case Fetched(rows, _, _, _) =>
      && (forall x :: x in rows ==> x.JObject?)
      && if exists x :: x in rows && RowRaises(r, x, group) then s == FailedScan(group, StructureDrift, [])
         else Settled(r, group, Kind(r, raw).Integer?, fetch, s)
  }

  /** The scan of one discovered auction; `None` is the error of a record whose own link or closing time raises. */
  method ScanGroup(source: CastellsSource, r: Reader, id: string, raw: Record)
    returns (s: Option<GroupScan>, ghost fetch: Fetch, ghost pages: seq<PageRead>, ghost why: Ending)
    requires source.Valid()
    modifies source
    ensures source.Valid() && source.deadline == old(source.deadline)
    ensures source.requestCount - old(source.requestCount) == |source.log| - |old(source.log)|
    ensures old(source.log) <= source.log
    ensures s.None? <==> MakeGroup(r, id, raw).None?
    ensures s.Some? ==> Scanned(r, MakeGroup(r, id, raw).value, raw, fetch, s.value)
    ensures Walked(source.site, source.limits, id, KindOr1(r, raw), pages)
    ensures ReadFrom(source.site, source.world, id, source.log, |old(source.log)|, pages)
    ensures AccountsFor(fetch, pages) && AboutGroup(fetch.diagnostics, id)
    ensures fetch.Fetched? && fetch.issue.None? <==> Finished(source.limits, pages)
    ensures s.Some? && Kind(r, raw).OutOfRange? ==>
      fetch == Aborted(StructureDrift, []) && source.log == old(source.log)
    ensures s.Some? && !Kind(r, raw).OutOfRange? ==>
      Ended(why, source.site, source.limits, source.world, id, KindOr1(r, raw), source.log, |old(source.log)|,
            pages, fetch)
    ensures s.Some? && !Kind(r, raw).OutOfRange? && why.Refused? && source.deadline.Some? ==>
      exists n :: old(source.readings) <= n < source.readings && source.Spent(n)
  {
    hide ReadAt, Settled, RowRaises, FailedScan, Final, Successor, Ended;
    var group := MakeGroup(r, id, raw);
    fetch, pages, why := Aborted(StructureDrift, []), [], Refused;
    if group.None? { return None, fetch, pages, why; }
    var kind := Kind(r, raw);
    if kind.OutOfRange? { return Some(FailedScan(group.value, StructureDrift, [])), fetch, pages, why; }
    var n := if kind.Integer? then kind.n else 1;
    var fetched, read, ending := source.FetchLots(id, n);
    label fetched:
    fetch, pages, why := fetched, read, ending;
    match fetched
    case Aborted(cause, diagnostics) =>
      s := Some(FailedScan(group.value, cause, diagnostics));
    case Fetched(_, _, _, _) =>
      var settled := Settle(r, group.value, kind.Integer?, fetched);
      assert forall k :: source.Spent(k) == old@fetched(source.Spent(k));
      s := Some(settled);
  }

  // ----- The order of the rows does not matter

  lemma FateOfPermutation(a: seq<Row>, b: seq<Row>, id: string)
    requires forall row :: row in a <==> row in b
    ensures Fate(a, id) == Fate(b, id)
  {
    FateMeaning(a, id);
    FateMeaning(b, id);
    assert Occurs(a, id) <==> Occurs(b, id);
    if Occurs(a, id) { var row :| row in a && Yields(row, id); }
  }

  lemma SameTables(
    a: seq<Row>, keptA: map<string, Lot>, conflictedA: set<string>,
    b: seq<Row>, keptB: map<string, Lot>, conflictedB: set<string>)
    requires Deduplicated(a, keptA, conflictedA) && Deduplicated(b, keptB, conflictedB)
    requires forall row :: row in a <==> row in b
    ensures keptA == keptB && conflictedA == conflictedB
  {
    hide Fate;
    forall id ensures VerdictOf(keptA, conflictedA, id) == VerdictOf(keptB, conflictedB, id) {
      FateOfPermutation(a, b, id);
    }
    assert forall id :: VerdictOf(keptA, conflictedA, id) == VerdictOf(keptB, conflictedB, id);
    assert forall id :: id in conflictedA <==> VerdictOf(keptA, conflictedA, id).Conflicting?;
    assert forall id :: id in keptA <==> VerdictOf(keptA, conflictedA, id).Kept?;
    assert forall id :: id in keptB <==> VerdictOf(keptB, conflictedB, id).Kept?;
  }

  lemma ListedOnce(kept: map<string, Lot>, a: seq<Lot>, b: seq<Lot>)
    requires Listed(kept, a) && Listed(kept, b)
    ensures a == b
  {
    var keysA :| Ascending(keysA) && SetOf(keysA) == kept.Keys && Lists(kept, keysA, a);
    var keysB :| Ascending(keysB) && SetOf(keysB) == kept.Keys && Lists(kept, keysB, b);
    AscendingIsUnique(keysA, keysB);
    hide Ascending, SetOf;
    forall i | 0 <= i < |a| ensures a[i] == b[i] {
      assert a[i] == kept[keysA[i]];
    }
  }

  /** Whatever order the rows come in, the published lots, the issues and the receipt are the same. */
  lemma RowOrderIsIrrelevant(
    r: Reader, group: Group, raw: Record, fetchA: Fetch, fetchB: Fetch, a: GroupScan, b: GroupScan)
    requires fetchA.Fetched? && fetchB.Fetched? && multiset(fetchA.rows) == multiset(fetchB.rows)
    requires fetchA.invalid == fetchB.invalid && fetchA.issue == fetchB.issue
    requires Scanned(r, group, raw, fetchA, a) && Scanned(r, group, raw, fetchB, b)
    ensures a.lots == b.lots && a.issues == b.issues && a.receipt == b.receipt
  {
    hide Settled, RowRaises;
    assert forall x :: x in fetchA.rows <==> x in multiset(fetchA.rows);
    assert forall x :: x in fetchB.rows <==> x in multiset(fetchB.rows);
    if forall x :: x in fetchA.rows ==> !RowRaises(r, x, group) {
      SettledOrderIsIrrelevant(r, group, Kind(r, raw).Integer?, fetchA, fetchB, a, b);
    }
  }

  lemma SettledOrderIsIrrelevant(
    r: Reader, group: Group, kindOk: bool, fetchA: Fetch, fetchB: Fetch, a: GroupScan, b: GroupScan)
    requires fetchA.Fetched? && forall x :: x in fetchA.rows ==> x.JObject?
    requires fetchB.Fetched? && forall x :: x in fetchB.rows ==> x.JObject?
    requires multiset(fetchA.rows) == multiset(fetchB.rows)
    requires fetchA.invalid == fetchB.invalid && fetchA.issue == fetchB.issue
    requires Settled(r, group, kindOk, fetchA, a) && Settled(r, group, kindOk, fetchB, b)
    ensures a.lots == b.lots && a.issues == b.issues && a.receipt == b.receipt
  {
    hide Deduplicated, Listed, Rows, Unparsed, GroupIssues, Warned;
    var rowsA, rowsB := Rows(r, group, fetchA.rows), Rows(r, group, fetchB.rows);
    SameRows(r, group, fetchA.rows, fetchB.rows);
    var keptA, conflictedA :| Deduplicated(rowsA, keptA, conflictedA) && Listed(keptA, a.lots)
      && a.issues == GroupIssues(kindOk, fetchA, Unparsed(rowsA) + |conflictedA|);
    var keptB, conflictedB :| Deduplicated(rowsB, keptB, conflictedB) && Listed(keptB, b.lots)
      && b.issues == GroupIssues(kindOk, fetchB, Unparsed(rowsB) + |conflictedB|);
    SameTables(rowsA, keptA, conflictedA, rowsB, keptB, conflictedB);
    ListedOnce(keptA, a.lots, b.lots);
    SameIssues(kindOk, fetchA, fetchB, Unparsed(rowsA) + |conflictedA|);
  }

  lemma SameIssues(kindOk: bool, fetchA: Fetch, fetchB: Fetch, invalid: nat)
    requires fetchA.Fetched? && fetchB.Fetched? && fetchA.invalid == fetchB.invalid && fetchA.issue == fetchB.issue
    ensures GroupIssues(kindOk, fetchA, invalid) == GroupIssues(kindOk, fetchB, invalid)
  {
  }

  lemma SameRows(r: Reader, group: Group, a: seq<Json>, b: seq<Json>)
    requires forall x :: x in a ==> x.JObject?
    requires forall x :: x in b ==> x.JObject?
    requires multiset(a) == multiset(b)
    ensures forall row :: row in Rows(r, group, a) <==> row in Rows(r, group, b)
    ensures Unparsed(Rows(r, group, a)) == Unparsed(Rows(r, group, b))
  {
    hide ParseRow;
    MapOfPermutation((x: Json) => if x.JObject? then ParseRow(r, group, x) else Row(None, false), a, b);
    var rowsA, rowsB := Rows(r, group, a), Rows(r, group, b);
    CountsByMultiset(rowsA);
    CountsByMultiset(rowsB);
    assert forall row :: row in rowsA <==> row in multiset(rowsA);
    assert forall row :: row in rowsB <==> row in multiset(rowsB);
  }

  // ----- What an authoritative receipt means

  lemma {:induction false} AllObjects(s: seq<Json>)
    ensures |Objects(s)| == |s| <==> forall x :: x in s ==> x.JObject?
    ensures |Objects(s)| == |s| ==> Objects(s) == s
  {
    if s != [] { AllObjects(s[1..]); }
  }

  lemma {:induction false} NoneUnparsed(rows: seq<Row>)
    ensures Unparsed(rows) == 0 <==> forall row :: row in rows ==> row.lot.Some?
  {
    if rows != [] { NoneUnparsed(rows[..|rows| - 1]); }
  }

  /** Every entry is an object that parses to a lot, and entries of the same lot say the same. */
  ghost predicate Flawless(r: Reader, group: Group, entries: seq<Json>) {
    && (forall x :: x in entries ==> x.JObject? && ParseRow(r, group, x).lot.Some?)
    && (forall x, y :: x in entries && y in entries && SameLot(r, group, x, y) ==>
          ParseRow(r, group, x).lot == ParseRow(r, group, y).lot)
  }

  predicate SameLot(r: Reader, group: Group, x: Json, y: Json) {
    x.JObject? && y.JObject?
    && exists id :: id in LotIds(ParseRow(r, group, x)) && id in LotIds(ParseRow(r, group, y))
  }

  function LotIds(row: Row): set<string> { if row.lot.Some? then {row.lot.value.key.lot} else {} }

  lemma RowsAreParsed(r: Reader, group: Group, items: seq<Json>)
    requires forall x :: x in items ==> x.JObject?
    ensures forall x :: x in items ==> ParseRow(r, group, x) in Rows(r, group, items)
    ensures forall row :: row in Rows(r, group, items) ==> exists x :: x in items && ParseRow(r, group, x) == row
  {
    hide ParseRow;
    var rows := Rows(r, group, items);
    forall x | x in items ensures ParseRow(r, group, x) in rows {
      var i :| 0 <= i < |items| && items[i] == x;
      assert rows[i] == ParseRow(r, group, x);
    }
    forall row | row in rows ensures exists x :: x in items && ParseRow(r, group, x) == row {
      var i :| 0 <= i < |rows| && rows[i] == row;
      assert items[i] in items;
    }
  }

  lemma FlawlessAgree(r: Reader, group: Group, items: seq<Json>, id: string)
    requires (forall x :: x in items ==> x.JObject?) && Flawless(r, group, items)
    ensures Agree(Rows(r, group, items), id)
  {
    hide ParseRow, Rows;
    var rows := Rows(r, group, items);
    RowsAreParsed(r, group, items);
    forall a, b | a in rows && b in rows && Yields(a, id) && Yields(b, id) ensures a.lot == b.lot {
      var x :| x in items && ParseRow(r, group, x) == a;
      var y :| y in items && ParseRow(r, group, y) == b;
      assert id in LotIds(a) && id in LotIds(b);
      assert SameLot(r, group, x, y);
    }
  }

  lemma AgreeingIsFlawless(r: Reader, group: Group, items: seq<Json>)
    requires forall x :: x in items ==> x.JObject?
    requires forall row :: row in Rows(r, group, items) ==> row.lot.Some?
    requires forall id :: Agree(Rows(r, group, items), id)
    ensures Flawless(r, group, items)
  {
    hide ParseRow, Rows;
    RowsAreParsed(r, group, items);
    forall x, y | x in items && y in items && SameLot(r, group, x, y)
      ensures ParseRow(r, group, x).lot == ParseRow(r, group, y).lot
    {
      var id :| id in LotIds(ParseRow(r, group, x)) && id in LotIds(ParseRow(r, group, y));
      assert Agree(Rows(r, group, items), id);
    }
  }

  lemma FlawlessRows(r: Reader, group: Group, items: seq<Json>)
    requires forall x :: x in items ==> x.JObject?
    ensures var rows := Rows(r, group, items);
      Flawless(r, group, items) <==> Unparsed(rows) == 0 && forall id :: Agree(rows, id)
  {
    hide ParseRow, Rows, Agree;
    var rows := Rows(r, group, items);
    NoneUnparsed(rows);
    if Flawless(r, group, items) {
      RowsAreParsed(r, group, items);
      forall id ensures Agree(rows, id) { FlawlessAgree(r, group, items, id); }
    }
    if Unparsed(rows) == 0 && forall id :: Agree(rows, id) { AgreeingIsFlawless(r, group, items); }
  }

  lemma NoConflicts(rows: seq<Row>, kept: map<string, Lot>, conflicted: set<string>)
    requires Deduplicated(rows, kept, conflicted)
    ensures |conflicted| == 0 <==> forall id :: Agree(rows, id)
  {
    forall id ensures id in conflicted <==> Occurs(rows, id) && !Agree(rows, id) {
      FateMeaning(rows, id);
      assert VerdictOf(kept, conflicted, id) == Fate(rows, id);
    }
    if |conflicted| != 0 { var id :| id in conflicted; }
    if exists id :: !Agree(rows, id) {
      var id :| !Agree(rows, id);
      assert Occurs(rows, id);
    }
  }

  /**
   * A receipt is authoritative exactly when the auction's kind was readable, the walk reached the end of
   * the list, and every entry of every page on the way is a lot, no two of which disagree.
   */
  lemma AuthorityIsEarned(
    r: Reader, group: Group, raw: Record, limits: Limits, fetch: Fetch, pages: seq<PageRead>, s: GroupScan)
    requires Scanned(r, group, raw, fetch, s) && AccountsFor(fetch, pages)
    requires fetch.Fetched? && fetch.issue.None? <==> Finished(limits, pages)
    ensures s.receipt.authoritative <==> s.receipt.status == Complete
    ensures s.receipt.authoritative <==>
      && fetch.Fetched? && Kind(r, raw).Integer?
      && pages != [] && !Truthy(pages[|pages| - 1].next) && |pages[|pages| - 1].rows| < limits.pageSize
      && Flawless(r, group, AllRows(pages)) && forall x :: x in AllRows(pages) ==> !RowRaises(r, x, group)
  {
    FinishedMeans(limits, pages);
    hide Finished, Flawless, RowRaises, GroupIssues, Truthy;
    if fetch.Fetched? {
      AllObjects(AllRows(pages));
      FlawlessNeedsObjects(r, group, AllRows(pages));
      if forall x :: x in fetch.rows ==> !RowRaises(r, x, group) {
        NoIssueMeansFlawless(r, group, Kind(r, raw).Integer?, fetch, s);
      }
    }
  }

  lemma NoIssueMeansFlawless(r: Reader, group: Group, kindOk: bool, fetch: Fetch, s: GroupScan)
    requires fetch.Fetched? && forall x :: x in fetch.rows ==> x.JObject?
    requires Settled(r, group, kindOk, fetch, s)
    ensures s.issues == [] <==> kindOk && fetch.invalid == 0 && fetch.issue.None? && Flawless(r, group, fetch.rows)
  {
    hide Flawless, Rows, Deduplicated, Listed, Warned, Unparsed, Agree, GroupIssues;
    var rows := Rows(r, group, fetch.rows);
    var kept, conflicted :| Deduplicated(rows, kept, conflicted) && Listed(kept, s.lots)
      && s.issues == GroupIssues(kindOk, fetch, Unparsed(rows) + |conflicted|);
    NoGroupIssues(kindOk, fetch, Unparsed(rows) + |conflicted|);
    NoConflicts(rows, kept, conflicted);
    FlawlessRows(r, group, fetch.rows);
  }

  lemma NoGroupIssues(kindOk: bool, fetch: Fetch, invalidRows: nat)
    requires fetch.Fetched?
    ensures GroupIssues(kindOk, fetch, invalidRows) == [] <==>
      kindOk && fetch.invalid == 0 && fetch.issue.None? && invalidRows == 0
  {
    assert |GroupIssues(kindOk, fetch, invalidRows)| ==
      (if kindOk then 0 else 1) + fetch.invalid + (if fetch.issue.Some? then 1 else 0) + invalidRows;
  }

  lemma FlawlessNeedsObjects(r: Reader, group: Group, entries: seq<Json>)
    ensures Flawless(r, group, entries) ==> forall x :: x in entries ==> x.JObject?
  {
  }

  /** Every parsed row whose identity is undisputed is published, and nothing else is. */
  lemma PublishedExactly(r: Reader, group: Group, kindOk: bool, fetch: Fetch, s: GroupScan, lot: Lot)
    requires fetch.Fetched? && forall x :: x in fetch.rows ==> x.JObject?
    requires Settled(r, group, kindOk, fetch, s)
    ensures var rows := Rows(r, group, fetch.rows);
      lot in s.lots <==> (exists row :: row in rows && row.lot == Some(lot)) && Agree(rows, lot.key.lot)
  {
    hide Rows, Deduplicated, GroupIssues, Agree, Listed;
    var rows := Rows(r, group, fetch.rows);
    var kept, conflicted :| Deduplicated(rows, kept, conflicted) && Listed(kept, s.lots)
      && s.issues == GroupIssues(kindOk, fetch, Unparsed(rows) + |conflicted|);
    ListedLots(kept, s.lots, lot);
    KeptLots(rows, kept, conflicted, lot);
  }

  lemma ListedLots(kept: map<string, Lot>, lots: seq<Lot>, lot: Lot)
    requires Listed(kept, lots)
    ensures lot in lots <==> exists id :: id in kept && kept[id] == lot
  {
    var keys :| Ascending(keys) && SetOf(keys) == kept.Keys && Lists(kept, keys, lots);
    if lot in lots {
      var i :| 0 <= i < |lots| && lots[i] == lot;
      assert keys[i] in kept;
    }
    if exists id :: id in kept && kept[id] == lot {
      var id :| id in kept && kept[id] == lot;
      assert id in SetOf(keys);
      var i :| 0 <= i < |keys| && keys[i] == id;
      assert lots[i] == lot;
    }
  }

  lemma KeptLots(rows: seq<Row>, kept: map<string, Lot>, conflicted: set<string>, lot: Lot)
    requires Deduplicated(rows, kept, conflicted)
    ensures (exists id :: id in kept && kept[id] == lot) <==>
            (exists row :: row in rows && row.lot == Some(lot)) && Agree(rows, lot.key.lot)
  {
    hide Agree, Fate;
    if id :| id in kept && kept[id] == lot { KeptMeans(rows, kept, conflicted, id); }
    if (exists row :: row in rows && row.lot == Some(lot)) && Agree(rows, lot.key.lot) {
      var row :| row in rows && row.lot == Some(lot);
      assert Yields(row, lot.key.lot);
      FateMeaning(rows, lot.key.lot);
      assert VerdictOf(kept, conflicted, lot.key.lot) == Fate(rows, lot.key.lot);
    }
  }

  lemma KeptMeans(rows: seq<Row>, kept: map<string, Lot>, conflicted: set<string>, id: string)
    requires Deduplicated(rows, kept, conflicted) && id in kept
    ensures kept[id].key.lot == id && Agree(rows, id)
    ensures exists row :: row in rows && row.lot == Some(kept[id])
  {
    FateMeaning(rows, id);
    assert VerdictOf(kept, conflicted, id) == Fate(rows, id);
    var row :| row in rows && Yields(row, id);
  }

  /** Under an authoritative receipt every entry the server listed for the auction is published. */
  lemma AuthoritativePublishesAll(
    r: Reader, group: Group, raw: Record, limits: Limits, fetch: Fetch, pages: seq<PageRead>, s: GroupScan, x: Json)
    requires Scanned(r, group, raw, fetch, s) && AccountsFor(fetch, pages)
    requires fetch.Fetched? && fetch.issue.None? <==> Finished(limits, pages)
    requires s.receipt.authoritative && x in AllRows(pages)
    ensures x.JObject? && ParseRow(r, group, x).lot.Some? && ParseRow(r, group, x).lot.value in s.lots
  {
    AuthorityIsEarned(r, group, raw, limits, fetch, pages, s);
    hide Finished, ParseRow, Settled, AllRows, RowRaises;
    assert fetch.rows == AllRows(pages) by {
      AllObjects(AllRows(pages));
      assert forall y :: y in AllRows(pages) ==> y.JObject?;
    }
    RowsAreParsed(r, group, fetch.rows);
    FlawlessAgree(r, group, fetch.rows, ParseRow(r, group, x).lot.value.key.lot);
    PublishedExactly(r, group, Kind(r, raw).Integer?, fetch, s, ParseRow(r, group, x).lot.value);
  }

  // ----- One lot can fail its auction

  /** A lot that closes on the last day of the calendar. */
  const LAST_DAY_LOT := JObject([
    Entry("LoteId", JString("1")), Entry("LoteDescripcion", JString("Silla")),
    Entry("LoteCierre", JString("9999-12-31"))])

  /** Its overflowing closing time fails the whole auction. */
  lemma LastDayLotFailsItsAuction(r: Reader, group: Group, raw: Record, fetch: Fetch, s: GroupScan)
    requires Scanned(r, group, raw, fetch, s) && fetch.Fetched? && LAST_DAY_LOT in fetch.rows
    requires CleanText(r.text, JString("1")) == "1" && CleanText(r.text, JString("Silla")) == "Silla"
    requires r.instant(JString("9999-12-31")).Overflow? && r.image(JNull).Some? && r.encodable("1")
    ensures s == FailedScan(group, StructureDrift, [])
  {
    hide Settled, RowRaises;
    LastDayLotRaises(r, group);
  }

  lemma LastDayLotRaises(r: Reader, group: Group)
    requires CleanText(r.text, JString("1")) == "1" && CleanText(r.text, JString("Silla")) == "Silla"
    requires r.instant(JString("9999-12-31")).Overflow? && r.image(JNull).Some? && r.encodable("1")
    ensures RowRaises(r, LAST_DAY_LOT, group)
  {
    hide GetOrNull, Get, CleanText, FirstFolded;
    LastDayFields();
    LastDayNames(r.text);
  }

  lemma LastDayNames(t: Text)
    ensures LotIdentity(t, LAST_DAY_LOT) == CleanText(t, JString("1"))
    ensures LotTitle(t, LAST_DAY_LOT) == CleanText(t, JString("Silla"))
  {
    hide Get, CleanText, FirstFolded;
    LastDayFields();
  }

  lemma LastDayFields()
    ensures var entries := LAST_DAY_LOT.entries;
      && Get(entries, "LoteId") == Some(JString("1")) && Get(entries, "LoteDescripcion") == Some(JString("Silla"))
      && GetOrNull(entries, "LoteId") == JString("1") && GetOrNull(entries, "LoteDescripcion") == JString("Silla")
      && GetOrNull(entries, "LoteCierre") == JString("9999-12-31") && GetOrNull(entries, "DetalleUrl") == JNull
      && GetOrNull(entries, "LoteImageUrl") == JNull && GetOrNull(entries, "Imagen") == JNull
      && GetOrNull(entries, "image") == JNull
  {
    var entries := LAST_DAY_LOT.entries;
    assert entries[1..][1..][1..] == [];
    assert entries[1..][0] == entries[1] && entries[1..][1..][0] == entries[2];
  }
}
