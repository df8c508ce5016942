/** One Castells auction: parsing its rows, dropping conflicting duplicates, issuing its receipt. */
module CastellsLots {
  import opened Wrappers
  import opened Sequences
  import opened Ordering
  import opened Domain
  import opened Validation
  import opened CastellsDecoder
  import opened CastellsPaging

  /** A discovery record: the fields of one auction on the home page. */
  type Record = map<string, Json>

  datatype Number = Integer(n: int) | NotANumber | OutOfRange

  /** A closing time read from a page; one at the end of the calendar overflows on its way to UTC. */
  datatype Instant = At(time: Time) | NoTime | Overflow

  /** Field readers the adapter takes from its libraries; `None` stands for a raised error. */
  datatype Reader = Reader(
    text: Text,
    resolve: Json -> Option<string>,                    // a link joined to the site's address
    onSite: string -> bool,
    groupPage: string -> string,
    lotPage: (string, string) -> string,
    integer: Json -> Number,
    amount: string -> Option<real>,                     // None: no amount in the label
    currency: Json -> Option<string>,                   // None: no known currency
    image: Json -> Option<Option<string>>,              // a picture's link, joined likewise
    webAddress: string -> bool,                         // absolute HTTP, without credentials
    instant: Json -> Instant,
    lower: string -> string,
    dump: Record -> string,                             // the record as canonical JSON text
    encodable: string -> bool)                          // free of lone surrogates

  // JSON strings may hold lone surrogates, which are no characters here: some other character stands
  // for each of them, and `encodable` fails on the texts it occurs in.

  function Field(raw: Record, name: string): Json { if name in raw then raw[name] else JNull }

  function Either(a: Json, b: Json): Json { if Truthy(a) then a else b }

  function SameSiteUrl(r: Reader, value: Json, fallback: string): Option<string> {
    if !Truthy(value) then Some(fallback)
    else
      match r.resolve(value)
      case None => None
      case Some(url) => Some(if r.onSite(url) then url else fallback)
  }

  /** The domain models refuse text that cannot be encoded. */
  predicate Encodable(r: Reader, texts: seq<string>) { forall t :: t in texts ==> r.encodable(t) }

  function Title(r: Reader, raw: Record): string { CleanText(r.text, Field(raw, "RemateNombre")) }

  function MakeGroup(r: Reader, id: string, raw: Record): Option<Group> {
    var title := if Title(r, raw) != "" then Title(r, raw) else "Remate " + id;
    var category := CleanText(r.text, Field(raw, "RemateCategoriaNombre"));
    var url, closing := SameSiteUrl(r, Field(raw, "Link"), r.groupPage(id)), r.instant(Field(raw, "RemateCierre"));
    if url.None? || closing.Overflow? || !Encodable(r, [title, url.value, category]) then None
    else Some(Group(CASTELLS, id, title, url.value, category, true, if closing.At? then Some(closing.time) else None))
  }

  /** The lot's own address; its identity has to be encoded for the fallback. */
  function LotUrl(r: Reader, group: Group, item: Json): Option<string>
    requires item.JObject?
  {
    var id := LotIdentity(r.text, item);
    if !r.encodable(id) then None
    else SameSiteUrl(r, GetOrNull(item.entries, "DetalleUrl"), r.lotPage(group.id, id))
  }

  function LotImage(r: Reader, item: Json): Option<Option<string>>
    requires item.JObject?
  {
    var of := (name: string) => GetOrNull(item.entries, name);
    r.image(Either(of("LoteImageUrl"), Either(of("Imagen"), of("image"))))
  }

  /** The picture as the lot keeps it; `None` when the lot is refused for it. */
  function Picture(r: Reader, link: Option<string>): Option<Option<string>> {
    if link.None? then Some(None)
    else
      var cleaned := Strip(r.text.unicode, link.value);
      if cleaned == "" then Some(None)
      else if r.webAddress(cleaned) && r.encodable(cleaned) then Some(Some(cleaned))
      else None
  }

  /** A row that gets as far as its closing time, which overflows: this error ends the whole auction's scan. */
  predicate RowRaises(r: Reader, item: Json, group: Group) {
    && item.JObject? && LotIdentity(r.text, item) != "" && LotTitle(r.text, item) != ""
    && LotUrl(r, group, item).Some? && LotImage(r, item).Some?
    && r.instant(GetOrNull(item.entries, "LoteCierre")).Overflow?
  }

  /** A parsed row, or nothing when the row is invalid; either way it may carry a price warning. */
  datatype Row = Row(lot: Option<Lot>, warned: bool)

  function ParseRow(r: Reader, group: Group, item: Json): (row: Row)
    requires item.JObject?
    ensures row.lot.Some? ==> row.lot.value.key == LotKey(CASTELLS, group.id, row.lot.value.key.lot)
  {
    var id, title := LotIdentity(r.text, item), LotTitle(r.text, item);
    var url := LotUrl(r, group, item);
    if id == "" || title == "" || url.None? then Row(None, false)
    else
      var of := (name: string) => GetOrNull(item.entries, name);
      var shown := CleanText(r.text, Either(of("ValorActual"), of("LotePrecioSalida")));
      var amount, currency := r.amount(shown), r.currency(of("LotePrecioSalidaMonedaWF"));
      var warned := shown != "" && (amount.None? || currency.None?);
      var price := if shown == "" || warned then None else Some(Price(amount.value, currency.value));
      var image := LotImage(r, item);
      if image.None? then Row(None, warned)
      else
        var details := CleanText(r.text, Either(of("LoteDetalle"), of("Detalle")));
        var description := if details != "" then details else title;
        var closing := r.instant(of("LoteCierre"));
        var state := if Truthy(of("Estado")) then CleanText(r.text, of("Estado")) else "active";
        var lotId, picture := ExternalId(r.text.unicode, id), Picture(r, image.value);
        if lotId.None? || picture.None?
           || !Encodable(r, [title, description, group.category, shown, url.value, group.url]) then Row(None, warned)
        else
          Row(Some(Lot(LotKey(CASTELLS, group.id, lotId.value), title, description, group.category, price, shown,
                       if closing.At? then Some(closing.time) else group.closingAt, url.value, group.url,
                       picture.value, r.lower(state) !in {"cerrado", "closed"})), warned)
  }

  /** A row is a lot exactly when it has an identity and a title, its links can be read and all its text kept. */
  lemma RowIsLot(r: Reader, group: Group, item: Json)
    requires item.JObject?
    ensures var id, title := LotIdentity(r.text, item), LotTitle(r.text, item);
      var of := (name: string) => GetOrNull(item.entries, name);
      var url, image := LotUrl(r, group, item), LotImage(r, item);
      var details := CleanText(r.text, Either(of("LoteDetalle"), of("Detalle")));
      var shown := CleanText(r.text, Either(of("ValorActual"), of("LotePrecioSalida")));
      ParseRow(r, group, item).lot.Some? <==>
        && id != "" && title != "" && ExternalId(r.text.unicode, id).Some?
        && url.Some? && image.Some? && Picture(r, image.value).Some?
        && r.encodable(title) && (details != "" ==> r.encodable(details)) && r.encodable(shown)
        && r.encodable(url.value) && r.encodable(group.category) && r.encodable(group.url)
  {
    hide LotUrl, LotImage, Picture, CleanText, LotIdentity, LotTitle, ExternalId, Truthy, GetOrNull, Encodable;
    var title, url := LotTitle(r.text, item), LotUrl(r, group, item);
    var of := (name: string) => GetOrNull(item.entries, name);
    var details := CleanText(r.text, Either(of("LoteDetalle"), of("Detalle")));
    var shown := CleanText(r.text, Either(of("ValorActual"), of("LotePrecioSalida")));
    if url.Some? {
      SixEncodable(r, title, if details != "" then details else title, group.category, shown, url.value, group.url);
    }
  }

  lemma SixEncodable(r: Reader, a: string, b: string, c: string, d: string, e: string, f: string)
    ensures Encodable(r, [a, b, c, d, e, f]) <==>
      r.encodable(a) && r.encodable(b) && r.encodable(c) && r.encodable(d) && r.encodable(e) && r.encodable(f)
  {
    var all := [a, b, c, d, e, f];
    assert all[0] == a && all[1] == b && all[2] == c && all[3] == d && all[4] == e && all[5] == f;
    assert forall i :: 0 <= i < 6 ==> all[i] in all;
  }

  /** What a lot says: its own title and closing time, or else the auction's time, its price only when amount and
      currency can be read, its label always. */
  lemma LotFromRow(r: Reader, group: Group, item: Json)
    requires item.JObject? && ParseRow(r, group, item).lot.Some?
    ensures var lot := ParseRow(r, group, item).lot.value;
      var of := (name: string) => GetOrNull(item.entries, name);
      var details := CleanText(r.text, Either(of("LoteDetalle"), of("Detalle")));
      && lot.key.source == "castells" && lot.key.auction == group.id
      && ExternalId(r.text.unicode, LotIdentity(r.text, item)) == Some(lot.key.lot)
      && lot.title == LotTitle(r.text, item) && (details != "" ==> lot.description == details)
      && (details == "" ==> lot.description == lot.title) && lot.category == group.category
      && lot.priceLabel == CleanText(r.text, Either(of("ValorActual"), of("LotePrecioSalida")))
      && (r.instant(of("LoteCierre")).At? ==> lot.closingAt == Some(r.instant(of("LoteCierre")).time))
      && (!r.instant(of("LoteCierre")).At? ==> lot.closingAt == group.closingAt)
      && LotUrl(r, group, item) == Some(lot.lotUrl) && lot.auctionUrl == group.url
      && LotImage(r, item).Some? && Picture(r, LotImage(r, item).value) == Some(lot.imageUrl)
      && (!Truthy(of("Estado")) ==> (lot.active <==> r.lower("active") != "cerrado" && r.lower("active") != "closed"))
      && (Truthy(of("Estado")) ==>
            (lot.active <==> r.lower(CleanText(r.text, of("Estado"))) != "cerrado"
                             && r.lower(CleanText(r.text, of("Estado"))) != "closed"))
  {
  }

  /** The price is the amount and the currency, both or none; a label that does not give both is a warning. */
  lemma PriceFromRow(r: Reader, group: Group, item: Json)
    requires item.JObject?
    ensures var row := ParseRow(r, group, item);
      var of := (name: string) => GetOrNull(item.entries, name);
      var shown := CleanText(r.text, Either(of("ValorActual"), of("LotePrecioSalida")));
      var amount, currency := r.amount(shown), r.currency(of("LotePrecioSalidaMonedaWF"));
      && (row.lot.Some? && row.lot.value.price.Some? <==>
            row.lot.Some? && shown != "" && amount.Some? && currency.Some?)
      && (row.lot.Some? && row.lot.value.price.Some? ==>
            row.lot.value.price.value == Price(amount.value, currency.value))
      && (row.warned <==>
            && LotIdentity(r.text, item) != "" && LotTitle(r.text, item) != "" && LotUrl(r, group, item).Some?
            && shown != "" && (amount.None? || currency.None?))
  {
    hide LotUrl, LotImage, Picture, CleanText, LotIdentity, LotTitle, ExternalId, Truthy, GetOrNull, Encodable;
  }

  /** A picture is kept when its address is one; a blank one is none, and any other refuses the lot. */
  lemma PictureMeans(r: Reader, link: string)
    ensures Picture(r, None) == Some(None)
    ensures var address := Strip(r.text.unicode, link);
      && (address == "" ==> Picture(r, Some(link)) == Some(None))
      && (address != "" && r.webAddress(address) && r.encodable(address) ==>
            Picture(r, Some(link)) == Some(Some(address)))
      && (address != "" && !(r.webAddress(address) && r.encodable(address)) ==> Picture(r, Some(link)) == None)
  {
  }

  /** The row's closing time is read only after its identity, title and links; when it overflows, that raises. */
  lemma RowRaisesMeans(r: Reader, group: Group, item: Json)
    requires item.JObject?
    ensures RowRaises(r, item, group) <==>
      && r.instant(GetOrNull(item.entries, "LoteCierre")).Overflow?
      && LotIdentity(r.text, item) != "" && LotTitle(r.text, item) != ""
      && LotUrl(r, group, item).Some? && LotImage(r, item).Some?
    ensures ParseRow(r, group, item).lot.Some? && r.instant(GetOrNull(item.entries, "LoteCierre")).Overflow? ==>
      RowRaises(r, item, group)
  {
    RowIsLot(r, group, item);
    hide ParseRow, LotUrl, LotImage, LotIdentity, LotTitle, GetOrNull;
  }

  /** A link counts when it leads to the site itself; any other, or none, gives way to the known address. */
  lemma LinkMeans(r: Reader, value: Json, fallback: string)
    ensures var url := SameSiteUrl(r, value, fallback);
      && (url.None? <==> Truthy(value) && r.resolve(value).None?)
      && (Truthy(value) && r.resolve(value).Some? && r.onSite(r.resolve(value).value) ==> url == r.resolve(value))
      && (Truthy(value) && r.resolve(value).Some? && !r.onSite(r.resolve(value).value) ==> url == Some(fallback))
      && (!Truthy(value) ==> url == Some(fallback))
  {
  }

  /** What makes a record an auction's group, field by field. */
  lemma GroupMeans(r: Reader, id: string, raw: Record)
    ensures var title := CleanText(r.text, Field(raw, "RemateNombre"));
      var shown, category := if title != "" then title else "Remate " + id,
                             CleanText(r.text, Field(raw, "RemateCategoriaNombre"));
      var url, closing := SameSiteUrl(r, Field(raw, "Link"), r.groupPage(id)), r.instant(Field(raw, "RemateCierre"));
      var group := MakeGroup(r, id, raw);
      && (group.Some? <==>
            && url.Some? && !closing.Overflow?
            && r.encodable(shown) && r.encodable(category) && r.encodable(url.value))
      && (group.Some? ==>
            && group.value.source == "castells" && group.value.id == id && group.value.title == shown
            && group.value.url == url.value && group.value.category == category && group.value.active
            && (closing.At? ==> group.value.closingAt == Some(closing.time))
            && (closing.NoTime? ==> group.value.closingAt == None))
  {
  }

  function Rows(r: Reader, group: Group, items: seq<Json>): (rows: seq<Row>)
    requires forall x :: x in items ==> x.JObject?
    ensures |rows| == |items| && forall i :: 0 <= i < |rows| ==> rows[i] == ParseRow(r, group, items[i])
  {
    assert forall i :: 0 <= i < |items| ==> items[i] in items;
    Map((x: Json) => if x.JObject? then ParseRow(r, group, x) else Row(None, false), items)
  }

  // ----- Dropping conflicting duplicates

  predicate Yields(row: Row, id: string) { row.lot.Some? && row.lot.value.key.lot == id }

  predicate Occurs(rows: seq<Row>, id: string) { exists row :: row in rows && Yields(row, id) }

  predicate Agree(rows: seq<Row>, id: string) {
    forall a, b :: a in rows && b in rows && Yields(a, id) && Yields(b, id) ==> a.lot == b.lot
  }

  datatype Verdict = Absent | Kept(lot: Lot) | Conflicting

  /** What the rows, taken one after the other, make of one identity. */
  function Fate(rows: seq<Row>, id: string): Verdict {
    if rows == [] then Absent else Judge(Fate(rows[..|rows| - 1], id), rows[|rows| - 1], id)
  }

  function Judge(before: Verdict, row: Row, id: string): Verdict {
    if !Yields(row, id) then before
    else
      match before
      case Absent => Kept(row.lot.value)
      case Kept(lot) => if lot == row.lot.value then before else Conflicting
      case Conflicting => Conflicting
  }

  function VerdictOf(kept: map<string, Lot>, conflicted: set<string>, id: string): Verdict {
    if id in conflicted then Conflicting else if id in kept then Kept(kept[id]) else Absent
  }

  /** The two tables hold the fate of every identity. */
  ghost predicate Deduplicated(rows: seq<Row>, kept: map<string, Lot>, conflicted: set<string>) {
    kept.Keys !! conflicted && forall id :: VerdictOf(kept, conflicted, id) == Fate(rows, id)
  }

  /** A lot is kept exactly when it occurs and all its parseable rows yield that same lot. */
  lemma {:induction false} FateMeaning(rows: seq<Row>, id: string)
    ensures Fate(rows, id).Absent? <==> !Occurs(rows, id)
    ensures Fate(rows, id).Conflicting? <==> Occurs(rows, id) && !Agree(rows, id)
    ensures Fate(rows, id).Kept? ==>
      forall row :: row in rows && Yields(row, id) ==> row.lot == Some(Fate(rows, id).lot)
  {
    if rows != [] {
      var front, last := rows[..|rows| - 1], rows[|rows| - 1];
      FateMeaning(front, id);
      assert forall row :: row in rows <==> row in front || row == last;
      OccursInEither(rows, front, last, id);
    }
  }

  lemma OccursInEither(rows: seq<Row>, front: seq<Row>, last: Row, id: string)
    requires forall row :: row in rows <==> row in front || row == last
    ensures Occurs(rows, id) <==> Occurs(front, id) || Yields(last, id)
    ensures Agree(rows, id) <==>
      Agree(front, id) && (Yields(last, id) ==> forall row :: row in front && Yields(row, id) ==> row.lot == last.lot)
  {
  }

  function Unparsed(rows: seq<Row>): nat {
    if rows == [] then 0
    else Unparsed(rows[..|rows| - 1]) + if rows[|rows| - 1].lot.None? then 1 else 0
  }

  function Warned(rows: seq<Row>): nat {
    if rows == [] then 0
    else Warned(rows[..|rows| - 1]) + if rows[|rows| - 1].warned then 1 else 0
  }

  lemma {:induction false} CountsByMultiset(rows: seq<Row>)
    ensures Unparsed(rows) == multiset(rows)[Row(None, true)] + multiset(rows)[Row(None, false)]
  {
    if rows != [] {
      CountsByMultiset(rows[..|rows| - 1]);
      assert rows == rows[..|rows| - 1] + [rows[|rows| - 1]];
    }
  }

  lemma OneMoreRow(rows: seq<Row>, row: Row)
    ensures forall id :: Fate(rows + [row], id) == Judge(Fate(rows, id), row, id)
    ensures Unparsed(rows + [row]) == Unparsed(rows) + if row.lot.None? then 1 else 0
    ensures Warned(rows + [row]) == Warned(rows) + if row.warned then 1 else 0
  {
    assert (rows + [row])[..|rows|] == rows;
  }

  /** These are the published lots, in ascending order of their identities. */
  ghost predicate Listed(kept: map<string, Lot>, lots: seq<Lot>) {
    exists keys :: Ascending(keys) && SetOf(keys) == kept.Keys && Lists(kept, keys, lots)
  }

  ghost predicate Lists(kept: map<string, Lot>, keys: seq<string>, lots: seq<Lot>) {
    |lots| == |keys| && forall i :: 0 <= i < |keys| ==> keys[i] in kept && lots[i] == kept[keys[i]]
  }

  method CollectLots(r: Reader, group: Group, items: seq<Json>)
    returns (raised: bool, kept: map<string, Lot>, conflicted: set<string>, invalid: nat, warnings: nat)
    requires forall x :: x in items ==> x.JObject?
    ensures raised <==> exists x :: x in items && RowRaises(r, x, group)
    ensures !raised ==> Deduplicated(Rows(r, group, items), kept, conflicted)
    ensures !raised ==> invalid == Unparsed(Rows(r, group, items)) + |conflicted|
    ensures !raised ==> warnings == Warned(Rows(r, group, items))
  {
    hide ParseRow, Judge, Unparsed, Warned, RowRaises;
    raised, kept, conflicted, invalid, warnings := false, map[], {}, 0, 0;
    ghost var rows := Rows(r, group, items);
    NoRows();
    for i := 0 to |items|
      invariant forall x :: x in items[..i] ==> !RowRaises(r, x, group)
      invariant Deduplicated(rows[..i], kept, conflicted)
      invariant invalid == Unparsed(rows[..i]) + |conflicted| && warnings == Warned(rows[..i])
    {
      assert items[i] in items && items[..i + 1] == items[..i] + [items[i]];
      if RowRaises(r, items[i], group) { return true, kept, conflicted, invalid, warnings; }
      var row := ParseRow(r, group, items[i]);
      OneMoreRow(rows[..i], row);
      assert rows[..i + 1] == rows[..i] + [row];
      if row.warned { warnings := warnings + 1; }
      JudgeStep(rows[..i], row, kept, conflicted);
      if row.lot.None? {
        invalid := invalid + 1;
      } else {
        var lot := row.lot.value;
        var id := lot.key.lot;
        if id !in conflicted {
          if id !in kept {
            kept := kept[id := lot];
          } else if kept[id] != lot {
            kept, conflicted, invalid := kept - {id}, conflicted + {id}, invalid + 1;
          }
        }
      }
    }
    assert rows[..|items|] == rows && items[..|items|] == items;
  }

  lemma NoRows()
    ensures Unparsed([]) == 0 && Warned([]) == 0
  {
  }

  /** What the loop does to its two tables is one step of every identity's fate. */
  lemma JudgeStep(rows: seq<Row>, row: Row, kept: map<string, Lot>, conflicted: set<string>)
    requires Deduplicated(rows, kept, conflicted)
    ensures row.lot.None? ==> Deduplicated(rows + [row], kept, conflicted)
    ensures row.lot.Some? ==>
      var lot := row.lot.value;
      var id := lot.key.lot;
      if id in conflicted || (id in kept && kept[id] == lot) then Deduplicated(rows + [row], kept, conflicted)
      else if id !in kept then Deduplicated(rows + [row], kept[id := lot], conflicted)
      else Deduplicated(rows + [row], kept - {id}, conflicted + {id})
  {
    hide Fate;
    OneMoreRow(rows, row);
    forall id ensures VerdictOf(kept, conflicted, id) == Fate(rows, id) {}
  }

  // ----- Scanning one auction

  datatype GroupScan = GroupScan(
    group: Group, lots: seq<Lot>, receipt: Receipt, issues: seq<Issue>, warnings: nat, diagnostics: seq<Diagnostic>)

  function Times<T>(x: T, n: nat): (r: seq<T>)
    ensures |r| == n && forall y :: y in r ==> y == x
  { seq(n, _ => x) }

  function FailedScan(group: Group, cause: Issue, diagnostics: seq<Diagnostic>): GroupScan {
    GroupScan(group, [], Receipt(group.id, Failed, false, 0, 1), [cause], 0, diagnostics)
  }

  lemma FailedScanMeans(group: Group, cause: Issue, diagnostics: seq<Diagnostic>)
    ensures var s := FailedScan(group, cause, diagnostics);
      && s.group == group && s.lots == [] && s.issues == [cause] && s.warnings == 0 && s.diagnostics == diagnostics
      && s.receipt.group == group.id && s.receipt.status == Failed && !s.receipt.authoritative
      && s.receipt.lotCount == 0 && s.receipt.errorCount == 1
  {
  }

  /** Every issue of a fetched group: a bad kind, bad entries, the walk's own, bad rows, conflicts. */
  function GroupIssues(kindOk: bool, fetch: Fetch, invalidRows: nat): seq<Issue>
    requires fetch.Fetched?
  {
    (if kindOk then [] else [StructureDrift]) + Times(InvalidLot, fetch.invalid)
      + (if fetch.issue.Some? then [fetch.issue.value] else []) + Times(InvalidLot, invalidRows)
  }

  ghost predicate Settled(r: Reader, group: Group, kindOk: bool, fetch: Fetch, s: GroupScan)
    requires fetch.Fetched? && forall x :: x in fetch.rows ==> x.JObject?
  {
    var rows := Rows(r, group, fetch.rows);
    && s.group == group && s.diagnostics == fetch.diagnostics && s.warnings == Warned(rows)
    && (exists kept, conflicted :: Deduplicated(rows, kept, conflicted) && Listed(kept, s.lots)
          && s.issues == GroupIssues(kindOk, fetch, Unparsed(rows) + |conflicted|))
    && var complete := s.issues == [];
       s.receipt == Receipt(group.id, if complete then Complete else Partial, complete, |s.lots|, |s.issues|)
  }

  method ListLots(kept: map<string, Lot>) returns (lots: seq<Lot>)
    ensures Listed(kept, lots)
  {
    var keys := SortedKeys(kept.Keys);
    assert forall i :: 0 <= i < |keys| ==> keys[i] in SetOf(keys);
    lots := seq(|keys|, i requires 0 <= i < |keys| => kept[keys[i]]);
    assert Lists(kept, keys, lots);
  }

  /** Parse and deduplicate the rows, sort the kept lots, count the issues, issue the receipt. */
  method Settle(r: Reader, group: Group, kindOk: bool, fetch: Fetch) returns (s: GroupScan)
    requires fetch.Fetched? && forall x :: x in fetch.rows ==> x.JObject?
    ensures if exists x :: x in fetch.rows && RowRaises(r, x, group) then s == FailedScan(group, StructureDrift, [])
            else Settled(r, group, kindOk, fetch, s)
  {
    hide Deduplicated, Rows, GroupIssues, Warned, Unparsed, RowRaises;
    var raised, kept, conflicted, invalid, warnings := CollectLots(r, group, fetch.rows);
    if raised { return FailedScan(group, StructureDrift, []); }
    hide Listed;
    var lots := ListLots(kept);
    var issues := GroupIssues(kindOk, fetch, invalid);
    var complete := issues == [];
    s := GroupScan(group, lots,
                   Receipt(group.id, if complete then Complete else Partial, complete, |lots|, |issues|),
                   issues, warnings, fetch.diagnostics);
  }
}
