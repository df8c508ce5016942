/** Records exchanged between the source adapters, the run engine and storage. */
module Domain {
  import opened Wrappers

  // Instants are whole seconds on one UTC time line.
  type Time = int
  type RunId = string

  /** The one source whose adapter and stability rules are modelled. */
  const CASTELLS := "castells"

  datatype LotKey = LotKey(source: string, auction: string, lot: string)

  // An amount always comes with its currency, so the pair is one optional value.
  datatype Price = Price(amount: real, currency: string)

  datatype Lot = Lot(
    key: LotKey, title: string, description: string, category: string,
    price: Option<Price>, priceLabel: string, closingAt: Option<Time>,
    lotUrl: string, auctionUrl: string, imageUrl: Option<string>, active: bool)

  datatype Group = Group(
    source: string, id: string, title: string, url: string, category: string,
    active: bool, closingAt: Option<Time>)

  datatype Coverage = Complete | Partial | Failed

  datatype Receipt = Receipt(
    group: string, status: Coverage, authoritative: bool, lotCount: nat, errorCount: nat)

  datatype SkippedGroup = SkippedGroup(group: string, title: string)

  datatype Confidence = High | Medium | Low

  datatype Issue =
    | HttpError | Timeout | InvalidGxState | InvalidPriceCurrency | Pagination | InvalidLot
    | RequestBudget | HtmlResponse | ErrorPayload | AmbiguousEnvelope | UnverifiedEmpty
    | LotShapeDrift | StructureDrift

  datatype DecodingStatus = AdaptiveRecovered | ShadowOnly

  // `category` is None for the "envelope drift" of an adaptively recovered page.
  datatype Diagnostic = Diagnostic(
    group: string, status: DecodingStatus, category: Option<Issue>, confidence: Confidence,
    path: Option<string>, fingerprint: string)

  datatype DiagnosticKey = DiagnosticKey(
    group: string, status: DecodingStatus, category: Option<Issue>,
    path: Option<string>, fingerprint: string)

  function KeyOf(d: Diagnostic): DiagnosticKey {
    DiagnosticKey(d.group, d.status, d.category, d.path, d.fingerprint)
  }

  datatype ScanResult = ScanResult(
    source: string, groups: seq<Group>, lots: seq<Lot>, discovery: Coverage,
    authoritative: bool, omission: Option<bool>, receipts: seq<Receipt>,
    skipped: seq<SkippedGroup>, diagnostics: seq<Diagnostic>,
    errors: seq<string>, warnings: seq<string>)
}
