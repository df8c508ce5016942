/** The contract every source result must meet before the engine reconciles from it. */
module SourceContract {
  import opened Wrappers
  import opened Sequences
  import opened Domain

  datatype Violation =
    | UnexpectedSource | DuplicateGroup | DuplicateReceipt | DuplicateSkipped
    | DuplicateDiagnostic | DuplicateLot | ForeignGroup | ForeignLot | ScannedAndSkipped
    | StrayDiagnostic | ReceiptsDoNotMatchGroups | LotOutsideGroups | LotCountMismatch
    | AuthorityWithoutCompleteness | SourceAuthorityConflict | OmissionAuthorityConflict

  function GroupIds(r: ScanResult): (ids: seq<string>)
    ensures |ids| == |r.groups|
  { Map((g: Group) => g.id, r.groups) }

  function ReceiptIds(r: ScanResult): (ids: seq<string>)
    ensures |ids| == |r.receipts|
  { Map((x: Receipt) => x.group, r.receipts) }

  function SkippedIds(r: ScanResult): seq<string> { Map((s: SkippedGroup) => s.group, r.skipped) }

  function DiagnosticKeys(r: ScanResult): seq<DiagnosticKey> { Map((d: Diagnostic) => KeyOf(d), r.diagnostics) }

  function LotKeys(lots: seq<Lot>): (ids: seq<LotKey>)
    ensures |ids| == |lots|
  { Map((l: Lot) => l.key, lots) }

  /** The reported lots of one auction, in reported order. */
  function LotsIn(lots: seq<Lot>, group: string): seq<Lot> {
    Filter((l: Lot) => l.key.auction == group, lots)
  }

  /** Identities: nothing repeats and everything belongs to this source. */
  predicate DistinctIdentities(source: string, r: ScanResult) {
    && r.source == source
    && NoDuplicates(GroupIds(r)) && NoDuplicates(ReceiptIds(r)) && NoDuplicates(SkippedIds(r))
    && NoDuplicates(DiagnosticKeys(r)) && NoDuplicates(LotKeys(r.lots))
    && (forall g :: g in r.groups ==> g.source == source)
    && (forall l :: l in r.lots ==> l.key.source == source)
  }

  /** Coverage: the receipts cover exactly the scanned groups and count their lots. */
  predicate ExactCoverage(r: ScanResult) {
    && SetOf(GroupIds(r)) * SetOf(SkippedIds(r)) == {}
    && (forall d :: d in r.diagnostics ==> d.group in GroupIds(r))
    && SetOf(GroupIds(r)) == SetOf(ReceiptIds(r))
    && (forall l :: l in r.lots ==> l.key.auction in GroupIds(r))
    && (forall x :: x in r.receipts && x.status != Failed ==> x.lotCount == |LotsIn(r.lots, x.group)|)
  }

  /** Authority: it is claimed only on complete evidence, by groups and by the source. */
  predicate HonestAuthority(r: ScanResult) {
    && (forall x :: x in r.receipts && x.authoritative ==> x.status == Complete)
    && (r.authoritative ==>
          && r.discovery == Complete && r.errors == []
          && forall x :: x in r.receipts && x.status != Failed ==> x.authoritative)
    && (r.omission == Some(true) ==> r.authoritative)
  }

  predicate Conforms(source: string, r: ScanResult) {
    DistinctIdentities(source, r) && ExactCoverage(r) && HonestAuthority(r)
  }

  /** One pass over the lots, counting them per discovered group. */
  method CountLots(r: ScanResult) returns (counts: map<string, nat>)
    requires forall l :: l in r.lots ==> l.key.auction in GroupIds(r)
    ensures counts.Keys == SetOf(GroupIds(r))
    ensures forall g :: g in counts ==> counts[g] == |LotsIn(r.lots, g)|
  {
    counts := map g | g in GroupIds(r) :: 0;
    for i := 0 to |r.lots|
      invariant counts.Keys == SetOf(GroupIds(r))
      invariant forall g :: g in counts ==> counts[g] == |LotsIn(r.lots[..i], g)|
    {
      var auction := r.lots[i].key.auction;
      assert r.lots[i] in r.lots;
      assert r.lots[..i + 1] == r.lots[..i] + [r.lots[i]];
      assert r.lots[..i + 1][..i] == r.lots[..i];
      counts := counts[auction := counts[auction] + 1];
    }
    assert r.lots[..|r.lots|] == r.lots;
  }

  method IdentityError(source: string, r: ScanResult) returns (error: Option<Violation>)
    ensures error.None? <==> DistinctIdentities(source, r)
  {
    DistinctBySize(GroupIds(r));
    DistinctBySize(ReceiptIds(r));
    DistinctBySize(SkippedIds(r));
    DistinctBySize(DiagnosticKeys(r));
    DistinctBySize(LotKeys(r.lots));
    if r.source != source { return Some(UnexpectedSource); }
    if Repeats(GroupIds(r)) { return Some(DuplicateGroup); }
    if Repeats(ReceiptIds(r)) { return Some(DuplicateReceipt); }
    if Repeats(SkippedIds(r)) { return Some(DuplicateSkipped); }
    if Repeats(DiagnosticKeys(r)) { return Some(DuplicateDiagnostic); }
    if Repeats(LotKeys(r.lots)) { return Some(DuplicateLot); }
    if exists g :: g in r.groups && g.source != source { return Some(ForeignGroup); }
    if exists l :: l in r.lots && l.key.source != source { return Some(ForeignLot); }
    return None;
  }

  method CoverageError(r: ScanResult) returns (error: Option<Violation>)
    ensures error.None? <==> ExactCoverage(r)
  {
    if SetOf(GroupIds(r)) * SetOf(SkippedIds(r)) != {} { return Some(ScannedAndSkipped); }
    if exists d :: d in r.diagnostics && d.group !in GroupIds(r) { return Some(StrayDiagnostic); }
    if SetOf(GroupIds(r)) != SetOf(ReceiptIds(r)) { return Some(ReceiptsDoNotMatchGroups); }
    if exists l :: l in r.lots && l.key.auction !in GroupIds(r) { return Some(LotOutsideGroups); }
    var counts := CountLots(r);
    ReceiptGroupsKnown(r);
    if exists x :: x in r.receipts && x.status != Failed && x.lotCount != counts[x.group] {
      return Some(LotCountMismatch);
    }
    return None;
  }

  method AuthorityError(r: ScanResult) returns (error: Option<Violation>)
    ensures error.None? <==> HonestAuthority(r)
  {
    if exists x :: x in r.receipts && x.authoritative && x.status != Complete {
      return Some(AuthorityWithoutCompleteness);
    }
    if r.authoritative &&
       (r.discovery != Complete || r.errors != [] ||
        exists x :: x in r.receipts && x.status != Failed && !x.authoritative) {
      return Some(SourceAuthorityConflict);
    }
    if r.omission == Some(true) && !r.authoritative { return Some(OmissionAuthorityConflict); }
    return None;
  }

  /** The checks in the program's order; silence means exactly conformance. */
  method ContractError(source: string, r: ScanResult) returns (error: Option<Violation>)
    ensures error.None? <==> Conforms(source, r)
  {
    error := IdentityError(source, r);
    if error.None? { error := CoverageError(r); }
    if error.None? { error := AuthorityError(r); }
  }

  lemma ReceiptGroupsKnown(r: ScanResult)
    requires SetOf(GroupIds(r)) == SetOf(ReceiptIds(r))
    ensures forall x :: x in r.receipts ==> x.group in SetOf(GroupIds(r))
  {
    forall x | x in r.receipts ensures x.group in SetOf(GroupIds(r)) {
      var i :| 0 <= i < |r.receipts| && r.receipts[i] == x;
      assert ReceiptIds(r)[i] == x.group;
    }
  }

  // ----- The contract without the functions it is checked with

  lemma DistinctByIndex<A, B>(f: A -> B, s: seq<A>)
    ensures NoDuplicates(Map(f, s)) <==> forall i, j :: 0 <= i < j < |s| ==> f(s[i]) != f(s[j])
  {
  }

  lemma MappedSet<A, B>(f: A -> B, s: seq<A>, y: B)
    ensures y in SetOf(Map(f, s)) <==> exists x :: x in s && f(x) == y
  {
    if y in Map(f, s) {
      var i :| 0 <= i < |s| && Map(f, s)[i] == y;
      assert s[i] in s;
    }
    if x :| x in s && f(x) == y {
      var i :| 0 <= i < |s| && s[i] == x;
      assert Map(f, s)[i] == y;
    }
  }

  /** Nothing repeats, and everything belongs to the source. */
  lemma IdentitiesMean(source: string, r: ScanResult)
    ensures DistinctIdentities(source, r) <==>
      && r.source == source
      && (forall i, j :: 0 <= i < j < |r.groups| ==> r.groups[i].id != r.groups[j].id)
      && (forall i, j :: 0 <= i < j < |r.receipts| ==> r.receipts[i].group != r.receipts[j].group)
      && (forall i, j :: 0 <= i < j < |r.skipped| ==> r.skipped[i].group != r.skipped[j].group)
      && (forall i, j :: 0 <= i < j < |r.diagnostics| ==> KeyOf(r.diagnostics[i]) != KeyOf(r.diagnostics[j]))
      && (forall i, j :: 0 <= i < j < |r.lots| ==> r.lots[i].key != r.lots[j].key)
      && (forall g :: g in r.groups ==> g.source == source) && (forall l :: l in r.lots ==> l.key.source == source)
  {
    hide NoDuplicates, Map, KeyOf;
    DistinctByIndex((g: Group) => g.id, r.groups);
    DistinctByIndex((x: Receipt) => x.group, r.receipts);
    DistinctByIndex((s: SkippedGroup) => s.group, r.skipped);
    DistinctByIndex((d: Diagnostic) => KeyOf(d), r.diagnostics);
    DistinctByIndex((l: Lot) => l.key, r.lots);
  }

  predicate HasGroup(r: ScanResult, id: string) { exists g :: g in r.groups && g.id == id }

  predicate HasReceipt(r: ScanResult, id: string) { exists x :: x in r.receipts && x.group == id }

  predicate IsSkipped(r: ScanResult, id: string) { exists s :: s in r.skipped && s.group == id }

  function LotCount(lots: seq<Lot>, group: string): nat { |set i: nat | i < |lots| && lots[i].key.auction == group| }

  /** Just the groups have receipts, and they are not skipped; every lot and diagnostic belongs to one; and a
      receipt that did not fail counts its group's lots. */
  lemma CoverageMeans(r: ScanResult)
    ensures ExactCoverage(r) <==>
      && (forall id :: HasGroup(r, id) ==> !IsSkipped(r, id)) && (forall id :: HasGroup(r, id) <==> HasReceipt(r, id))
      && (forall d :: d in r.diagnostics ==> HasGroup(r, d.group))
      && (forall l :: l in r.lots ==> HasGroup(r, l.key.auction))
      && (forall x :: x in r.receipts && x.status != Failed ==> x.lotCount == LotCount(r.lots, x.group))
  {
    hide Map, SetOf, Filter, HasGroup, HasReceipt, IsSkipped, LotCount, LotsIn;
    IdsMean(r);
    forall group ensures |LotsIn(r.lots, group)| == LotCount(r.lots, group) { LotsInCount(r.lots, group); }
    var groups, skipped := SetOf(GroupIds(r)), SetOf(SkippedIds(r));
    if forall id :: HasGroup(r, id) ==> !IsSkipped(r, id) {
      assert forall id :: id in groups ==> id !in skipped;
    }
    if groups * skipped == {} {
      forall id | HasGroup(r, id) ensures !IsSkipped(r, id) { assert id in groups && id !in groups * skipped; }
    }
  }

  /** Authority is refused to an incomplete receipt, to a source with errors, without complete discovery or with an
      unfailed receipt that claims none, and for omissions to a source that has none. */
  lemma AuthorityMeans(r: ScanResult)
    ensures HonestAuthority(r) <==>
      && !(exists x :: x in r.receipts && x.authoritative && x.status != Complete)
      && !(r.authoritative && (r.discovery != Complete || r.errors != []))
      && !(r.authoritative && exists x :: x in r.receipts && x.status != Failed && !x.authoritative)
      && !(r.omission == Some(true) && !r.authoritative)
  {
  }

  /** Diagnostics are of one kind when they differ in nothing but their confidence. */
  lemma KindMeans(a: Diagnostic, b: Diagnostic)
    ensures KeyOf(a) == KeyOf(b) <==> a == b.(confidence := a.confidence)
  {
  }

  lemma IdsMean(r: ScanResult)
    ensures forall id :: id in SetOf(GroupIds(r)) <==> HasGroup(r, id)
    ensures forall id :: id in GroupIds(r) <==> HasGroup(r, id)
    ensures forall id :: id in SetOf(ReceiptIds(r)) <==> HasReceipt(r, id)
    ensures forall id :: id in SetOf(SkippedIds(r)) <==> IsSkipped(r, id)
  {
    hide Map, SetOf;
    forall id
      ensures id in SetOf(GroupIds(r)) <==> HasGroup(r, id)
      ensures id in SetOf(ReceiptIds(r)) <==> HasReceipt(r, id)
      ensures id in SetOf(SkippedIds(r)) <==> IsSkipped(r, id)
    {
      MappedSet((g: Group) => g.id, r.groups, id);
      MappedSet((x: Receipt) => x.group, r.receipts, id);
      MappedSet((s: SkippedGroup) => s.group, r.skipped, id);
    }
    InSetOf(GroupIds(r));
  }

  lemma InSetOf(s: seq<string>)
    ensures forall x :: x in SetOf(s) <==> x in s
  {
  }

  lemma LotsInCount(lots: seq<Lot>, group: string)
    ensures |LotsIn(lots, group)| == LotCount(lots, group)
  {
    var p := (l: Lot) => l.key.auction == group;
    FilterSize(p, lots);
    assert Positions(p, lots) == set i: nat | i < |lots| && lots[i].key.auction == group;
  }
}
