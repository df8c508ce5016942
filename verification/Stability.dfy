/** Quarantine of implausible Castells shrinkage before anything is reconciled. */
module Stability {
  import opened Wrappers
  import opened Sequences
  import opened Domain
  import opened SourceContract

  function ReportedIn(r: ScanResult, group: string): set<LotKey> {
    set l | l in r.lots && l.key.auction == group :: l.key
  }

  function KnownIn(prior: set<LotKey>, group: string): set<LotKey> {
    set k | k in prior && k.auction == group
  }

  /** A non-empty group that lost more than three quarters of at least eight lots. */
  predicate Suspicious(r: ScanResult, prior: set<LotKey>, group: string) {
    var known, now := |KnownIn(prior, group)|, |ReportedIn(r, group)|;
    now > 0 && known >= 8 && now * 4 < known
  }

  predicate ReportedActive(r: ScanResult, group: string) {
    exists g :: g in r.groups && g.active && g.id == group
  }

  predicate Quarantined(r: ScanResult, prior: set<LotKey>, x: Receipt) {
    && ReportedActive(r, x.group) && x.status == Complete && x.authoritative
    && Suspicious(r, prior, x.group)
  }

  function Guarded(r: ScanResult, prior: set<LotKey>, x: Receipt): Receipt {
    if Quarantined(r, prior, x)
    then x.(status := Partial, authoritative := false, errorCount := x.errorCount + 1)
    else x
  }

  function GuardedReceipts(r: ScanResult, prior: set<LotKey>, receipts: seq<Receipt>): (g: seq<Receipt>)
    ensures |g| == |receipts|
    ensures forall i :: 0 <= i < |receipts| ==> g[i] == Guarded(r, prior, receipts[i])
  {
    Map((x: Receipt) => Guarded(r, prior, x), receipts)
  }

  predicate AnyQuarantined(r: ScanResult, prior: set<LotKey>) {
    && r.source == CASTELLS && r.discovery != Failed && prior != {}
    && exists x :: x in r.receipts && Quarantined(r, prior, x)
  }

  const RETAINED := "Castells unstable inventory evidence retained"

  function Stabilized(r: ScanResult, prior: set<LotKey>): ScanResult {
    if AnyQuarantined(r, prior)
    then r.(discovery := Partial, authoritative := false,
            receipts := GuardedReceipts(r, prior, r.receipts), errors := r.errors + [RETAINED])
    else r
  }

  /** A receipt is downgraded exactly when it claims that a listed, active Castells group with at least eight known
      lots still has some of them, but fewer than a quarter. */
  lemma DowngradedReceipt(r: ScanResult, prior: set<LotKey>, i: nat)
    requires i < |r.receipts|
    ensures |Stabilized(r, prior).receipts| == |r.receipts|
    ensures var x, y := r.receipts[i], Stabilized(r, prior).receipts[i];
      var known, now := |set k | k in prior && k.auction == x.group|,
                        |set l | l in r.lots && l.key.auction == x.group :: l.key|;
      if r.source == "castells" && r.discovery != Failed && (exists g :: g in r.groups && g.active && g.id == x.group)
         && x.status == Complete && x.authoritative && now > 0 && known >= 8 && 4 * now < known
      then y == Receipt(x.group, Partial, false, x.lotCount, x.errorCount + 1)
      else y == x
  {
    assert r.receipts[i] in r.receipts;
    assert prior == {} ==> KnownIn(prior, r.receipts[i].group) == {};
  }

  /** The rest of the result changes only with some receipt. */
  lemma DowngradedResult(r: ScanResult, prior: set<LotKey>)
    ensures var s := Stabilized(r, prior);
      && (s.receipts == r.receipts ==> s == r)
      && (s.receipts != r.receipts ==>
            s == r.(receipts := s.receipts, discovery := Partial, authoritative := false,
                    errors := r.errors + [RETAINED]))
  {
    hide Suspicious, ReportedActive;
    if AnyQuarantined(r, prior) {
      var x :| x in r.receipts && Quarantined(r, prior, x);
      var i :| 0 <= i < |r.receipts| && r.receipts[i] == x;
      assert Stabilized(r, prior).receipts[i] != x;
    }
  }

  method StabilizeInventory(r: ScanResult, prior: set<LotKey>) returns (s: ScanResult)
    ensures s == Stabilized(r, prior)
    ensures |s.receipts| == |r.receipts|
    ensures forall i :: 0 <= i < |r.receipts| ==>
      var x := r.receipts[i];
      var known, now := |set k | k in prior && k.auction == x.group|,
                        |set l | l in r.lots && l.key.auction == x.group :: l.key|;
      s.receipts[i] ==
        if r.source == "castells" && r.discovery != Failed && (exists g :: g in r.groups && g.active && g.id == x.group)
           && x.status == Complete && x.authoritative && now > 0 && known >= 8 && 4 * now < known
        then Receipt(x.group, Partial, false, x.lotCount, x.errorCount + 1) else x
    ensures s.receipts == r.receipts ==> s == r
  {
    hide Quarantined, ReportedActive, Suspicious, KnownIn, ReportedIn;
    forall i | 0 <= i < |r.receipts| { DowngradedReceipt(r, prior, i); }
    DowngradedResult(r, prior);
    if r.source != CASTELLS || r.discovery == Failed || prior == {} { return r; }
    var receipts, dropped := [], {};
    for i := 0 to |r.receipts|
      invariant receipts == GuardedReceipts(r, prior, r.receipts[..i])
      invariant dropped == set x | x in r.receipts[..i] && Quarantined(r, prior, x) :: x.group
    {
      var x := r.receipts[i];
      assert r.receipts[..i + 1] == r.receipts[..i] + [x];
      if Quarantined(r, prior, x) {
        dropped := dropped + {x.group};
        x := x.(status := Partial, authoritative := false, errorCount := x.errorCount + 1);
      }
      receipts := receipts + [x];
    }
    assert r.receipts[..|r.receipts|] == r.receipts;
    if dropped == {} {
      assert forall x :: x in r.receipts && Quarantined(r, prior, x) ==> x.group in dropped;
      return r;
    }
    return r.(discovery := Partial, authoritative := false, receipts := receipts, errors := r.errors + [RETAINED]);
  }

  /** The part of the contract that reconciliation relies on. */
  predicate WellCovered(source: string, r: ScanResult) {
    && NoDuplicates(ReceiptIds(r)) && NoDuplicates(LotKeys(r.lots))
    && (forall l :: l in r.lots ==> l.key.source == source && l.key.auction in ReceiptIds(r))
    && (forall x :: x in r.receipts && x.status != Failed ==> x.lotCount == |LotsIn(r.lots, x.group)|)
    && (forall x :: x in r.receipts && x.authoritative ==> x.status == Complete)
  }

  lemma ConformingIsWellCovered(source: string, r: ScanResult)
    requires Conforms(source, r)
    ensures WellCovered(source, r)
  {
    forall l | l in r.lots ensures l.key.auction in ReceiptIds(r) {
      assert l.key.auction in SetOf(GroupIds(r));
    }
  }

  lemma StabilizedIds(r: ScanResult, prior: set<LotKey>)
    ensures ReceiptIds(Stabilized(r, prior)) == ReceiptIds(r)
    ensures forall x :: x in Stabilized(r, prior).receipts ==>
      exists y :: y in r.receipts && (x == y || (Quarantined(r, prior, y) && x == Guarded(r, prior, y)))
  {
    var s := Stabilized(r, prior);
    forall x | x in s.receipts
      ensures
      exists y :: y in r.receipts && (x == y || (Quarantined(r, prior, y) && x == Guarded(r, prior, y)))
    {
      var i :| 0 <= i < |s.receipts| && s.receipts[i] == x;
      assert r.receipts[i] in r.receipts;
    }
  }

  lemma StabilizedIsWellCovered(source: string, r: ScanResult, prior: set<LotKey>)
    requires WellCovered(source, r)
    ensures WellCovered(source, Stabilized(r, prior))
  {
    StabilizedIds(r, prior);
  }

  /** Quarantine keeps the contract exactly unless the source had claimed omission authority. */
  lemma QuarantineKeepsContract(source: string, r: ScanResult, prior: set<LotKey>)
    requires Conforms(source, r)
    ensures Conforms(source, Stabilized(r, prior)) <==> !AnyQuarantined(r, prior) || r.omission != Some(true)
  {
    StabilizedIds(r, prior);
  }
}
