/** Collapsing the repeated and conflicting auction records of the Castells home page. */
module CastellsDiscovery {
  import opened Wrappers
  import opened Sequences
  import opened Ordering
  import opened Validation
  import opened Cleaning
  import opened CastellsDecoder
  import opened CastellsLots

  function RawId(r: Reader, raw: Record): string { CleanText(r.text, Field(raw, "RemateId")) }

  function GroupId(r: Reader, raw: Record): (id: Option<string>)
    ensures id.Some? ==> id.value == RawId(r, raw)
  {
    CollapsedIdIsItself(r.text.unicode, r.text.plain(Field(raw, "RemateId")));
    ExternalId(r.text.unicode, RawId(r, raw))
  }

  /** Records sort by identity, then by their canonical text. */
  predicate RecordLeq(r: Reader, a: Record, b: Record) {
    if RawId(r, a) == RawId(r, b) then TextLeq(r.dump(a), r.dump(b)) else TextLeq(RawId(r, a), RawId(r, b))
  }

  lemma RecordTotal(r: Reader, a: Record, b: Record)
    ensures RecordLeq(r, a, b) || RecordLeq(r, b, a)
  {
    TextTotal(RawId(r, a), RawId(r, b));
    TextTotal(r.dump(a), r.dump(b));
  }

  lemma RecordTransitive(r: Reader, a: Record, b: Record, c: Record)
    requires RecordLeq(r, a, b) && RecordLeq(r, b, c)
    ensures RecordLeq(r, a, c)
  {
    hide RawId;
    if RawId(r, a) == RawId(r, b) == RawId(r, c) {
      TextTransitive(r.dump(a), r.dump(b), r.dump(c));
    } else if RawId(r, a) != RawId(r, b) && RawId(r, b) != RawId(r, c) {
      TextTransitive(RawId(r, a), RawId(r, b), RawId(r, c));
      if RawId(r, a) == RawId(r, c) { TextAntisymmetric(RawId(r, a), RawId(r, b)); }
    }
  }

  predicate InOrder(r: Reader, s: seq<Record>) {
    forall i, j :: 0 <= i < j < |s| ==> RecordLeq(r, s[i], s[j])
  }

  function InsertRecord(r: Reader, x: Record, s: seq<Record>): (t: seq<Record>)
    ensures multiset(t) == multiset(s) + multiset{x}
  {
    if s == [] || RecordLeq(r, x, s[0]) then [x] + s
    else
      assert s == [s[0]] + s[1..];
      [s[0]] + InsertRecord(r, x, s[1..])
  }

  lemma {:induction false} InsertKeepsOrder(r: Reader, x: Record, s: seq<Record>)
    requires InOrder(r, s)
    ensures InOrder(r, InsertRecord(r, x, s))
  {
    hide RecordLeq;
    if s == [] {
    } else if RecordLeq(r, x, s[0]) {
      forall j | 0 <= j < |s| ensures RecordLeq(r, x, s[j]) {
        if j > 0 { RecordTransitive(r, x, s[0], s[j]); }
      }
    } else {
      RecordTotal(r, x, s[0]);
      InsertKeepsOrder(r, x, s[1..]);
      var t := InsertRecord(r, x, s[1..]);
      forall j | 0 <= j < |t| ensures RecordLeq(r, s[0], t[j]) {
        assert t[j] in multiset(t);
        if t[j] != x { var k :| 0 <= k < |s[1..]| && s[1..][k] == t[j]; assert s[k + 1] == t[j]; }
      }
    }
  }

  function Sorted(r: Reader, s: seq<Record>): (t: seq<Record>)
    ensures multiset(t) == multiset(s)
  {
    if s == [] then []
    else
      assert s == [s[0]] + s[1..];
      InsertRecord(r, s[0], Sorted(r, s[1..]))
  }

  lemma {:induction false} SortedIsInOrder(r: Reader, s: seq<Record>)
    ensures InOrder(r, Sorted(r, s))
  {
    if s != [] {
      SortedIsInOrder(r, s[1..]);
      InsertKeepsOrder(r, s[0], Sorted(r, s[1..]));
    }
  }

  // ----- The auctions a set of records stands for

  predicate Names(r: Reader, raw: Record, id: string) { GroupId(r, raw) == Some(id) }

  predicate Named(r: Reader, records: seq<Record>, id: string) { exists raw :: raw in records && Names(r, raw, id) }

  predicate Disputed(r: Reader, records: seq<Record>, id: string) {
    exists a, b :: a in records && b in records && Names(r, a, id) && Names(r, b, id) && a != b
  }

  /** The record that stands for an auction: of those naming it, the least by canonical text. */
  predicate StandsFor(r: Reader, records: seq<Record>, id: string, raw: Record) {
    && raw in records && Names(r, raw, id)
    && forall other :: other in records && Names(r, other, id) ==> TextLeq(r.dump(raw), r.dump(other))
  }

  function AuctionIds(r: Reader, auctions: seq<Record>): (ids: seq<string>)
    ensures |ids| == |auctions| && forall i :: 0 <= i < |ids| ==> ids[i] == RawId(r, auctions[i])
  { Map((raw: Record) => RawId(r, raw), auctions) }

  function Nameless(r: Reader, records: seq<Record>): nat {
    |Filter((raw: Record) => GroupId(r, raw).None?, records)|
  }

  /** One auction per identity in ascending order, the disputed identities, and the nameless records. */
  ghost predicate Canonical(
    r: Reader, records: seq<Record>, auctions: seq<Record>, drift: nat, conflicted: set<string>)
  {
    && Ascending(AuctionIds(r, auctions))
    && (forall id :: id in SetOf(AuctionIds(r, auctions)) <==> Named(r, records, id))
    && (forall raw :: raw in auctions ==> StandsFor(r, records, RawId(r, raw), raw))
    && (forall id :: id in conflicted <==> Disputed(r, records, id))
    && drift == Nameless(r, records)
  }

  /** The record's identity, if its text is a valid one. */
  predicate Identifies(r: Reader, raw: Record, id: string) {
    ExternalId(r.text.unicode, CleanText(r.text, if "RemateId" in raw then raw["RemateId"] else JNull)) == Some(id)
  }

  lemma IdentifiesMeans(r: Reader, raw: Record, id: string)
    ensures Names(r, raw, id) <==> Identifies(r, raw, id)
    ensures GroupId(r, raw).None? <==> forall other :: !Identifies(r, raw, other)
  {
    hide CleanText, ExternalId;
    if GroupId(r, raw).Some? { assert Identifies(r, raw, GroupId(r, raw).value); }
  }

  /** The auctions are records with valid identities, one of each and in their order; of records with one identity
      none has a canonical text before the auction's; and an identity is disputed when two of its records differ. */
  lemma CanonicalMeans(
    r: Reader, records: seq<Record>, auctions: seq<Record>, drift: nat, conflicted: set<string>, i: nat, raw: Record,
    id: string)
    requires Canonical(r, records, auctions, drift, conflicted) && i < |auctions|
    ensures auctions[i] in records && Identifies(r, auctions[i], RawId(r, auctions[i]))
    ensures i + 1 < |auctions| ==>
      var a, b := RawId(r, auctions[i]), RawId(r, auctions[i + 1]);
      a != b && (a <= b || exists n :: FirstDifference(a, b, n) && a[n] < b[n])
    ensures raw in records && Identifies(r, raw, RawId(r, auctions[i])) ==>
      var a, b := r.dump(auctions[i]), r.dump(raw);
      a <= b || exists n :: FirstDifference(a, b, n) && a[n] < b[n]
    ensures raw in records && Identifies(r, raw, id) ==> exists k :: 0 <= k < |auctions| && RawId(r, auctions[k]) == id
    ensures id in conflicted <==>
      exists a, b :: a in records && b in records && Identifies(r, a, id) && Identifies(r, b, id) && a != b
    ensures drift == |set n: nat | n < |records| && GroupId(r, records[n]).None?|
  {
    hide RawId, GroupId, Identifies, TextLeq;
    forall raw, id ensures Names(r, raw, id) <==> Identifies(r, raw, id) { IdentifiesMeans(r, raw, id); }
    assert auctions[i] in auctions;
    if i + 1 < |auctions| {
      TextLeqMeans(RawId(r, auctions[i]), RawId(r, auctions[i + 1]));
      assert AuctionIds(r, auctions)[i] == RawId(r, auctions[i]);
    }
    TextLeqMeans(r.dump(auctions[i]), r.dump(raw));
    if raw in records && Identifies(r, raw, id) {
      assert Named(r, records, id);
      assert id in SetOf(AuctionIds(r, auctions));
    }
    var p := (x: Record) => GroupId(r, x).None?;
    FilterSize(p, records);
    assert Positions(p, records) == set n: nat | n < |records| && GroupId(r, records[n]).None?;
  }

  /** What the loop knows of one identity: the record standing for it, and whether it is disputed. */
  predicate Known(r: Reader, seen: seq<Record>, id: string, standing: Option<Record>, disputed: bool) {
    && (standing.Some? <==> Named(r, seen, id)) && (standing.Some? ==> StandsFor(r, seen, id, standing.value))
    && (disputed <==> Disputed(r, seen, id))
  }

  /** The state of the collapsing loop after some of the sorted records. */
  ghost predicate Collapsed(
    r: Reader, seen: seq<Record>, order: seq<string>, unique: map<string, Record>, conflicted: set<string>)
  {
    && Ascending(order) && SetOf(order) == unique.Keys
    && forall id :: Known(r, seen, id, Lookup(unique, id), id in conflicted)
  }

  lemma OneMoreRecord(r: Reader, seen: seq<Record>, raw: Record, id: string)
    ensures Named(r, seen + [raw], id) <==> Named(r, seen, id) || Names(r, raw, id)
    ensures Disputed(r, seen + [raw], id) <==>
      Disputed(r, seen, id) || (Names(r, raw, id) && exists b :: b in seen && Names(r, b, id) && b != raw)
  {
    hide Names;
    var longer := seen + [raw];
    assert forall b :: b in longer <==> b in seen || b == raw;
    if Names(r, raw, id) && exists b :: b in seen && Names(r, b, id) && b != raw {
      var b :| b in seen && Names(r, b, id) && b != raw;
      assert b in longer && raw in longer;
    }
  }

  lemma StillStandsFor(r: Reader, seen: seq<Record>, raw: Record, id: string, u: Record)
    requires StandsFor(r, seen, id, u) && (Names(r, raw, id) ==> RecordLeq(r, u, raw))
    ensures StandsFor(r, seen + [raw], id, u)
  {
    hide RawId;
  }

  lemma OtherName(r: Reader, seen: seq<Record>, raw: Record, id: string, standing: Option<Record>, disputed: bool)
    requires Known(r, seen, id, standing, disputed) && !Names(r, raw, id)
    ensures Known(r, seen + [raw], id, standing, disputed)
  {
    hide Names, StandsFor, Named, Disputed;
    OneMoreRecord(r, seen, raw, id);
    if standing.Some? { StillStandsFor(r, seen, raw, id, standing.value); }
  }

  lemma CollapseNameless(
    r: Reader, seen: seq<Record>, raw: Record, order: seq<string>, unique: map<string, Record>, conflicted: set<string>)
    requires Collapsed(r, seen, order, unique, conflicted) && GroupId(r, raw).None?
    ensures Collapsed(r, seen + [raw], order, unique, conflicted)
  {
    hide Known, GroupId;
    forall id ensures Known(r, seen + [raw], id, Lookup(unique, id), id in conflicted) {
      assert !Names(r, raw, id);
      OtherName(r, seen, raw, id, Lookup(unique, id), id in conflicted);
    }
  }

  lemma CollapseNew(
    r: Reader, seen: seq<Record>, raw: Record, id: string,
    order: seq<string>, unique: map<string, Record>, conflicted: set<string>)
    requires Collapsed(r, seen, order, unique, conflicted) && Names(r, raw, id) && id !in unique
    requires forall b :: b in seen ==> RecordLeq(r, b, raw)
    ensures Collapsed(r, seen + [raw], order + [id], unique[id := raw], conflicted)
  {
    NewIsLast(r, seen, raw, id, order, unique, conflicted);
    OneName(r, raw, id);
    hide GroupId, RecordLeq, Known, Names;
    assert SetOf(order + [id]) == SetOf(order) + {id};
    forall k ensures Known(r, seen + [raw], k, Lookup(unique[id := raw], k), k in conflicted) {
      assert Known(r, seen, k, Lookup(unique, k), k in conflicted);
      if k == id { FirstOfItsName(r, seen, raw, id, id in conflicted); }
      else { OtherName(r, seen, raw, k, Lookup(unique, k), k in conflicted); }
    }
  }

  lemma NewIsLast(
    r: Reader, seen: seq<Record>, raw: Record, id: string,
    order: seq<string>, unique: map<string, Record>, conflicted: set<string>)
    requires Collapsed(r, seen, order, unique, conflicted) && Names(r, raw, id) && id !in unique
    requires forall b :: b in seen ==> RecordLeq(r, b, raw)
    ensures Ascending(order + [id])
  {
    hide Disputed, StandsFor;
    forall k | k in order ensures TextLeq(k, id) && k != id {
      assert k in SetOf(order);
      assert Known(r, seen, k, Lookup(unique, k), k in conflicted);
      var b :| b in seen && Names(r, b, k);
    }
    assert forall i :: 0 <= i < |order| ==> order[i] in order;
  }

  lemma CollapseAgain(
    r: Reader, seen: seq<Record>, raw: Record, id: string,
    order: seq<string>, unique: map<string, Record>, conflicted: set<string>)
    requires Collapsed(r, seen, order, unique, conflicted) && Names(r, raw, id) && id in unique
    requires forall b :: b in seen ==> RecordLeq(r, b, raw)
    ensures Collapsed(r, seen + [raw], order, unique, if unique[id] != raw then conflicted + {id} else conflicted)
  {
    OneName(r, raw, id);
    hide GroupId, RecordLeq, Known, Names;
    var after := if unique[id] != raw then conflicted + {id} else conflicted;
    forall k ensures Known(r, seen + [raw], k, Lookup(unique, k), k in after) {
      assert Known(r, seen, k, Lookup(unique, k), k in conflicted);
      if k == id { SameNameAgain(r, seen, raw, id, unique[id], id in conflicted); }
      else { OtherName(r, seen, raw, k, Lookup(unique, k), k in conflicted); }
    }
  }

  lemma OneName(r: Reader, raw: Record, id: string)
    requires Names(r, raw, id)
    ensures forall k :: Names(r, raw, k) ==> k == id
  {
  }

  lemma FirstOfItsName(r: Reader, seen: seq<Record>, raw: Record, id: string, disputed: bool)
    requires Known(r, seen, id, None, disputed) && Names(r, raw, id)
    ensures Known(r, seen + [raw], id, Some(raw), disputed)
  {
    hide Names;
    TextTotal(r.dump(raw), r.dump(raw));
    assert forall b :: b in seen + [raw] <==> b in seen || b == raw;
  }

  lemma SameNameAgain(r: Reader, seen: seq<Record>, raw: Record, id: string, u: Record, disputed: bool)
    requires Known(r, seen, id, Some(u), disputed) && Names(r, raw, id)
    requires forall b :: b in seen ==> RecordLeq(r, b, raw)
    ensures Known(r, seen + [raw], id, Some(u), disputed || u != raw)
  {
    hide Names;
    assert RecordLeq(r, u, raw);
    StillStandsFor(r, seen, raw, id, u);
    OneMoreRecord(r, seen, raw, id);
  }

  method CanonicalAuctions(r: Reader, records: seq<Record>)
    returns (auctions: seq<Record>, drift: nat, conflicted: set<string>)
    ensures Canonical(r, records, auctions, drift, conflicted)
  {
    hide RecordLeq, GroupId, Collapsed;
    var ordered := Sorted(r, records);
    SortedIsInOrder(r, records);
    var unique: map<string, Record>, order: seq<string> := map[], [];
    drift, conflicted := 0, {};
    NothingCollapsed(r);
    for i := 0 to |ordered|
      invariant Collapsed(r, ordered[..i], order, unique, conflicted)
      invariant drift == Nameless(r, ordered[..i])
    {
      var raw, seen := ordered[i], ordered[..i];
      assert ordered[..i + 1] == seen + [raw];
      assert (seen + [raw])[..i] == seen;
      assert forall b :: b in seen ==> RecordLeq(r, b, raw);
      match GroupId(r, raw)
      case None =>
        CollapseNameless(r, seen, raw, order, unique, conflicted);
        drift := drift + 1;
      case Some(id) =>
        if id !in unique {
          CollapseNew(r, seen, raw, id, order, unique, conflicted);
          unique, order := unique[id := raw], order + [id];
        } else {
          CollapseAgain(r, seen, raw, id, order, unique, conflicted);
          if unique[id] != raw { conflicted := conflicted + {id}; }
        }
    }
    assert ordered[..|ordered|] == ordered;
    OrderIsUnique(r, ordered, order, unique, conflicted);
    auctions := seq(|order|, i requires 0 <= i < |order| => unique[order[i]]);
    CollapsedIsCanonical(r, records, ordered, order, unique, conflicted, auctions);
  }

  lemma NothingCollapsed(r: Reader)
    ensures Collapsed(r, [], [], map[], {})
  {
  }

  lemma OrderIsUnique(
    r: Reader, seen: seq<Record>, order: seq<string>, unique: map<string, Record>, conflicted: set<string>)
    requires Collapsed(r, seen, order, unique, conflicted)
    ensures forall i :: 0 <= i < |order| ==> order[i] in unique
  {
    assert forall i :: 0 <= i < |order| ==> order[i] in SetOf(order);
  }

  lemma CollapsedIsCanonical(
    r: Reader, records: seq<Record>, ordered: seq<Record>, order: seq<string>, unique: map<string, Record>,
    conflicted: set<string>, auctions: seq<Record>)
    requires multiset(ordered) == multiset(records) && Collapsed(r, ordered, order, unique, conflicted)
    requires |auctions| == |order|
    requires forall i :: 0 <= i < |order| ==> order[i] in unique && auctions[i] == unique[order[i]]
    ensures Canonical(r, records, auctions, Nameless(r, ordered), conflicted)
  {
    hide GroupId, RawId, Named, Disputed, StandsFor, Nameless;
    SameRecords(r, ordered, records);
    forall id ensures id in unique <==> Named(r, records, id) {
      assert Known(r, ordered, id, Lookup(unique, id), id in conflicted);
    }
    forall id ensures id in conflicted <==> Disputed(r, records, id) {
      assert Known(r, ordered, id, Lookup(unique, id), id in conflicted);
    }
    forall id | id in unique ensures StandsFor(r, ordered, id, unique[id]) {
      assert Known(r, ordered, id, Lookup(unique, id), id in conflicted);
    }
    forall i | 0 <= i < |order| ensures RawId(r, auctions[i]) == order[i] {
      NameOfStandIn(r, ordered, order[i], unique[order[i]]);
    }
    assert AuctionIds(r, auctions) == order;
    forall raw | raw in auctions ensures StandsFor(r, records, RawId(r, raw), raw) {
      var i :| 0 <= i < |auctions| && auctions[i] == raw;
      assert StandsFor(r, ordered, order[i], unique[order[i]]);
    }
  }

  lemma NameOfStandIn(r: Reader, records: seq<Record>, id: string, raw: Record)
    requires StandsFor(r, records, id, raw)
    ensures RawId(r, raw) == id
  {
  }

  /** Only which records there are matters, not their order. */
  lemma SameRecords(r: Reader, a: seq<Record>, b: seq<Record>)
    requires multiset(a) == multiset(b)
    ensures Nameless(r, a) == Nameless(r, b)
    ensures forall id :: Named(r, a, id) == Named(r, b, id) && Disputed(r, a, id) == Disputed(r, b, id)
    ensures forall id, raw :: StandsFor(r, a, id, raw) == StandsFor(r, b, id, raw)
  {
    FilterOfPermutation((raw: Record) => GroupId(r, raw).None?, a, b);
    hide Names;
    assert forall raw :: raw in a <==> raw in multiset(a);
    assert forall raw :: raw in b <==> raw in multiset(b);
    forall id ensures Named(r, a, id) == Named(r, b, id) {}
    forall id ensures Disputed(r, a, id) == Disputed(r, b, id) {}
    forall id, raw ensures StandsFor(r, a, id, raw) == StandsFor(r, b, id, raw) {}
  }

  ghost predicate DumpTellsApart(r: Reader, records: seq<Record>) {
    forall a, b :: a in records && b in records && r.dump(a) == r.dump(b) ==> a == b
  }

  /** Whatever order the records come in, the auctions, the disputes and the drift count are the same. */
  lemma RecordOrderIsIrrelevant(
    r: Reader, recordsA: seq<Record>, a: seq<Record>, driftA: nat, conflictedA: set<string>,
    recordsB: seq<Record>, b: seq<Record>, driftB: nat, conflictedB: set<string>)
    requires multiset(recordsA) == multiset(recordsB) && DumpTellsApart(r, recordsA)
    requires Canonical(r, recordsA, a, driftA, conflictedA) && Canonical(r, recordsB, b, driftB, conflictedB)
    ensures a == b && driftA == driftB && conflictedA == conflictedB
  {
    hide GroupId, RawId, Named, Disputed, StandsFor, Nameless;
    SameRecords(r, recordsA, recordsB);
    AscendingIsUnique(AuctionIds(r, a), AuctionIds(r, b));
    forall i | 0 <= i < |a| ensures a[i] == b[i] {
      assert a[i] in a && b[i] in b;
      var id := AuctionIds(r, a)[i];
      assert StandsFor(r, recordsA, id, a[i]) && StandsFor(r, recordsA, id, b[i]);
      OneStandsFor(r, recordsA, id, a[i], b[i]);
    }
  }

  lemma OneStandsFor(r: Reader, records: seq<Record>, id: string, a: Record, b: Record)
    requires StandsFor(r, records, id, a) && StandsFor(r, records, id, b) && DumpTellsApart(r, records)
    ensures a == b
  {
    TextAntisymmetric(r.dump(a), r.dump(b));
  }
}
