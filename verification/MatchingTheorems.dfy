/** What the matcher decides, stated gate by gate, and what every result satisfies. */
module MatchingTheorems {
  import opened Sequences
  import opened Domain
  import opened Validation
  import opened Normalization
  import opened Matching

  /** The term occurs in a field, and the first context rule for it, if there is one, finds one of its required
      terms, unless it requires none, and none of its excluded terms anywhere in the lot. */
  predicate Fires(n: Normalizer, p: Profile, lot: Lot, term: string) {
    var title, description, category := n.text(lot.title), n.text(lot.description), n.text(lot.category);
    var whole := title + " " + description + " " + category;
    && (ContainsTerm(n, title, term) || ContainsTerm(n, description, term) || ContainsTerm(n, category, term))
    && forall k ::
         (0 <= k < |p.rules| && n.text(p.rules[k].term) == n.text(term)
          && forall j :: 0 <= j < k ==> n.text(p.rules[j].term) != n.text(term)) ==>
         && (p.rules[k].requiredAny != [] ==> exists x :: x in p.rules[k].requiredAny && ContainsTerm(n, whole, x))
         && (forall x :: x in p.rules[k].excludedAny ==> !ContainsTerm(n, whole, x))
  }

  predicate AnyFires(n: Normalizer, p: Profile, lot: Lot, terms: seq<string>) {
    exists x :: x in terms && Fires(n, p, lot, x)
  }

  predicate AllFire(n: Normalizer, p: Profile, lot: Lot, terms: seq<string>) {
    forall x :: x in terms ==> Fires(n, p, lot, x)
  }

  // ----- The score, from what fires

  /** How many of the terms fire; a repeated term counts each time. */
  function Firing(n: Normalizer, p: Profile, lot: Lot, terms: seq<string>): nat {
    if terms == [] then 0
    else
      Firing(n, p, lot, terms[..|terms| - 1]) + if Fires(n, p, lot, terms[|terms| - 1]) then 1 else 0
  }

  /** How many of them fire and occur in the title. */
  function FiringInTitle(n: Normalizer, p: Profile, lot: Lot, terms: seq<string>): nat {
    if terms == [] then 0
    else
      var last := terms[|terms| - 1];
      FiringInTitle(n, p, lot, terms[..|terms| - 1])
        + if Fires(n, p, lot, last) && ContainsTerm(n, n.text(lot.title), last) then 1 else 0
  }

  function FiringWeight(n: Normalizer, p: Profile, lot: Lot, weighted: seq<Weighted>): int {
    if weighted == [] then 0
    else
      var last := weighted[|weighted| - 1];
      FiringWeight(n, p, lot, weighted[..|weighted| - 1]) + if Fires(n, p, lot, last.term) then last.weight else 0
  }

  /** Two, three and five points a firing term, the firing boosts, one point a title hit, less the firing risks. */
  function NetOf(n: Normalizer, p: Profile, lot: Lot): int {
    var gain := 2 * Firing(n, p, lot, p.any) + 3 * Firing(n, p, lot, p.all) + 5 * Firing(n, p, lot, p.phrases)
      + FiringWeight(n, p, lot, p.boosts)
      + FiringInTitle(n, p, lot, p.any) + FiringInTitle(n, p, lot, p.all) + FiringInTitle(n, p, lot, p.phrases);
    var risk := FiringWeight(n, p, lot, p.risks);
    if gain < risk then 0 else gain - risk
  }

  datatype Gate = Gate(code: Rejection, open: bool)

  /** The gates in the order in which a lot meets them. */
  function Gates(n: Normalizer, p: Profile, lot: Lot): seq<Gate> {
    [ Gate(ProfileDisabled, p.enabled),
      Gate(SourceNotSelected, lot.key.source in p.sources),
      Gate(LotInactive, lot.active),
      Gate(CategoryNotSelected, InCategory(n, p, lot)),
      Gate(ExcludedTerm, !AnyFires(n, p, lot, p.exclude)),
      Gate(MissingRequiredTerms, AllFire(n, p, lot, p.all)),
      Gate(NoPositiveTrigger,
           || AnyFires(n, p, lot, p.any) || AnyFires(n, p, lot, p.phrases)
           || (p.any == [] && p.phrases == [] && p.all != [])),
      Gate(UnknownPrice, KnownPrice(p, lot) || p.price.None? || !p.price.value.excludeUnknown),
      Gate(PriceAboveMaximum, KnownPrice(p, lot) ==> lot.price.value.amount <= p.price.value.maximum),
      Gate(ScoreBelowMinimum, NetOf(n, p, lot) >= p.minimumScore) ]
  }

  predicate InCategory(n: Normalizer, p: Profile, lot: Lot) {
    p.categories == [] || exists c :: c in p.categories && ContainsTerm(n, n.text(lot.category), c)
  }

  predicate KnownPrice(p: Profile, lot: Lot) {
    p.price.Some? && lot.price.Some? && lot.price.value.currency == p.price.value.currency
  }

  lemma {:induction false} RuleForIsFirst(n: Normalizer, rules: seq<ContextRule>, term: string)
    ensures match RuleFor(n, rules, term)
      case Some(rule) => exists k :: 0 <= k < |rules| && rules[k] == rule && n.text(rules[k].term) == n.text(term)
                           && forall j :: 0 <= j < k ==> n.text(rules[j].term) != n.text(term)
      case None => forall k :: 0 <= k < |rules| ==> n.text(rules[k].term) != n.text(term)
  {
    if rules != [] && n.text(rules[0].term) != n.text(term) {
      RuleForIsFirst(n, rules[1..], term);
      assert forall j :: 0 < j < |rules| ==> rules[1..][j - 1] == rules[j];
      if RuleFor(n, rules, term).Some? {
        var k :| 0 <= k < |rules[1..]| && rules[1..][k] == RuleFor(n, rules, term).value
          && n.text(rules[1..][k].term) == n.text(term)
          && forall j :: 0 <= j < k ==> n.text(rules[1..][j].term) != n.text(term);
        forall j | 0 <= j < k + 1 ensures n.text(rules[j].term) != n.text(term) {
          if j > 0 { assert rules[1..][j - 1] == rules[j]; }
        }
        assert rules[k + 1] == RuleFor(n, rules, term).value;
      }
    }
  }

  lemma FiresIsFound(n: Normalizer, p: Profile, lot: Lot, term: string)
    ensures Fires(n, p, lot, term) <==> FindRule(n, TextsOf(n, lot), p.rules, term).Some?
  {
    hide ContainsTerm, RuleFor;
    RuleForIsFirst(n, p.rules, term);
    var rule := RuleFor(n, p.rules, term);
    if rule.Some? {
      var k :| 0 <= k < |p.rules| && p.rules[k] == rule.value && n.text(p.rules[k].term) == n.text(term)
        && forall j :: 0 <= j < k ==> n.text(p.rules[j].term) != n.text(term);
      forall m | 0 <= m < |p.rules| && n.text(p.rules[m].term) == n.text(term)
        && (forall j :: 0 <= j < m ==> n.text(p.rules[j].term) != n.text(term)) ensures m == k {}
    }
  }

  lemma HitsFire(n: Normalizer, p: Profile, lot: Lot, terms: seq<string>)
    ensures Hits(n, TextsOf(n, lot), p.rules, terms) != [] <==> AnyFires(n, p, lot, terms)
    ensures Missing(n, TextsOf(n, lot), p.rules, terms) == [] <==> AllFire(n, p, lot, terms)
  {
    var t := TextsOf(n, lot);
    var hits, missing := Hits(n, t, p.rules, terms), Missing(n, t, p.rules, terms);
    forall x ensures Fires(n, p, lot, x) <==> FindRule(n, t, p.rules, x).Some? { FiresIsFound(n, p, lot, x); }
    if hits != [] { assert hits[0] in hits; }
    if missing != [] { assert missing[0] in missing; }
  }

  /** The first closed gate, or the number of gates when all are open. */
  function FirstClosed(gates: seq<Gate>): (i: nat)
    ensures i <= |gates| && (i < |gates| ==> !gates[i].open)
    ensures forall j :: 0 <= j < i ==> gates[j].open
  {
    if gates == [] || !gates[0].open then 0 else 1 + FirstClosed(gates[1..])
  }

  lemma RequiredHits(n: Normalizer, p: Profile, lot: Lot)
    ensures AllFire(n, p, lot, p.all) ==>
      (Hits(n, TextsOf(n, lot), p.rules, p.all) != [] <==> p.all != [])
  {
    HitsFire(n, p, lot, p.all);
    if p.all != [] { assert p.all[0] in p.all; }
  }

  lemma {:induction false} TitleHitsOfBoth(a: seq<Found>, b: seq<Found>)
    ensures TitleHits(a + b) == TitleHits(a) + TitleHits(b)
  {
    if b == [] {
      assert a + b == a;
    } else {
      assert (a + b)[..|a + b| - 1] == a + b[..|b| - 1];
      TitleHitsOfBoth(a, b[..|b| - 1]);
    }
  }

  lemma OneMoreTitleHit(front: seq<Found>, hit: Found)
    ensures TitleHits(front + [hit]) == TitleHits(front) + if Title in hit.fields then [hit] else []
  {
    var s := front + [hit];
    assert s[..|s| - 1] == front && s[|s| - 1] == hit;
  }

  /** A firing term is found in the title exactly when the title contains it. */
  lemma FoundInTitle(n: Normalizer, p: Profile, lot: Lot, term: string)
    ensures var hit := FindRule(n, TextsOf(n, lot), p.rules, term);
      && (hit.Some? <==> Fires(n, p, lot, term))
      && (hit.Some? ==> (Title in hit.value.fields <==> ContainsTerm(n, n.text(lot.title), term)))
  {
    hide ContainsTerm, ContextAllows, Fires;
    FiresIsFound(n, p, lot, term);
  }

  /** A term list scores by how many of its terms fire, and how many of those in the title. */
  lemma {:induction false} HitsCount(n: Normalizer, p: Profile, lot: Lot, terms: seq<string>)
    ensures var hits := Hits(n, TextsOf(n, lot), p.rules, terms);
      |hits| == Firing(n, p, lot, terms) && |TitleHits(hits)| == FiringInTitle(n, p, lot, terms)
  {
    hide ContainsTerm, ContextAllows, TitleHits, FindRule, TextsOf, Fires;
    if terms == [] {
      NoTitleHits();
    } else {
      var front, last := terms[..|terms| - 1], terms[|terms| - 1];
      HitsCount(n, p, lot, front);
      FoundInTitle(n, p, lot, last);
      var hit := FindRule(n, TextsOf(n, lot), p.rules, last);
      var known := Hits(n, TextsOf(n, lot), p.rules, front);
      if hit.Some? {
        OneMoreTitleHit(known, hit.value);
      } else {
        assert Hits(n, TextsOf(n, lot), p.rules, terms) == known + [] == known;
      }
    }
  }

  lemma NoTitleHits()
    ensures TitleHits([]) == []
  {
  }

  lemma {:induction false} HitsWeigh(n: Normalizer, p: Profile, lot: Lot, hits: seq<Found>, weighted: seq<Weighted>)
    requires forall w :: w in weighted ==> ((exists h :: h in hits && h.term == w.term) <==> Fires(n, p, lot, w.term))
    ensures Weights(hits, weighted) == FiringWeight(n, p, lot, weighted)
  {
    hide Fires;
    if weighted != [] {
      assert weighted[|weighted| - 1] in weighted;
      HitsWeigh(n, p, lot, hits, weighted[..|weighted| - 1]);
    }
  }

  lemma OwnHitsWeigh(n: Normalizer, p: Profile, lot: Lot, weighted: seq<Weighted>)
    ensures Weights(Hits(n, TextsOf(n, lot), p.rules, WeightedTerms(weighted)), weighted)
         == FiringWeight(n, p, lot, weighted)
  {
    var t := TextsOf(n, lot);
    var hits := Hits(n, t, p.rules, WeightedTerms(weighted));
    forall w | w in weighted
      ensures (exists h :: h in hits && h.term == w.term) <==> Fires(n, p, lot, w.term)
    {
      var i :| 0 <= i < |weighted| && weighted[i] == w;
      assert WeightedTerms(weighted)[i] == w.term;
      FiresIsFound(n, p, lot, w.term);
    }
    HitsWeigh(n, p, lot, hits, weighted);
  }

  /** The score is what fires, weighed: nothing else of the lot or the profile enters it. */
  lemma ScoreIsNet(n: Normalizer, p: Profile, lot: Lot)
    ensures Score(p, EvidenceOf(n, p, lot)) == NetOf(n, p, lot)
    ensures Evaluate(n, p, lot).matched ==> Evaluate(n, p, lot).score == NetOf(n, p, lot)
  {
    HitsCount(n, p, lot, p.any);
    HitsCount(n, p, lot, p.all);
    HitsCount(n, p, lot, p.phrases);
    OwnHitsWeigh(n, p, lot, p.boosts);
    OwnHitsWeigh(n, p, lot, p.risks);
    hide Hits, Weights, Firing, FiringInTitle, FiringWeight, TitleHits, Missing, Collect, Terms, Triggered, WellHits,
      CategorySelected, AddAll, ContainsTerm, TextsOf, PriceRejection;
    var e := EvidenceOf(n, p, lot);
    TitleHitsOfBoth(e.any + e.all, e.phrases);
    TitleHitsOfBoth(e.any, e.all);
  }

  // ----- The decision

  /** The result accepts when all gates are open, and otherwise names the first closed one. */
  predicate Decides(r: MatchResult, gates: seq<Gate>) {
    && (r.matched <==> forall i :: 0 <= i < |gates| ==> gates[i].open)
    && var i := FirstClosed(gates); r.rejections == if i < |gates| then [gates[i].code] else []
  }

  lemma OpenGate(r: MatchResult, gates: seq<Gate>)
    requires gates != [] && gates[0].open && Decides(r, gates[1..])
    ensures Decides(r, gates)
  {
    assert forall i :: 0 < i < |gates| ==> gates[1..][i - 1] == gates[i];
  }

  lemma ClosedGate(r: MatchResult, gates: seq<Gate>)
    requires gates != [] && !gates[0].open && !r.matched && r.rejections == [gates[0].code]
    ensures Decides(r, gates)
  {
  }

  lemma NoGate(r: MatchResult)
    requires r.matched && r.rejections == []
    ensures Decides(r, [])
  {
  }

  /** Either the first gate is closed and named, or the rest of them decide. */
  lemma NextGate(r: MatchResult, gates: seq<Gate>)
    requires gates != []
    requires if gates[0].open then Decides(r, gates[1..]) else !r.matched && r.rejections == [gates[0].code]
    ensures Decides(r, gates)
  {
    if gates[0].open { OpenGate(r, gates); } else { ClosedGate(r, gates); }
  }

  lemma PriceGates(n: Normalizer, p: Profile, lot: Lot, r: MatchResult)
    requires var rejection := PriceRejection(p, lot);
      var rejections := if rejection.Some? then [rejection.value]
                        else if NetOf(n, p, lot) < p.minimumScore then [ScoreBelowMinimum] else [];
      r.rejections == rejections && (r.matched <==> rejections == [])
    ensures Decides(r, Gates(n, p, lot)[7..])
  {
    hide NetOf, Fires, AnyFires, ContainsTerm, Decides;
    var g := Gates(n, p, lot)[7..];
    assert g[1..][1..][1..] == [] && g[1..][0] == g[1] && g[1..][1..][0] == g[2];
    if g[0].open && g[1].open && g[2].open { NoGate(r); }
    if g[0].open && g[1].open { NextGate(r, g[1..][1..]); }
    if g[0].open { NextGate(r, g[1..]); }
    NextGate(r, g);
  }

  lemma PositiveGates(n: Normalizer, p: Profile, lot: Lot)
    ensures Decides(EvaluatePositive(n, p, lot), Gates(n, p, lot)[5..])
  {
    HitsFire(n, p, lot, p.any);
    HitsFire(n, p, lot, p.all);
    HitsFire(n, p, lot, p.phrases);
    RequiredHits(n, p, lot);
    ScoreIsNet(n, p, lot);
    hide Fires, ContainsTerm, FindRule, Hits, Missing, NetScore, Weights, ContextAllows, AddAll, WellHits, WellFound,
      Collect, AnyFires, FirstClosed, Terms, NetOf, PriceRejection, Decides, Score;
    var r, g := EvaluatePositive(n, p, lot), Gates(n, p, lot)[5..];
    assert g[1..][1..] == Gates(n, p, lot)[7..] && g[1..][0] == g[1];
    if g[0].open && g[1].open { PriceGates(n, p, lot, r); }
    if g[0].open { NextGate(r, g[1..]); }
    NextGate(r, g);
  }

  /** A lot is accepted exactly when every gate is open; otherwise the one rejection code is
      that of the first closed gate. */
  lemma FirstClosedGateDecides(n: Normalizer, p: Profile, lot: Lot)
    ensures Decides(Evaluate(n, p, lot), Gates(n, p, lot))
  {
    HitsFire(n, p, lot, p.exclude);
    PositiveGates(n, p, lot);
    hide Fires, ContainsTerm, FindRule, Hits, ContextAllows, AddAll, WellHits, WellFound, AnyFires, FirstClosed, Terms,
      NetOf, Decides, EvaluatePositive;
    var r, g := Evaluate(n, p, lot), Gates(n, p, lot);
    assert g[1..][1..] == g[2..] && g[2..][1..] == g[3..] && g[3..][1..] == g[4..] && g[4..][1..] == g[5..];
    if g[0].open && g[1].open && g[2].open && g[3].open { NextGate(r, g[4..]); }
    if g[0].open && g[1].open && g[2].open { NextGate(r, g[3..]); }
    if g[0].open && g[1].open { NextGate(r, g[2..]); }
    if g[0].open { NextGate(r, g[1..]); }
    NextGate(r, g);
  }

  lemma ExclusionLeavesTheScore(n: Normalizer, p: Profile, q: Profile, lot: Lot)
    requires q == p.(exclude := q.exclude)
    ensures NetOf(n, q, lot) == NetOf(n, p, lot)
  {
    hide NetOf, Hits, Weights, NetScore, Evaluate;
    ScoreIsNet(n, p, lot);
    ScoreIsNet(n, q, lot);
  }

  lemma ExclusionLeavesOtherGates(n: Normalizer, p: Profile, q: Profile, lot: Lot)
    requires q == p.(exclude := q.exclude)
    ensures |Gates(n, p, lot)| == |Gates(n, q, lot)| == 10
    ensures forall i :: 0 <= i < 10 && i != 4 ==> Gates(n, q, lot)[i] == Gates(n, p, lot)[i]
  {
    hide Fires, AnyFires, AllFire, InCategory, KnownPrice, NetOf;
    ExclusionLeavesTheScore(n, p, q, lot);
    SameTermsFire(n, p, q, lot, p.any);
    SameTermsFire(n, p, q, lot, p.all);
    SameTermsFire(n, p, q, lot, p.phrases);
    SameCategoryAndPrice(n, p, q, lot);
  }

  lemma SameCategoryAndPrice(n: Normalizer, p: Profile, q: Profile, lot: Lot)
    requires q == p.(exclude := q.exclude)
    ensures InCategory(n, q, lot) == InCategory(n, p, lot) && KnownPrice(q, lot) == KnownPrice(p, lot)
  {
  }

  /** The gate an added exclusion closes is the fifth, exactly where the term fires. */
  lemma ExclusionClosesItsGate(n: Normalizer, p: Profile, q: Profile, lot: Lot, term: string)
    requires q == p.(exclude := p.exclude + [term])
    ensures Gates(n, q, lot)[4].open <==> Gates(n, p, lot)[4].open && !Fires(n, p, lot, term)
  {
    hide Fires, AnyFires, AllFire, InCategory, KnownPrice, NetOf;
    OneMoreFires(n, p, lot, p.exclude, term);
    SameTermsFire(n, p, q, lot, q.exclude);
  }

  lemma SameTermsFire(n: Normalizer, p: Profile, q: Profile, lot: Lot, terms: seq<string>)
    requires p.rules == q.rules
    ensures AnyFires(n, p, lot, terms) == AnyFires(n, q, lot, terms)
    ensures AllFire(n, p, lot, terms) == AllFire(n, q, lot, terms)
  {
    SameFiring(n, p, q, lot);
    hide Fires;
  }

  lemma OneMoreFires(n: Normalizer, p: Profile, lot: Lot, terms: seq<string>, term: string)
    ensures AnyFires(n, p, lot, terms + [term]) <==> AnyFires(n, p, lot, terms) || Fires(n, p, lot, term)
  {
    hide Fires;
    assert term in terms + [term];
    if AnyFires(n, p, lot, terms) {
      var x :| x in terms && Fires(n, p, lot, x);
      assert x in terms + [term];
    }
  }

  /** Adding an exclusion rejects exactly the lots on which it fires and changes no other decision. */
  lemma ExclusionOnlyRejects(n: Normalizer, p: Profile, lot: Lot, term: string)
    ensures Evaluate(n, p.(exclude := p.exclude + [term]), lot).matched <==>
      Evaluate(n, p, lot).matched && !Fires(n, p, lot, term)
  {
    hide Fires, Evaluate, Gates;
    var q := p.(exclude := p.exclude + [term]);
    FirstClosedGateDecides(n, p, lot);
    FirstClosedGateDecides(n, q, lot);
    ExclusionLeavesOtherGates(n, p, q, lot);
    ExclusionClosesItsGate(n, p, q, lot, term);
    var before, after := Gates(n, p, lot), Gates(n, q, lot);
  }

  lemma SameFiring(n: Normalizer, p: Profile, q: Profile, lot: Lot)
    requires p.rules == q.rules
    ensures forall x :: Fires(n, p, lot, x) <==> Fires(n, q, lot, x)
  {
  }

  predicate NoneBlank(u: Unicode, terms: seq<string>) { forall x :: x in terms ==> Strip(u, x) != "" }

  /** What the profile's own validators guarantee of its term lists, as far as results depend on it. */
  predicate ValidTerms(u: Unicode, n: Normalizer, p: Profile) {
    && NoneBlank(u, p.any) && NoneBlank(u, p.all) && NoneBlank(u, p.phrases) && NoneBlank(u, p.exclude)
    && NoneBlank(u, WeightedTerms(p.boosts)) && DistinctTerms(n, p.all)
  }

  /** The validators of the program's match result. */
  predicate ValidResult(u: Unicode, n: Normalizer, r: MatchResult) {
    && r.score >= 0
    && NoneBlank(u, r.matchedTerms) && NoneBlank(u, r.excludedTerms) && NoneBlank(u, r.missing)
    && DistinctTerms(n, r.matchedTerms) && DistinctTerms(n, r.excludedTerms) && DistinctTerms(n, r.missing)
    && (forall f :: f in r.fields ==>
          f.fields != [] && NoDuplicates(f.fields) && (f.term in r.matchedTerms || f.term in r.excludedTerms))
    && (r.matched ==> r.matchedTerms != [] && r.rejections == [] && r.excludedTerms == [] && r.missing == [])
    && (!r.matched ==> r.rejections != [])
  }

  lemma {:induction false} FilterKeepsDistinct(n: Normalizer, keep: string -> bool, terms: seq<string>)
    requires DistinctTerms(n, terms)
    ensures DistinctTerms(n, Filter(keep, terms))
  {
    if terms != [] {
      var front := terms[..|terms| - 1];
      FilterKeepsDistinct(n, keep, front);
      var kept := Filter(keep, front);
      forall i | 0 <= i < |kept| ensures n.text(kept[i]) != n.text(terms[|terms| - 1]) {
        assert kept[i] in front;
        var j :| 0 <= j < |front| && front[j] == kept[i];
        assert terms[j] == kept[i];
      }
    }
  }

  lemma FieldTermsListed(found: seq<Found>)
    ensures forall f :: f in found ==> f.term in Terms(found)
  {
    forall f | f in found ensures f.term in Terms(found) {
      var i :| 0 <= i < |found| && found[i] == f;
      assert Terms(found)[i] == f.term;
    }
  }

  // ----- Every listed term is one of the profile's

  predicate Within(found: seq<Found>, terms: set<string>) { forall f :: f in found ==> f.term in terms }

  lemma {:induction false} AddedWithin(n: Normalizer, found: seq<Found>, hits: seq<Found>, terms: set<string>)
    requires WellFound(n, found) && WellHits(hits) && Within(found, terms) && Within(hits, terms)
    ensures Within(AddAll(n, found, hits), terms)
  {
    hide WellFound, Position;
    if hits != [] {
      var front, last := hits[..|hits| - 1], hits[|hits| - 1];
      assert last in hits;
      AddedWithin(n, found, front, terms);
    }
  }

  lemma CollectedWithin(
    n: Normalizer, any: seq<Found>, all: seq<Found>, phrases: seq<Found>, boosts: seq<Found>, terms: set<string>)
    requires WellHits(any) && WellHits(all) && WellHits(phrases) && WellHits(boosts)
    requires Within(any, terms) && Within(all, terms) && Within(phrases, terms) && Within(boosts, terms)
    ensures Within(Collect(n, any, all, phrases, boosts), terms)
  {
    hide AddAll, Within, WellFound;
    NothingWell(n);
    var one := AddAll(n, [], any);
    var two := AddAll(n, one, all);
    var three := AddAll(n, two, phrases);
    assert Within([], terms) by { NothingWithin(terms); }
    AddedWithin(n, [], any, terms);
    AddedWithin(n, one, all, terms);
    AddedWithin(n, two, phrases, terms);
    AddedWithin(n, three, boosts, terms);
  }

  lemma NothingWithin(terms: set<string>)
    ensures Within([], terms)
  {
  }

  function OwnTerms(p: Profile): set<string> {
    SetOf(p.any + p.all + p.phrases + p.exclude + WeightedTerms(p.boosts))
  }

  lemma HitsWithin(n: Normalizer, t: Texts, rules: seq<ContextRule>, terms: seq<string>, all: set<string>)
    requires forall x :: x in terms ==> x in all
    ensures Within(Hits(n, t, rules, terms), all)
  {
  }

  lemma TermsWithin(found: seq<Found>, all: set<string>)
    requires Within(found, all)
    ensures forall x :: x in Terms(found) ==> x in all
  {
    forall x | x in Terms(found) ensures x in all {
      var i :| 0 <= i < |found| && Terms(found)[i] == x;
      assert found[i] in found;
    }
  }

  /** A result lists no term that the profile does not. */
  lemma ResultsListOwnTerms(n: Normalizer, p: Profile, lot: Lot)
    ensures var r := Evaluate(n, p, lot);
      forall x :: x in r.matchedTerms + r.excludedTerms + r.missing ==> x in OwnTerms(p)
  {
    hide ContainsTerm, FindRule, Hits, NetScore, Weights, ContextAllows, AddAll, CategorySelected, PriceRejection,
      TextsOf, WellHits, Collect, Terms, Within, Missing, Triggered, Score, WeightedTerms, SetOf;
    var t, e, r, own := TextsOf(n, lot), EvidenceOf(n, p, lot), Evaluate(n, p, lot), OwnTerms(p);
    OwnTermsAreOwn(p);
    OwnHits(n, t, p, p.exclude);
    OwnHits(n, t, p, p.any);
    OwnHits(n, t, p, p.all);
    OwnHits(n, t, p, p.phrases);
    OwnHits(n, t, p, WeightedTerms(p.boosts));
    NothingWithin(own);
    NothingWell(n);
    AddedWithin(n, [], Hits(n, t, p.rules, p.exclude), own);
    CollectedWithin(n, e.any, e.all, e.phrases, [], own);
    CollectedWithin(n, e.any, e.all, e.phrases, e.boosts, own);
    TermsWithin(r.fields, own);
  }

  lemma OwnHits(n: Normalizer, t: Texts, p: Profile, terms: seq<string>)
    requires forall x :: x in terms ==> x in OwnTerms(p)
    ensures WellHits(Hits(n, t, p.rules, terms)) && Within(Hits(n, t, p.rules, terms), OwnTerms(p))
  {
    HitsAreWell(n, t, p.rules, terms);
    HitsWithin(n, t, p.rules, terms, OwnTerms(p));
  }

  lemma OwnTermsAreOwn(p: Profile)
    ensures forall x :: x in p.any || x in p.all || x in p.phrases || x in p.exclude || x in WeightedTerms(p.boosts) ==>
      x in OwnTerms(p)
  {
  }

  lemma NothingWell(n: Normalizer)
    ensures WellFound(n, []) && WellHits([])
  {
  }

  lemma OwnTermsNotBlank(u: Unicode, n: Normalizer, p: Profile)
    requires ValidTerms(u, n, p)
    ensures forall x :: x in OwnTerms(p) ==> Strip(u, x) != ""
  {
  }

  /** Every evaluation of a profile with valid term lists passes the result validators. */
  lemma ResultsAreValid(u: Unicode, n: Normalizer, p: Profile, lot: Lot)
    requires ValidTerms(u, n, p)
    ensures ValidResult(u, n, Evaluate(n, p, lot))
  {
    hide ContainsTerm, FindRule, Hits, NetScore, Weights, ContextAllows, AddAll, CategorySelected, PriceRejection,
      TextsOf, WellHits, Strip, OwnTerms, WeightedTerms;
    var t, e, r := TextsOf(n, lot), EvidenceOf(n, p, lot), Evaluate(n, p, lot);
    ResultsListOwnTerms(n, p, lot);
    OwnTermsNotBlank(u, n, p);
    FieldTermsListed(r.fields);
    FilterKeepsDistinct(n, (x: string) => FindRule(n, t, p.rules, x).None?, p.all);
    HitsAreWell(n, t, p.rules, p.exclude);
    HitsAreWell(n, t, p.rules, p.any);
    HitsAreWell(n, t, p.rules, p.all);
    HitsAreWell(n, t, p.rules, p.phrases);
    HitsAreWell(n, t, p.rules, WeightedTerms(p.boosts));
    assert Triggered(p, e) ==> e.any + e.all + e.phrases != [];
  }
}
