/** Deterministic matching of one lot against one search profile. */
module Matching {
  import opened Wrappers
  import opened Sequences
  import opened Domain
  import opened Normalization

  const ANY_SCORE := 2
  const ALL_SCORE := 3
  const EXACT_PHRASE_SCORE := 5
  const TITLE_BONUS := 1

  datatype ContextRule = ContextRule(term: string, requiredAny: seq<string>, excludedAny: seq<string>)
  datatype Weighted = Weighted(term: string, weight: int)
  datatype PriceFilter = PriceFilter(maximum: real, currency: string, excludeUnknown: bool)

  datatype Profile = Profile(
    id: string, enabled: bool, sources: seq<string>, categories: seq<string>,
    exclude: seq<string>, any: seq<string>, all: seq<string>, phrases: seq<string>,
    boosts: seq<Weighted>, risks: seq<Weighted>, rules: seq<ContextRule>,
    minimumScore: nat, price: Option<PriceFilter>)

  datatype Field = Title | Description | Category
  datatype Texts = Texts(title: string, description: string, category: string)
  {
    function Whole(): string { title + " " + description + " " + category }
  }

  datatype Found = Found(term: string, fields: seq<Field>)

  datatype Rejection =
    | ProfileDisabled | SourceNotSelected | LotInactive | CategoryNotSelected | ExcludedTerm
    | MissingRequiredTerms | NoPositiveTrigger | UnknownPrice | PriceAboveMaximum | ScoreBelowMinimum

  datatype MatchResult = MatchResult(
    matched: bool, score: int, matchedTerms: seq<string>, excludedTerms: seq<string>,
    missing: seq<string>, fields: seq<Found>, rejections: seq<Rejection>)

  function TextsOf(n: Normalizer, lot: Lot): Texts {
    Texts(n.text(lot.title), n.text(lot.description), n.text(lot.category))
  }

  function MatchedFields(n: Normalizer, t: Texts, term: string): seq<Field> {
    (if ContainsTerm(n, t.title, term) then [Title] else [])
    + (if ContainsTerm(n, t.description, term) then [Description] else [])
    + (if ContainsTerm(n, t.category, term) then [Category] else [])
  }

  /** The first context rule for the term, compared after normalisation. */
  function RuleFor(n: Normalizer, rules: seq<ContextRule>, term: string): Option<ContextRule> {
    if rules == [] then None
    else if n.text(rules[0].term) == n.text(term) then Some(rules[0])
    else RuleFor(n, rules[1..], term)
  }

  predicate ContextAllows(n: Normalizer, t: Texts, rules: seq<ContextRule>, term: string) {
    var rule := RuleFor(n, rules, term);
    rule.Some? ==>
      && (rule.value.requiredAny != [] ==> exists x :: x in rule.value.requiredAny && ContainsTerm(n, t.Whole(), x))
      && (forall x :: x in rule.value.excludedAny ==> !ContainsTerm(n, t.Whole(), x))
  }

  function FindRule(n: Normalizer, t: Texts, rules: seq<ContextRule>, term: string): (r: Option<Found>)
    ensures r.Some? ==> r.value.term == term && r.value.fields != []
  {
    var fields := MatchedFields(n, t, term);
    if fields != [] && ContextAllows(n, t, rules, term) then Some(Found(term, fields)) else None
  }

  // ----- Collected hits: an insertion-ordered dictionary keyed by the normalised term

  function Merge(known: seq<Field>, extra: seq<Field>): (r: seq<Field>)
    requires NoDuplicates(known)
    ensures NoDuplicates(r) && |r| >= |known|
    ensures forall f :: f in r <==> f in known || f in extra
  {
    if extra == [] then known
    else
      var front := Merge(known, extra[..|extra| - 1]);
      assert extra == extra[..|extra| - 1] + [extra[|extra| - 1]];
      if extra[|extra| - 1] in front then front else front + [extra[|extra| - 1]]
  }

  function Position(n: Normalizer, found: seq<Found>, term: string): (i: nat)
    ensures i <= |found|
    ensures i < |found| ==> n.text(found[i].term) == n.text(term)
    ensures forall j :: 0 <= j < i ==> n.text(found[j].term) != n.text(term)
  {
    if found == [] then 0
    else if n.text(found[0].term) == n.text(term) then 0
    else 1 + Position(n, found[1..], term)
  }

  function AddFound(n: Normalizer, found: seq<Found>, hit: Found): seq<Found>
    requires WellFound(n, found)
  {
    var i := Position(n, found, hit.term);
    if i == |found| then found + [hit]
    else found[i := Found(found[i].term, Merge(found[i].fields, hit.fields))]
  }

  predicate DistinctTerms(n: Normalizer, terms: seq<string>) {
    forall i, j :: 0 <= i < j < |terms| ==> n.text(terms[i]) != n.text(terms[j])
  }

  /** Distinct terms, each with a non-empty field list without repetitions. */
  predicate WellFound(n: Normalizer, found: seq<Found>) {
    && DistinctTerms(n, Terms(found))
    && forall f :: f in found ==> f.fields != [] && NoDuplicates(f.fields)
  }

  function Terms(found: seq<Found>): (r: seq<string>)
    ensures |r| == |found|
    ensures forall i :: 0 <= i < |found| ==> r[i] == found[i].term
  { Map((f: Found) => f.term, found) }

  lemma AddFoundKeepsWellFound(n: Normalizer, found: seq<Found>, hit: Found)
    requires WellFound(n, found) && hit.fields != [] && NoDuplicates(hit.fields)
    ensures WellFound(n, AddFound(n, found, hit)) && AddFound(n, found, hit) != []
  {
    var i := Position(n, found, hit.term);
    if i < |found| { assert found[i] in found; }
  }

  lemma FieldsDistinct(n: Normalizer, t: Texts, term: string)
    ensures NoDuplicates(MatchedFields(n, t, term))
  {
  }

  /** The hits of a term list, in its order. */
  function Hits(n: Normalizer, t: Texts, rules: seq<ContextRule>, terms: seq<string>): (hits: seq<Found>)
    ensures forall h :: h in hits ==> h.term in terms && FindRule(n, t, rules, h.term) == Some(h)
    ensures forall x :: x in terms && FindRule(n, t, rules, x).Some? ==> FindRule(n, t, rules, x).value in hits
  {
    if terms == [] then []
    else
      var hit := FindRule(n, t, rules, terms[|terms| - 1]);
      assert terms == terms[..|terms| - 1] + [terms[|terms| - 1]];
      Hits(n, t, rules, terms[..|terms| - 1]) + (if hit.Some? then [hit.value] else [])
  }

  function Missing(n: Normalizer, t: Texts, rules: seq<ContextRule>, terms: seq<string>): (missing: seq<string>)
    ensures forall x :: x in missing <==> x in terms && FindRule(n, t, rules, x).None?
  {
    Filter((x: string) => FindRule(n, t, rules, x).None?, terms)
  }

  function AddAll(n: Normalizer, found: seq<Found>, hits: seq<Found>): (r: seq<Found>)
    requires WellFound(n, found) && forall h :: h in hits ==> h.fields != [] && NoDuplicates(h.fields)
    ensures WellFound(n, r) && (hits != [] ==> r != []) && (found != [] ==> r != [])
  {
    if hits == [] then found
    else
      var front := AddAll(n, found, hits[..|hits| - 1]);
      AddFoundKeepsWellFound(n, front, hits[|hits| - 1]);
      AddFound(n, front, hits[|hits| - 1])
  }

  // ----- The evaluation

  function Weights(hits: seq<Found>, weighted: seq<Weighted>): int {
    if weighted == [] then 0
    else
      var last := weighted[|weighted| - 1];
      Weights(hits, weighted[..|weighted| - 1])
        + (if exists h :: h in hits && h.term == last.term then last.weight else 0)
  }

  function TitleHits(hits: seq<Found>): seq<Found> { Filter((h: Found) => Title in h.fields, hits) }

  function WeightedTerms(w: seq<Weighted>): seq<string> { Map((x: Weighted) => x.term, w) }

  /** All the hits of one evaluation. */
  datatype Evidence = Evidence(
    any: seq<Found>, all: seq<Found>, phrases: seq<Found>, boosts: seq<Found>, risks: seq<Found>)

  function EvidenceOf(n: Normalizer, p: Profile, lot: Lot): Evidence {
    var t := TextsOf(n, lot);
    Evidence(Hits(n, t, p.rules, p.any), Hits(n, t, p.rules, p.all), Hits(n, t, p.rules, p.phrases),
             Hits(n, t, p.rules, WeightedTerms(p.boosts)), Hits(n, t, p.rules, WeightedTerms(p.risks)))
  }

  function NetScore(any: seq<Found>, all: seq<Found>, phrases: seq<Found>, boost: int, risk: int): (score: int)
    ensures score >= 0
  {
    var gain := ANY_SCORE * |any| + ALL_SCORE * |all| + EXACT_PHRASE_SCORE * |phrases| + boost
                + TITLE_BONUS * |TitleHits(any + all + phrases)|;
    if gain - risk < 0 then 0 else gain - risk
  }

  /** The weighted sum of what was found, less the risks, and never below zero. */
  function Score(p: Profile, e: Evidence): (score: int)
    ensures score >= 0
  {
    NetScore(e.any, e.all, e.phrases, Weights(e.boosts, p.boosts), Weights(e.risks, p.risks))
  }

  function PriceRejection(p: Profile, lot: Lot): Option<Rejection> {
    if p.price.None? then None
    else if lot.price.None? || lot.price.value.currency != p.price.value.currency then
      if p.price.value.excludeUnknown then Some(UnknownPrice) else None
    else if lot.price.value.amount > p.price.value.maximum then Some(PriceAboveMaximum)
    else None
  }

  function Rejected(reason: Rejection): MatchResult {
    MatchResult(false, 0, [], [], [], [], [reason])
  }

  predicate WellHits(hits: seq<Found>) {
    forall h :: h in hits ==> h.fields != [] && NoDuplicates(h.fields)
  }

  lemma HitsAreWell(n: Normalizer, t: Texts, rules: seq<ContextRule>, terms: seq<string>)
    ensures WellHits(Hits(n, t, rules, terms))
  {
    forall h | h in Hits(n, t, rules, terms) ensures h.fields != [] && NoDuplicates(h.fields) {
      FieldsDistinct(n, t, h.term);
    }
  }

  /** Every term found, in the order of the program's loops. */
  function Collect(n: Normalizer, any: seq<Found>, all: seq<Found>, phrases: seq<Found>, boosts: seq<Found>)
    : (found: seq<Found>)
    requires WellHits(any) && WellHits(all) && WellHits(phrases) && WellHits(boosts)
    ensures WellFound(n, found) && (any + all + phrases != [] ==> found != [])
  {
    AddAll(n, AddAll(n, AddAll(n, AddAll(n, [], any), all), phrases), boosts)
  }

  predicate Triggered(p: Profile, e: Evidence) {
    e.any != [] || e.phrases != [] || (e.all != [] && p.any == [] && p.phrases == [])
  }

  predicate CategorySelected(n: Normalizer, p: Profile, t: Texts) {
    p.categories == [] || exists c :: c in p.categories && ContainsTerm(n, t.category, c)
  }

  /** The evaluation once no exclusion fired. */
  function EvaluatePositive(n: Normalizer, p: Profile, lot: Lot): MatchResult {
    var t, e := TextsOf(n, lot), EvidenceOf(n, p, lot);
    var missing := Missing(n, t, p.rules, p.all);
    HitsAreWell(n, t, p.rules, p.any);
    HitsAreWell(n, t, p.rules, p.all);
    HitsAreWell(n, t, p.rules, p.phrases);
    HitsAreWell(n, t, p.rules, WeightedTerms(p.boosts));
    var positive := Collect(n, e.any, e.all, e.phrases, []);
    if missing != [] then MatchResult(false, 0, Terms(positive), [], missing, positive, [MissingRequiredTerms])
    else if !Triggered(p, e) then MatchResult(false, 0, Terms(positive), [], [], positive, [NoPositiveTrigger])
    else
      var found := Collect(n, e.any, e.all, e.phrases, e.boosts);
      var rejection := PriceRejection(p, lot);
      var rejections := if rejection.Some? then [rejection.value]
                        else if Score(p, e) < p.minimumScore then [ScoreBelowMinimum] else [];
      MatchResult(rejections == [], Score(p, e), Terms(found), [], [], found, rejections)
  }

  /** The evaluation of one lot against one profile. */
  function Evaluate(n: Normalizer, p: Profile, lot: Lot): MatchResult {
    var t := TextsOf(n, lot);
    if !p.enabled then Rejected(ProfileDisabled)
    else if lot.key.source !in p.sources then Rejected(SourceNotSelected)
    else if !lot.active then Rejected(LotInactive)
    else if !CategorySelected(n, p, t) then Rejected(CategoryNotSelected)
    else
      var excludedHits := Hits(n, t, p.rules, p.exclude);
      if excludedHits != [] then
        HitsAreWell(n, t, p.rules, p.exclude);
        var excluded := AddAll(n, [], excludedHits);
        MatchResult(false, 0, [], Terms(excluded), [], excluded, [ExcludedTerm])
      else EvaluatePositive(n, p, lot)
  }

  // ----- The loops

  method CollectHits(n: Normalizer, t: Texts, rules: seq<ContextRule>, terms: seq<string>, found: seq<Found>)
      returns (hits: seq<Found>, missing: seq<string>, merged: seq<Found>)
    requires WellFound(n, found)
    ensures hits == Hits(n, t, rules, terms) && missing == Missing(n, t, rules, terms)
    ensures WellHits(hits) && merged == AddAll(n, found, hits)
  {
    hide ContextAllows, MatchedFields, AddFound, WellFound;
    hits, missing, merged := [], [], found;
    for i := 0 to |terms|
      invariant hits == Hits(n, t, rules, terms[..i]) && missing == Missing(n, t, rules, terms[..i])
      invariant WellHits(hits) && merged == AddAll(n, found, hits)
    {
      assert terms[..i + 1][..i] == terms[..i];
      var rule := FindRule(n, t, rules, terms[i]);
      if rule.Some? {
        FieldsDistinct(n, t, terms[i]);
        var more := hits + [rule.value];
        assert more[..|more| - 1] == hits;
        assert WellHits(more);
        merged := AddFound(n, merged, rule.value);
        hits := more;
      } else {
        missing := missing + [terms[i]];
      }
    }
    assert terms[..|terms|] == terms;
  }

  method TotalWeight(n: Normalizer, t: Texts, rules: seq<ContextRule>, weighted: seq<Weighted>) returns (sum: int)
    ensures sum == Weights(Hits(n, t, rules, WeightedTerms(weighted)), weighted)
  {
    hide ContextAllows, MatchedFields;
    sum := 0;
    ghost var hits := Hits(n, t, rules, WeightedTerms(weighted));
    for i := 0 to |weighted|
      invariant sum == Weights(hits, weighted[..i])
    {
      assert weighted[..i + 1][..i] == weighted[..i];
      assert WeightedTerms(weighted)[i] in WeightedTerms(weighted);
      if FindRule(n, t, rules, weighted[i].term).Some? { sum := sum + weighted[i].weight; }
    }
    assert weighted[..|weighted|] == weighted;
  }

  method MatchPositive(n: Normalizer, p: Profile, lot: Lot) returns (result: MatchResult)
    ensures result == EvaluatePositive(n, p, lot)
  {
    hide NetScore, Hits, Missing, Weights, Terms, WellHits, PriceRejection, TextsOf;
    var t := TextsOf(n, lot);
    var any, anyMissing, withAny := CollectHits(n, t, p.rules, p.any, []);
    var all, missing, withAll := CollectHits(n, t, p.rules, p.all, withAny);
    var phrases, phrasesMissing, positive := CollectHits(n, t, p.rules, p.phrases, withAll);
    if missing != [] {
      return MatchResult(false, 0, Terms(positive), [], missing, positive, [MissingRequiredTerms]);
    }
    if any == [] && phrases == [] && !(all != [] && p.any == [] && p.phrases == []) {
      return MatchResult(false, 0, Terms(positive), [], [], positive, [NoPositiveTrigger]);
    }
    var boosts, boostsMissing, found := CollectHits(n, t, p.rules, WeightedTerms(p.boosts), positive);
    var boost := TotalWeight(n, t, p.rules, p.boosts);
    var risk := TotalWeight(n, t, p.rules, p.risks);
    var score := NetScore(any, all, phrases, boost, risk);
    var rejection := PriceRejection(p, lot);
    if rejection.Some? {
      return MatchResult(false, score, Terms(found), [], [], found, [rejection.value]);
    }
    if score < p.minimumScore {
      return MatchResult(false, score, Terms(found), [], [], found, [ScoreBelowMinimum]);
    }
    return MatchResult(true, score, Terms(found), [], [], found, []);
  }

  method MatchLot(n: Normalizer, p: Profile, lot: Lot) returns (result: MatchResult)
    ensures result == Evaluate(n, p, lot)
  {
    if !p.enabled { return Rejected(ProfileDisabled); }
    if lot.key.source !in p.sources { return Rejected(SourceNotSelected); }
    if !lot.active { return Rejected(LotInactive); }
    var t := TextsOf(n, lot);
    if !CategorySelected(n, p, t) { return Rejected(CategoryNotSelected); }
    var hits, missing, excluded := CollectHits(n, t, p.rules, p.exclude, []);
    if excluded != [] {
      return MatchResult(false, 0, [], Terms(excluded), [], excluded, [ExcludedTerm]);
    }
    result := MatchPositive(n, p, lot);
  }
}
