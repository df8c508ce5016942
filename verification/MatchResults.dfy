/** What a match result reports: every term that fired, where it was found, and what was missing. */
module MatchResults {
  import opened Wrappers
  import opened Sequences
  import opened Domain
  import opened Normalization
  import opened Matching
  import opened MatchingTheorems

  predicate HasField(n: Normalizer, hits: seq<Found>, term: string, field: Field) {
    exists h :: h in hits && n.text(h.term) == n.text(term) && field in h.fields
  }

  predicate IsListed(n: Normalizer, found: seq<Found>, term: string) {
    exists f :: f in found && n.text(f.term) == n.text(term)
  }

  /** The finding bears a hit's term, and just the fields of the hits of that term. */
  ghost predicate Tells(n: Normalizer, f: Found, hits: seq<Found>) {
    && (exists h :: h in hits && h.term == f.term)
    && forall field :: field in f.fields <==> HasField(n, hits, f.term, field)
  }

  ghost predicate Sums(n: Normalizer, found: seq<Found>, hits: seq<Found>) {
    (forall h :: h in hits ==> IsListed(n, found, h.term)) && forall f :: f in found ==> Tells(n, f, hits)
  }

  lemma HasFieldMore(n: Normalizer, hits: seq<Found>, hit: Found, term: string, field: Field)
    ensures HasField(n, hits + [hit], term, field) <==>
      HasField(n, hits, term, field) || (n.text(hit.term) == n.text(term) && field in hit.fields)
  {
    assert forall h :: h in hits + [hit] <==> h in hits || h == hit;
  }

  lemma StillTells(n: Normalizer, f: Found, hits: seq<Found>, hit: Found)
    requires Tells(n, f, hits) && n.text(f.term) != n.text(hit.term)
    ensures Tells(n, f, hits + [hit])
  {
    hide HasField;
    forall field ensures field in f.fields <==> HasField(n, hits + [hit], f.term, field) {
      HasFieldMore(n, hits, hit, f.term, field);
    }
    var h :| h in hits && h.term == f.term;
    assert h in hits + [hit];
  }

  lemma MergedTells(n: Normalizer, f: Found, hits: seq<Found>, hit: Found)
    requires Tells(n, f, hits) && n.text(f.term) == n.text(hit.term) && NoDuplicates(f.fields)
    ensures Tells(n, Found(f.term, Merge(f.fields, hit.fields)), hits + [hit])
  {
    hide HasField;
    var merged := Found(f.term, Merge(f.fields, hit.fields));
    forall field ensures field in merged.fields <==> HasField(n, hits + [hit], f.term, field) {
      HasFieldMore(n, hits, hit, f.term, field);
    }
    var h :| h in hits && h.term == f.term;
    assert h in hits + [hit];
  }

  lemma NewTells(n: Normalizer, hits: seq<Found>, hit: Found)
    requires forall h :: h in hits ==> n.text(h.term) != n.text(hit.term)
    ensures Tells(n, hit, hits + [hit])
  {
    forall field ensures field in hit.fields <==> HasField(n, hits + [hit], hit.term, field) {
      HasFieldMore(n, hits, hit, hit.term, field);
    }
    assert hit in hits + [hit];
  }

  lemma OneMoreSums(n: Normalizer, found: seq<Found>, hits: seq<Found>, hit: Found)
    requires WellFound(n, found) && Sums(n, found, hits)
    ensures Sums(n, AddFound(n, found, hit), hits + [hit])
  {
    hide Tells, HasField, WellFound, Position;
    var i, after := Position(n, found, hit.term), AddFound(n, found, hit);
    OnePosition(n, found, hit.term);
    ListedStays(n, found, hits, hit);
    forall f | f in after ensures Tells(n, f, hits + [hit]) {
      var j :| 0 <= j < |after| && after[j] == f;
      if j != i {
        assert found[j] in found;
        StillTells(n, found[j], hits, hit);
      } else if i == |found| {
        forall h | h in hits ensures n.text(h.term) != n.text(hit.term) {
          var g :| g in found && n.text(g.term) == n.text(h.term);
          var k :| 0 <= k < |found| && found[k] == g;
        }
        NewTells(n, hits, hit);
      } else {
        assert found[i] in found;
        MergedTells(n, found[i], hits, hit);
      }
    }
  }

  /** A term has one finding at most. */
  lemma OnePosition(n: Normalizer, found: seq<Found>, term: string)
    requires WellFound(n, found)
    ensures forall j :: 0 <= j < |found| && j != Position(n, found, term) ==> n.text(found[j].term) != n.text(term)
    ensures forall f :: f in found ==> NoDuplicates(f.fields)
  {
    var i := Position(n, found, term);
    forall j | i < j < |found| ensures n.text(found[j].term) != n.text(term) {
      assert Terms(found)[j] == found[j].term && Terms(found)[i] == found[i].term;
    }
  }

  lemma ListedStays(n: Normalizer, found: seq<Found>, hits: seq<Found>, hit: Found)
    requires WellFound(n, found) && forall h :: h in hits ==> IsListed(n, found, h.term)
    ensures forall h :: h in hits + [hit] ==> IsListed(n, AddFound(n, found, hit), h.term)
  {
    hide WellFound;
    var i, after := Position(n, found, hit.term), AddFound(n, found, hit);
    assert after[i] in after && n.text(after[i].term) == n.text(hit.term);
    forall h | h in hits ensures IsListed(n, after, h.term) {
      var f :| f in found && n.text(f.term) == n.text(h.term);
      var j :| 0 <= j < |found| && found[j] == f;
      assert after[j] in after && after[j].term == f.term;
    }
  }

  lemma {:induction false} AllSum(n: Normalizer, found: seq<Found>, hits: seq<Found>, more: seq<Found>)
    requires WellFound(n, found) && WellHits(more) && Sums(n, found, hits)
    ensures Sums(n, AddAll(n, found, more), hits + more)
  {
    hide WellFound, Sums, AddFound;
    if more == [] {
      assert hits + more == hits;
    } else {
      var front, last := more[..|more| - 1], more[|more| - 1];
      AllSum(n, found, hits, front);
      OneMoreSums(n, AddAll(n, found, front), hits + front, last);
      assert hits + more == hits + front + [last];
    }
  }

  // ----- In terms of the lot

  predicate InField(n: Normalizer, lot: Lot, field: Field, term: string) {
    match field
    case Title => ContainsTerm(n, n.text(lot.title), term)
    case Description => ContainsTerm(n, n.text(lot.description), term)
    case Category => ContainsTerm(n, n.text(lot.category), term)
  }

  predicate FiresIn(n: Normalizer, p: Profile, lot: Lot, term: string, other: string, field: Field) {
    Fires(n, p, lot, other) && n.text(other) == n.text(term) && InField(n, lot, field, other)
  }

  /** The findings are those of the terms that fire, each with all the fields it, or a term spelt like it, is in. */
  ghost predicate Reports(n: Normalizer, p: Profile, lot: Lot, found: seq<Found>, terms: seq<string>) {
    && (forall x :: x in terms && Fires(n, p, lot, x) ==> IsListed(n, found, x))
    && (forall f :: f in found ==> f.term in terms && Fires(n, p, lot, f.term))
    && (forall f, field :: f in found ==>
          (field in f.fields <==> exists x :: x in terms && FiresIn(n, p, lot, f.term, x, field)))
  }

  /** These are the hits of these terms. */
  ghost predicate AreHits(n: Normalizer, p: Profile, lot: Lot, hits: seq<Found>, terms: seq<string>) {
    && (forall h :: h in hits ==> h.term in terms && FindRule(n, TextsOf(n, lot), p.rules, h.term) == Some(h))
    && (forall x :: x in terms && FindRule(n, TextsOf(n, lot), p.rules, x).Some? ==>
          FindRule(n, TextsOf(n, lot), p.rules, x).value in hits)
  }

  lemma BothAreHits(
    n: Normalizer, p: Profile, lot: Lot, a: seq<Found>, terms: seq<string>, b: seq<Found>, more: seq<string>)
    requires AreHits(n, p, lot, a, terms) && AreHits(n, p, lot, b, more)
    ensures AreHits(n, p, lot, a + b, terms + more)
  {
    hide FindRule, TextsOf;
    assert forall h :: h in a + b <==> h in a || h in b;
    assert forall x :: x in terms + more <==> x in terms || x in more;
  }

  lemma HitFields(n: Normalizer, p: Profile, lot: Lot, term: string)
    ensures var hit := FindRule(n, TextsOf(n, lot), p.rules, term);
      && (hit.Some? <==> Fires(n, p, lot, term))
      && (hit.Some? ==> hit.value.term == term)
      && (hit.Some? ==> forall field :: field in hit.value.fields <==> InField(n, lot, field, term))
  {
    hide Fires, ContainsTerm, ContextAllows;
    FiresIsFound(n, p, lot, term);
  }

  lemma SumsReport(n: Normalizer, p: Profile, lot: Lot, found: seq<Found>, hits: seq<Found>, terms: seq<string>)
    requires Sums(n, found, hits) && AreHits(n, p, lot, hits, terms)
    ensures Reports(n, p, lot, found, terms)
  {
    hide Fires, FindRule, TextsOf, InField;
    forall x ensures FindRule(n, TextsOf(n, lot), p.rules, x).Some? <==> Fires(n, p, lot, x) {
      HitFields(n, p, lot, x);
    }
    forall x | x in terms && Fires(n, p, lot, x) ensures IsListed(n, found, x) { HitFields(n, p, lot, x); }
    forall f | f in found ensures f.term in terms && Fires(n, p, lot, f.term) {
      assert Tells(n, f, hits);
      var h :| h in hits && h.term == f.term;
    }
    forall f, field | f in found
      ensures field in f.fields <==> exists x :: x in terms && FiresIn(n, p, lot, f.term, x, field)
    {
      assert Tells(n, f, hits);
      assert field in f.fields <==> HasField(n, hits, f.term, field);
      FieldsReport(n, p, lot, f.term, field, hits, terms);
    }
  }

  lemma FieldsReport(
    n: Normalizer, p: Profile, lot: Lot, term: string, field: Field, hits: seq<Found>, terms: seq<string>)
    requires AreHits(n, p, lot, hits, terms)
    ensures HasField(n, hits, term, field) <==> exists x :: x in terms && FiresIn(n, p, lot, term, x, field)
  {
    hide Fires, FindRule, TextsOf, InField;
    if HasField(n, hits, term, field) {
      var h :| h in hits && n.text(h.term) == n.text(term) && field in h.fields;
      HitFields(n, p, lot, h.term);
      assert FiresIn(n, p, lot, term, h.term, field);
    }
    if x :| x in terms && FiresIn(n, p, lot, term, x, field) {
      HitFields(n, p, lot, x);
      assert FindRule(n, TextsOf(n, lot), p.rules, x).value in hits;
    }
  }

  lemma HitsAreHits(n: Normalizer, p: Profile, lot: Lot, terms: seq<string>)
    ensures AreHits(n, p, lot, Hits(n, TextsOf(n, lot), p.rules, terms), terms)
    ensures WellHits(Hits(n, TextsOf(n, lot), p.rules, terms))
  {
    HitsAreWell(n, TextsOf(n, lot), p.rules, terms);
  }

  lemma NothingSums(n: Normalizer)
    ensures Sums(n, [], []) && WellFound(n, []) && WellHits([])
  {
  }

  lemma CollectedReport(n: Normalizer, p: Profile, lot: Lot, weighted: seq<string>)
    ensures var t := TextsOf(n, lot);
      var any, all, phrases, boosts :=
        Hits(n, t, p.rules, p.any), Hits(n, t, p.rules, p.all), Hits(n, t, p.rules, p.phrases),
        Hits(n, t, p.rules, weighted);
      && WellHits(any) && WellHits(all) && WellHits(phrases) && WellHits(boosts)
      && Reports(n, p, lot, Collect(n, any, all, phrases, boosts), p.any + p.all + p.phrases + weighted)
  {
    hide Hits, TextsOf, Fires, FindRule, AddAll, Sums, AreHits, Reports, WellFound, WellHits;
    var t := TextsOf(n, lot);
    var any, all, phrases, boosts :=
      Hits(n, t, p.rules, p.any), Hits(n, t, p.rules, p.all), Hits(n, t, p.rules, p.phrases),
        Hits(n, t, p.rules, weighted);
    HitsAreHits(n, p, lot, p.any);
    HitsAreHits(n, p, lot, p.all);
    HitsAreHits(n, p, lot, p.phrases);
    HitsAreHits(n, p, lot, weighted);
    NothingSums(n);
    CollectSums(n, any, all, phrases, boosts);
    BothAreHits(n, p, lot, any, p.any, all, p.all);
    BothAreHits(n, p, lot, any + all, p.any + p.all, phrases, p.phrases);
    BothAreHits(n, p, lot, any + all + phrases, p.any + p.all + p.phrases, boosts, weighted);
    SumsReport(n, p, lot, Collect(n, any, all, phrases, boosts), any + all + phrases + boosts,
               p.any + p.all + p.phrases + weighted);
  }

  lemma CollectSums(n: Normalizer, any: seq<Found>, all: seq<Found>, phrases: seq<Found>, boosts: seq<Found>)
    requires WellHits(any) && WellHits(all) && WellHits(phrases) && WellHits(boosts)
    ensures Sums(n, Collect(n, any, all, phrases, boosts), any + all + phrases + boosts)
  {
    hide AddAll, Sums, WellFound;
    NothingSums(n);
    var one := AddAll(n, [], any);
    var two := AddAll(n, one, all);
    var three := AddAll(n, two, phrases);
    AllSum(n, [], [], any);
    assert [] + any == any;
    AllSum(n, one, any, all);
    AllSum(n, two, any + all, phrases);
    AllSum(n, three, any + all + phrases, boosts);
  }

  lemma ExcludedReport(n: Normalizer, p: Profile, lot: Lot)
    ensures var hits := Hits(n, TextsOf(n, lot), p.rules, p.exclude);
      WellHits(hits) && WellFound(n, []) && Reports(n, p, lot, AddAll(n, [], hits), p.exclude)
  {
    hide Hits, TextsOf, Fires, FindRule, AddAll, Sums, AreHits, Reports, WellFound;
    HitsAreHits(n, p, lot, p.exclude);
    NothingSums(n);
    var hits := Hits(n, TextsOf(n, lot), p.rules, p.exclude);
    AllSum(n, [], [], hits);
    assert [] + hits == hits;
    SumsReport(n, p, lot, AddAll(n, [], hits), hits, p.exclude);
  }

  /**
   * What a result reports beside its decision. Before the exclusions nothing; when one fires, just those that fire;
   * afterwards the required terms that are missing, or else the score of what fires; and always where each term
   * that counts so far was found, boosts only once a trigger has fired.
   */
  lemma ResultReports(n: Normalizer, p: Profile, lot: Lot)
    ensures var r := Evaluate(n, p, lot);
      var reached := p.enabled && lot.key.source in p.sources && lot.active && InCategory(n, p, lot);
      var triggered := AnyFires(n, p, lot, p.any) || AnyFires(n, p, lot, p.phrases)
                       || (p.any == [] && p.phrases == [] && p.all != []);
      if !reached then
        r.matchedTerms == [] && r.excludedTerms == [] && r.missing == [] && r.fields == [] && r.score == 0
      else if AnyFires(n, p, lot, p.exclude) then
        && r.matchedTerms == [] && r.excludedTerms == Terms(r.fields) && r.missing == [] && r.score == 0
        && Reports(n, p, lot, r.fields, p.exclude)
      else if !AllFire(n, p, lot, p.all) || !triggered then
        && r.matchedTerms == Terms(r.fields) && r.excludedTerms == [] && r.score == 0
        && Reports(n, p, lot, r.fields, p.any + p.all + p.phrases)
        && (forall x :: x in r.missing <==> x in p.all && !Fires(n, p, lot, x))
      else
        && r.matchedTerms == Terms(r.fields) && r.excludedTerms == [] && r.missing == []
        && r.score == NetOf(n, p, lot)
        && Reports(n, p, lot, r.fields, p.any + p.all + p.phrases + WeightedTerms(p.boosts))
  {
    hide Hits, TextsOf, Fires, AnyFires, AllFire, FindRule, AddAll, Reports, WellFound, WellHits, NetOf, Score, Missing,
      Collect, Terms, PriceRejection, WeightedTerms;
    var t := TextsOf(n, lot);
    assert CategorySelected(n, p, t) == InCategory(n, p, lot) by { SameCategory(n, p, lot); }
    HitsFire(n, p, lot, p.exclude);
    HitsFire(n, p, lot, p.any);
    HitsFire(n, p, lot, p.all);
    HitsFire(n, p, lot, p.phrases);
    RequiredHits(n, p, lot);
    AllRequired(n, p, lot);
    ScoreIsNet(n, p, lot);
    ExcludedReport(n, p, lot);
    CollectedReport(n, p, lot, []);
    CollectedReport(n, p, lot, WeightedTerms(p.boosts));
    assert p.any + p.all + p.phrases + [] == p.any + p.all + p.phrases;
    assert Hits(n, t, p.rules, []) == [] by { NoHits(n, t, p.rules); }
    MissingFires(n, p, lot);
  }

  lemma SameCategory(n: Normalizer, p: Profile, lot: Lot)
    ensures CategorySelected(n, p, TextsOf(n, lot)) == InCategory(n, p, lot)
  {
  }

  lemma AllRequired(n: Normalizer, p: Profile, lot: Lot)
    ensures AllFire(n, p, lot, p.all) <==> forall x :: x in p.all ==> Fires(n, p, lot, x)
  {
  }

  lemma NoHits(n: Normalizer, t: Texts, rules: seq<ContextRule>)
    ensures Hits(n, t, rules, []) == []
  {
  }

  lemma MissingFires(n: Normalizer, p: Profile, lot: Lot)
    ensures forall x :: x in Missing(n, TextsOf(n, lot), p.rules, p.all) <==> x in p.all && !Fires(n, p, lot, x)
  {
    hide Fires, FindRule;
    forall x ensures Fires(n, p, lot, x) <==> FindRule(n, TextsOf(n, lot), p.rules, x).Some? {
      FiresIsFound(n, p, lot, x);
    }
  }
}
