/** Profile matches recomputed over the reconciled inventory, and the snapshot built from them. */
module Publication {
  import opened Wrappers
  import opened Sequences
  import opened Domain
  import opened Validation
  import opened Identity
  import opened Lifecycle
  import opened Operational
  import opened Normalization
  import opened Matching

  datatype MatchKey = MatchKey(profile: string, lot: LotKey)

  datatype MatchRow = MatchRow(
    score: int, terms: seq<string>, firstSeen: Time, lastSeen: Time,
    firstMatch: Option<Time>, lastMatch: Option<Time>, active: bool,
    confirmedMatch: Option<RunId>, confirmedAbsence: Option<RunId>)

  /** The inventory the matcher sees: active lots whose closing time has not passed. */
  function OpenLots(t: Tables, sources: set<string>, now: Time): map<LotKey, Lot> {
    map k | k in t.lots && k.source in sources && Live(Lookup(t.rows, k))
            && (t.lots[k].closingAt.None? || t.lots[k].closingAt.value > now) :: t.lots[k]
  }

  /** Stored lots carry validated, trimmed identities. */
  predicate ValidKey(u: Unicode, k: LotKey) {
    Slug(k.source) && ValidTrimmedId(u, k.auction) && ValidTrimmedId(u, k.lot)
  }

  /** Matches are filed under the identity decoded from the opportunity key. */
  function FiledUnder(u: Unicode, k: LotKey): Option<LotKey> {
    var key := EncodeKey(u, k);
    if key.None? then None else DecodeKey(u, key.value)
  }

  /** For validated identities the filed key is the lot's own. */
  lemma FiledUnderOwnKey(u: Unicode, k: LotKey)
    requires ValidKey(u, k)
    ensures FiledUnder(u, k) == Some(k)
  {
    DecodeEncodedKey(u, k);
    StripTrims(u, k.auction);
    StripTrims(u, k.lot);
  }

  function MatchRecord(r: MatchResult, run: RunId, now: Time): MatchRow {
    MatchRow(r.score, r.matchedTerms, now, now, Some(now), Some(now), true, Some(run), None)
  }

  /** A stored match keeps when it was first seen and first matched. */
  function Recorded(row: Option<MatchRow>, m: MatchRow): MatchRow {
    match row
    case None =>
      m.(firstMatch := if m.firstMatch.None? then Some(m.lastSeen) else m.firstMatch,
         lastMatch := if m.lastMatch.None? then Some(m.lastSeen) else m.lastMatch)
    case Some(r) =>
      m.(firstSeen := r.firstSeen,
         firstMatch := if r.firstMatch.None? then Some(r.firstSeen) else r.firstMatch,
         lastMatch := Some(m.lastSeen), active := true, confirmedAbsence := None)
  }

  /** The rows agree on what the matcher found and when it was last seen. */
  predicate SameFinding(a: MatchRow, b: MatchRow) {
    a.score == b.score && a.terms == b.terms && a.lastSeen == b.lastSeen && a.confirmedMatch == b.confirmedMatch
  }

  function Deactivated(row: MatchRow, run: RunId): MatchRow {
    if row.active then row.(active := false, confirmedAbsence := Some(run)) else row
  }

  function Accepted(n: Normalizer, p: Profile, lots: map<LotKey, Lot>): set<LotKey> {
    set k | k in lots && Evaluate(n, p, lots[k]).matched
  }

  type Matches = map<MatchKey, MatchRow>

  function ActiveFor(m: Matches, profile: string): set<LotKey> {
    set x | x in m && x.profile == profile && m[x].active :: x.lot
  }

  /** One profile re-evaluated: accepted lots recorded, its other matches deactivated. */
  function ProfileMatched(
    m: Matches, n: Normalizer, p: Profile, lots: map<LotKey, Lot>, run: RunId, now: Time): Matches
  {
    map x | x in m.Keys + (set k | k in Accepted(n, p, lots) :: MatchKey(p.id, k)) ::
      if x.profile != p.id then m[x]
      else if x.lot in Accepted(n, p, lots)
      then Recorded(Lookup(m, x), MatchRecord(Evaluate(n, p, lots[x.lot]), run, now))
      else Deactivated(m[x], run)
  }

  function ProfilesMatched(
    m: Matches, n: Normalizer, ps: seq<Profile>, lots: map<LotKey, Lot>, run: RunId, now: Time): Matches
  {
    if ps == [] then m
    else ProfileMatched(ProfilesMatched(m, n, ps[..|ps| - 1], lots, run, now), n, ps[|ps| - 1], lots, run, now)
  }

  /** The match table once these lots of one profile are recorded. */
  function WithRecorded(
    m: Matches, n: Normalizer, p: Profile, lots: map<LotKey, Lot>, run: RunId, now: Time, done: set<LotKey>): Matches
    requires done <= lots.Keys
  {
    map x | x in m.Keys + (set k | k in done :: MatchKey(p.id, k)) ::
      if x.profile == p.id && x.lot in done
      then Recorded(Lookup(m, x), MatchRecord(Evaluate(n, p, lots[x.lot]), run, now))
      else m[x]
  }

  lemma NothingRecorded(m: Matches, n: Normalizer, p: Profile, lots: map<LotKey, Lot>, run: RunId, now: Time)
    ensures WithRecorded(m, n, p, lots, run, now, {}) == m
  {
  }

  lemma OneMoreRecorded(
    m: Matches, n: Normalizer, p: Profile, lots: map<LotKey, Lot>, run: RunId, now: Time, done: set<LotKey>, k: LotKey)
    requires k in lots && k !in done && done <= lots.Keys
    ensures var x, before := MatchKey(p.id, k), WithRecorded(m, n, p, lots, run, now, done);
      && Lookup(before, x) == Lookup(m, x)
      && WithRecorded(m, n, p, lots, run, now, done + {k})
         == before[x := Recorded(Lookup(m, x), MatchRecord(Evaluate(n, p, lots[k]), run, now))]
  {
    hide Evaluate, Recorded, MatchRecord;
  }

  lemma MatchedAfterDeactivation(
    m: Matches, n: Normalizer, p: Profile, lots: map<LotKey, Lot>, run: RunId, now: Time, after: Matches)
    requires var accepted := Accepted(n, p, lots);
      var recorded := WithRecorded(m, n, p, lots, run, now, accepted);
      && after.Keys == recorded.Keys
      && forall x :: x in recorded ==>
           after[x] == if x.profile == p.id && x.lot !in accepted then Deactivated(recorded[x], run) else recorded[x]
    ensures after == ProfileMatched(m, n, p, lots, run, now)
  {
    hide Evaluate, Recorded, MatchRecord, Deactivated;
  }

  class MatchRepository {
    var matches: Matches

    constructor ()
      ensures matches == map[]
    {
      matches := map[];
    }

    /** Record a match; a known one keeps when it was first seen and first matched, and is active again. */
    method RecordMatch(key: MatchKey, m: MatchRow)
      modifies this
      ensures matches == old(matches)[key := Recorded(Lookup(old(matches), key), m)]
      ensures forall x :: x in old(matches) && x != key ==> x in matches && matches[x] == old(matches)[x]
      ensures key in matches && SameFinding(matches[key], m)
      ensures matches[key].firstMatch.Some? && matches[key].lastMatch.Some?
      ensures key in old(matches) ==>
        var row, known := matches[key], old(matches)[key];
        && row.active && row.confirmedAbsence == None
        && row.firstSeen == known.firstSeen && row.lastMatch == Some(m.lastSeen)
        && (known.firstMatch.Some? ==> row.firstMatch == known.firstMatch)
        && (known.firstMatch.None? ==> row.firstMatch == Some(known.firstSeen))
      ensures key !in old(matches) ==>
        matches[key].firstSeen == m.firstSeen && matches[key].active == m.active
        && (m.firstMatch.None? ==> matches[key].firstMatch == Some(m.lastSeen))
    {
      var row := m;
      if key in matches {
        var known := matches[key];
        row := row.(firstSeen := known.firstSeen);
        row := row.(firstMatch := if known.firstMatch.Some? then known.firstMatch else Some(known.firstSeen));
        row := row.(lastMatch := Some(m.lastSeen), active := true, confirmedAbsence := None);
      } else {
        if row.firstMatch.None? { row := row.(firstMatch := Some(m.lastSeen)); }
        if row.lastMatch.None? { row := row.(lastMatch := Some(m.lastSeen)); }
      }
      matches := matches[key := row];
    }

    method DeactivateMissing(run: RunId, profile: string, expected: set<LotKey>)
      modifies this
      ensures matches == map x | x in old(matches) ::
        if x.profile == profile && x.lot !in expected then Deactivated(old(matches)[x], run) else old(matches)[x]
    {
      var todo := set x | x in matches && x.profile == profile && matches[x].active;
      while todo != {}
        invariant todo <= old(matches).Keys
        invariant forall x :: x in todo ==> x.profile == profile
        invariant matches == map x | x in old(matches) ::
          if x.profile == profile && x.lot !in expected && x !in todo then Deactivated(old(matches)[x], run)
          else old(matches)[x]
        decreases todo
      {
        var x :| x in todo;
        todo := todo - {x};
        if x.lot !in expected { matches := matches[x := Deactivated(matches[x], run)]; }
      }
    }

    method MatchProfile(u: Unicode, n: Normalizer, p: Profile, lots: map<LotKey, Lot>, run: RunId, now: Time)
      requires forall k :: k in lots ==> ValidKey(u, k)
      modifies this
      ensures matches == ProfileMatched(old(matches), n, p, lots, run, now)
    {
      hide Evaluate, FiledUnder, ValidKey, ProfileMatched, WithRecorded, Deactivated;
      var expected, todo := {}, lots.Keys;
      ghost var accepted := Accepted(n, p, lots);
      NothingRecorded(matches, n, p, lots, run, now);
      while todo != {}
        invariant todo <= lots.Keys && expected == accepted - todo
        invariant matches == WithRecorded(old(matches), n, p, lots, run, now, expected)
        decreases todo
      {
        var k :| k in todo;
        todo := todo - {k};
        var result := MatchLot(n, p, lots[k]);
        if result.matched {
          FiledUnderOwnKey(u, k);
          OneMoreRecorded(old(matches), n, p, lots, run, now, expected, k);
          expected := expected + {k};
          RecordMatch(MatchKey(p.id, FiledUnder(u, k).value), MatchRecord(result, run, now));
        }
      }
      assert expected == accepted;
      DeactivateMissing(run, p.id, expected);
      MatchedAfterDeactivation(old(matches), n, p, lots, run, now, matches);
    }

    method MatchProfiles(u: Unicode, n: Normalizer, ps: seq<Profile>, lots: map<LotKey, Lot>, run: RunId, now: Time)
      requires forall k :: k in lots ==> ValidKey(u, k)
      modifies this
      ensures matches == ProfilesMatched(old(matches), n, ps, lots, run, now)
    {
      hide ProfileMatched, ValidKey;
      for i := 0 to |ps|
        invariant matches == ProfilesMatched(old(matches), n, ps[..i], lots, run, now)
      {
        assert ps[..i + 1][..i] == ps[..i];
        MatchProfile(u, n, ps[i], lots, run, now);
      }
      assert ps[..|ps|] == ps;
    }
  }

  predicate DistinctProfiles(ps: seq<Profile>) {
    forall i, j :: 0 <= i < j < |ps| ==> ps[i].id != ps[j].id
  }

  lemma OneProfileMatched(m: Matches, n: Normalizer, p: Profile, lots: map<LotKey, Lot>, run: RunId, now: Time)
    ensures var m' := ProfileMatched(m, n, p, lots, run, now);
      && ActiveFor(m', p.id) == Accepted(n, p, lots)
      && forall id :: id != p.id ==> ActiveFor(m', id) == ActiveFor(m, id)
  {
    hide Evaluate;
    var m' := ProfileMatched(m, n, p, lots, run, now);
    forall k | k in Accepted(n, p, lots) ensures k in ActiveFor(m', p.id) {
      assert MatchKey(p.id, k) in m' && m'[MatchKey(p.id, k)].active;
    }
    forall id | id != p.id ensures ActiveFor(m', id) == ActiveFor(m, id) {
      forall k ensures k in ActiveFor(m', id) <==> k in ActiveFor(m, id) {
        var x := MatchKey(id, k);
        assert x in m' <==> x in m;
      }
    }
  }

  /** After the matching loop each profile's active matches are exactly the open lots that the
      matcher accepts for it. */
  lemma {:induction false} MatchesAgreeWithMatcher(m: Matches, n: Normalizer, ps: seq<Profile>, lots: map<LotKey, Lot>,
      run: RunId, now: Time, i: nat)
    requires DistinctProfiles(ps) && i < |ps|
    ensures ActiveFor(ProfilesMatched(m, n, ps, lots, run, now), ps[i].id) == Accepted(n, ps[i], lots)
  {
    hide ProfileMatched, ActiveFor, Accepted;
    var front, last := ps[..|ps| - 1], ps[|ps| - 1];
    OneProfileMatched(ProfilesMatched(m, n, front, lots, run, now), n, last, lots, run, now);
    if i < |front| {
      MatchesAgreeWithMatcher(m, n, front, lots, run, now, i);
      assert ps[i].id != last.id;
    }
  }

  /** What becomes of one match: an accepted lot's says what the matcher found now, another one of the profile's is
      inactive and knows which run missed it, and other profiles' stay. */
  lemma MatchAfterwards(
    m: Matches, n: Normalizer, p: Profile, lots: map<LotKey, Lot>, run: RunId, now: Time, x: MatchKey)
    ensures var before, after := Lookup(m, x), Lookup(ProfileMatched(m, n, p, lots, run, now), x);
      if x.profile != p.id then after == before
      else if x.lot in lots && Evaluate(n, p, lots[x.lot]).matched then
        var r := Evaluate(n, p, lots[x.lot]);
        && after.Some? && after.value.active
        && after.value.score == r.score && after.value.terms == r.matchedTerms && after.value.lastSeen == now
        && after.value.lastMatch == Some(now)
        && after.value.confirmedMatch == Some(run) && after.value.confirmedAbsence == None
        && (before.None? ==> after.value.firstSeen == now && after.value.firstMatch == Some(now))
        && (before.Some? ==> after.value.firstSeen == before.value.firstSeen)
        && (before.Some? && before.value.firstMatch.Some? ==> after.value.firstMatch == before.value.firstMatch)
      else if before.Some? && before.value.active then
        after == Some(before.value.(active := false, confirmedAbsence := Some(run)))
      else after == before
  {
    hide Evaluate;
  }

  // ----- Matches over many runs

  datatype Round = Round(profiles: seq<Profile>, lots: map<LotKey, Lot>, run: RunId, now: Time)

  /** The match table after a sequence of matching loops, starting empty. */
  function Published(n: Normalizer, rounds: seq<Round>): Matches {
    if rounds == [] then map[]
    else
      var last := rounds[|rounds| - 1];
      ProfilesMatched(Published(n, rounds[..|rounds| - 1]), n, last.profiles, last.lots, last.run, last.now)
  }

  /** Every match is kept, with the time it first matched. */
  ghost predicate Keeps(m: Matches, m': Matches) {
    forall x :: x in m ==> x in m' && m'[x].firstMatch == m[x].firstMatch && m'[x].firstSeen == m[x].firstSeen
  }

  ghost predicate AllDated(m: Matches) {
    forall x :: x in m ==> m[x].firstMatch.Some?
  }

  lemma OneProfileKeeps(m: Matches, n: Normalizer, p: Profile, lots: map<LotKey, Lot>, run: RunId, now: Time)
    requires AllDated(m)
    ensures var m' := ProfileMatched(m, n, p, lots, run, now); AllDated(m') && Keeps(m, m')
  {
    hide Evaluate;
  }

  lemma {:induction false} ProfilesKeep(
    m: Matches, n: Normalizer, ps: seq<Profile>, lots: map<LotKey, Lot>, run: RunId, now: Time)
    requires AllDated(m)
    ensures var m' := ProfilesMatched(m, n, ps, lots, run, now); AllDated(m') && Keeps(m, m')
  {
    hide ProfileMatched;
    if ps != [] {
      ProfilesKeep(m, n, ps[..|ps| - 1], lots, run, now);
      OneProfileKeeps(ProfilesMatched(m, n, ps[..|ps| - 1], lots, run, now), n, ps[|ps| - 1], lots, run, now);
    }
  }

  /** From its first match on, a match is never forgotten and its first-match time never moves,
      however often the lot disappears and returns. */
  lemma {:induction false} FirstMatchNeverMoves(n: Normalizer, rounds: seq<Round>, i: nat)
    requires i <= |rounds|
    ensures AllDated(Published(n, rounds)) && Keeps(Published(n, rounds[..i]), Published(n, rounds))
  {
    hide ProfilesMatched;
    if i == |rounds| {
      assert rounds[..i] == rounds;
      if rounds != [] { FirstMatchNeverMoves(n, rounds, |rounds| - 1); }
    } else {
      var front, last := rounds[..|rounds| - 1], rounds[|rounds| - 1];
      FirstMatchNeverMoves(n, front, i);
      assert front[..i] == rounds[..i];
      ProfilesKeep(Published(n, front), n, last.profiles, last.lots, last.run, last.now);
    }
  }

  // ----- The snapshot

  /** The lots listed for a profile: its active matches that are open lots. */
  function Listing(m: Matches, lots: map<LotKey, Lot>, profile: string): set<LotKey> {
    ActiveFor(m, profile) * lots.Keys
  }

  /** The published list of a profile is exactly what the matcher accepts for it. */
  lemma SnapshotListsAccepted(
    m: Matches, n: Normalizer, ps: seq<Profile>, lots: map<LotKey, Lot>, run: RunId, now: Time, i: nat)
    requires DistinctProfiles(ps) && i < |ps|
    ensures Listing(ProfilesMatched(m, n, ps, lots, run, now), lots, ps[i].id) == Accepted(n, ps[i], lots)
  {
    hide ProfilesMatched, ActiveFor, Evaluate;
    MatchesAgreeWithMatcher(m, n, ps, lots, run, now, i);
  }

  type Index = map<LotKey, set<string>>

  function Enter(index: Index, k: LotKey, profile: string): Index {
    index[k := (if k in index then index[k] else {}) + {profile}]
  }

  /** The unified index is the inverse of the per-profile listings. */
  method Unify(m: Matches, lots: map<LotKey, Lot>, profiles: seq<string>) returns (index: Index)
    ensures forall k :: k in index <==> exists id :: id in profiles && k in Listing(m, lots, id)
    ensures forall k, id :: k in index && id in profiles ==> (id in index[k] <==> k in Listing(m, lots, id))
    ensures forall k :: k in index ==> index[k] <= SetOf(profiles)
  {
    hide Listing;
    index := map[];
    for i := 0 to |profiles|
      invariant forall k :: k in index <==> exists id :: id in profiles[..i] && k in Listing(m, lots, id)
      invariant forall k :: k in index ==>
        forall id :: id in index[k] <==> id in profiles[..i] && k in Listing(m, lots, id)
    {
      var id, before := profiles[i], index;
      var todo := Listing(m, lots, id);
      assert profiles[..i + 1] == profiles[..i] + [id];
      while todo != {}
        invariant todo <= Listing(m, lots, id)
        invariant forall k :: k in index <==> k in before || k in Listing(m, lots, id) - todo
        invariant forall k :: k in index ==>
          index[k] == (if k in before then before[k] else {}) + (if k in Listing(m, lots, id) - todo then {id} else {})
        decreases todo
      {
        var k :| k in todo;
        todo := todo - {k};
        index := Enter(index, k, id);
      }
    }
    assert profiles[..|profiles|] == profiles;
  }
}
