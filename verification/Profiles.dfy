/** Stored search profiles: revision compare-and-set, immutable system seeds, seed upgrades. */
module Profiles {
  import opened Wrappers

  datatype Kind = System | User

  datatype Notification = Disabled | Matches | MatchesOrFailure

  // `rules` stands for every other field: name, terms, weights, sources, price filter, minimum score.
  datatype Profile = Profile(
    id: string, kind: Kind, locked: bool, seedKey: Option<string>, seedVersion: nat,
    enabled: bool, notification: Notification, schedule: string, rules: string)

  datatype Stored = Stored(profile: Profile, revision: nat)

  datatype Refusal = NotFound | RevisionConflict | SystemImmutable | SystemDelete | RunInProgress | AlreadyExists

  datatype Outcome<T> = Ok(value: T) | Refused(reason: Refusal)

  type Rows = map<string, Stored>

  /** Rows are filed under their profile's id and count revisions from one. */
  predicate WellFiled(rows: Rows) {
    forall id :: id in rows ==> rows[id].profile.id == id && rows[id].revision >= 1
  }

  /** The stored profile with the owner's three settings taken from another one. */
  function WithSettingsOf(p: Profile, other: Profile): Profile {
    p.(enabled := other.enabled, notification := other.notification, schedule := other.schedule)
  }

  function Replacement(rows: Rows, p: Profile, expected: nat): Outcome<Stored> {
    if p.id !in rows then
      if p.kind == System
         && exists id :: id in rows && rows[id].profile.kind == System && rows[id].profile.seedKey == p.seedKey
      then Refused(SystemImmutable) else Refused(NotFound)
    else
      var current := rows[p.id].profile;
      if current.kind == System && (p.kind != System || !p.locked || p.seedKey != current.seedKey)
      then Refused(SystemImmutable)
      else if current.kind == System
              && (p.seedVersion < current.seedVersion
                  || (p.seedVersion == current.seedVersion && WithSettingsOf(p, current) != current))
      then Refused(SystemImmutable)
      else if rows[p.id].revision != expected then Refused(RevisionConflict)
      else Ok(Stored(p, expected + 1))
  }

  /** A replacement succeeds when it expects the stored revision and, for a system profile, stays that profile, locked,
      either on a newer seed or with nothing changed but the owner's three settings. */
  lemma ReplacementMeans(rows: Rows, p: Profile, expected: nat)
    ensures Replacement(rows, p, expected).Ok? <==>
      && p.id in rows && rows[p.id].revision == expected
      && var stored := rows[p.id].profile;
         stored.kind == System ==>
           && p.kind == System && p.locked && p.seedKey == stored.seedKey
           && (p.seedVersion > stored.seedVersion
               || p == stored.(enabled := p.enabled, notification := p.notification, schedule := p.schedule))
    ensures Replacement(rows, p, expected).Ok? ==> Replacement(rows, p, expected).value == Stored(p, expected + 1)
  {
  }

  /** Otherwise it is refused: for an unknown profile as such, unless it would double a system seed; for breaking a
      system profile before the revision is looked at. */
  lemma RefusalMeans(rows: Rows, p: Profile, expected: nat)
    requires Replacement(rows, p, expected).Refused?
    ensures var reason := Replacement(rows, p, expected).reason;
      && (reason == NotFound <==>
            p.id !in rows && !(p.kind == System && exists id ::
              id in rows && rows[id].profile.kind == System && rows[id].profile.seedKey == p.seedKey))
      && (reason == RevisionConflict <==>
            p.id in rows && rows[p.id].revision != expected
            && Replacement(rows, p, rows[p.id].revision).Ok?)
      && reason in {NotFound, RevisionConflict, SystemImmutable}
  {
  }

  function Replaced(rows: Rows, p: Profile, expected: nat): Rows {
    match Replacement(rows, p, expected) case Ok(stored) => rows[p.id := stored] case Refused(_) => rows
  }

  function Created(rows: Rows, p: Profile): Rows {
    if p.id in rows then rows else rows[p.id := Stored(p, 1)]
  }

  function Deletion(rows: Rows, id: string, expected: nat, busy: bool): Outcome<()> {
    if id in rows && rows[id].profile.kind == System then Refused(SystemDelete)
    else if busy then Refused(RunInProgress)
    else if id !in rows then Refused(NotFound)
    else if rows[id].revision != expected then Refused(RevisionConflict)
    else Ok(())
  }

  function Deleted(rows: Rows, id: string, expected: nat, busy: bool): Rows {
    if Deletion(rows, id, expected, busy).Ok? then rows - {id} else rows
  }

  predicate IsSeed(p: Profile) { p.kind == System && p.locked && p.seedKey.Some? && p.seedKey != Some("") }

  /** The new seed with the pause its owner may have set. */
  function Upgraded(seed: Profile, existing: Profile): Profile { seed.(enabled := existing.enabled) }

  /** The second transaction of seeding, acting on what the first one read. */
  function Seeded(rows: Rows, seed: Profile, read: Option<Stored>): Rows {
    if !IsSeed(seed) then rows
    else
      match read
      case None => Created(rows, seed)
      case Some(existing) =>
        if existing.profile.kind != System || existing.profile.seedKey != seed.seedKey
           || existing.profile.seedVersion >= seed.seedVersion
        then rows
        else Replaced(rows, Upgraded(seed, existing.profile), existing.revision)
  }

  /** A new seed is stored at revision one; a newer one replaces what was read, if that is still current, and keeps
      the profile paused as it was. */
  lemma SeedingMeans(rows: Rows, seed: Profile, read: Option<Stored>)
    requires IsSeed(seed)
    ensures read.None? && seed.id !in rows ==> Seeded(rows, seed, read) == rows[seed.id := Stored(seed, 1)]
    ensures read.None? && seed.id in rows ==> Seeded(rows, seed, read) == rows
    ensures read.Some? && read.value.profile.seedVersion >= seed.seedVersion ==> Seeded(rows, seed, read) == rows
    ensures
      (read.Some? && seed.id in rows && rows[seed.id] == read.value && read.value.profile.kind == System
       && read.value.profile.seedKey == seed.seedKey && read.value.profile.seedVersion < seed.seedVersion) ==>
      Seeded(rows, seed, read)
        == rows[seed.id := Stored(seed.(enabled := read.value.profile.enabled), read.value.revision + 1)]
  {
  }

  /** A deletion succeeds for a user profile at the expected revision without a run in progress. */
  lemma DeletionMeans(rows: Rows, id: string, expected: nat, busy: bool)
    ensures Deletion(rows, id, expected, busy).Ok? <==>
      id in rows && rows[id].profile.kind == User && rows[id].revision == expected && !busy
    ensures Deleted(rows, id, expected, busy) == if Deletion(rows, id, expected, busy).Ok? then rows - {id} else rows
  {
  }

  class ProfileRepository {
    var rows: Rows

    constructor ()
      ensures rows == map[]
    {
      rows := map[];
    }

    method Create(p: Profile) returns (r: Outcome<Stored>)
      modifies this
      ensures rows == Created(old(rows), p)
      ensures r == if p.id in old(rows) then Refused(AlreadyExists) else Ok(Stored(p, 1))
    {
      if p.id in rows { return Refused(AlreadyExists); }
      r := Ok(Stored(p, 1));
      rows := rows[p.id := r.value];
    }

    method Get(id: string) returns (r: Option<Stored>)
      ensures r == Lookup(rows, id)
    {
      r := Lookup(rows, id);
    }

    method Replace(p: Profile, expected: nat) returns (r: Outcome<Stored>)
      modifies this
      ensures r == Replacement(old(rows), p, expected)
      ensures rows == Replaced(old(rows), p, expected)
    {
      if p.id !in rows {
        if p.kind == System {
          if exists id :: id in rows && rows[id].profile.kind == System && rows[id].profile.seedKey == p.seedKey {
            return Refused(SystemImmutable);
          }
        }
        return Refused(NotFound);
      }
      var current := rows[p.id].profile;
      if current.kind == System {
        if p.kind != System || !p.locked || p.seedKey != current.seedKey { return Refused(SystemImmutable); }
        var unchangedSeed := WithSettingsOf(p, current);
        if p.seedVersion < current.seedVersion || (p.seedVersion == current.seedVersion && unchangedSeed != current) {
          return Refused(SystemImmutable);
        }
      }
      if rows[p.id].revision != expected { return Refused(RevisionConflict); }
      r := Ok(Stored(p, rows[p.id].revision + 1));
      rows := rows[p.id := r.value];
    }

    method Delete(id: string, expected: nat, busy: bool) returns (r: Outcome<()>)
      modifies this
      ensures r == Deletion(old(rows), id, expected, busy)
      ensures rows == Deleted(old(rows), id, expected, busy)
    {
      if id in rows && rows[id].profile.kind == System { return Refused(SystemDelete); }
      if busy { return Refused(RunInProgress); }
      if id !in rows { return Refused(NotFound); }
      if rows[id].revision != expected { return Refused(RevisionConflict); }
      rows := rows - {id};
      r := Ok(());
    }

    /** Seeding after its read; other transactions may have run since. */
    method SeedAfterRead(seed: Profile, read: Option<Stored>) returns (r: Outcome<Stored>)
      modifies this
      ensures rows == Seeded(old(rows), seed, read)
      ensures r.Ok? && read.None? ==> r.value == Stored(seed, 1)
      ensures !IsSeed(seed) ==> r == Refused(SystemImmutable)
      ensures IsSeed(seed) && read.Some? ==>
        var known := read.value.profile;
        r == if known.kind != System || known.seedKey != seed.seedKey then Refused(SystemImmutable)
             else if known.seedVersion >= seed.seedVersion then Ok(read.value)
             else Replacement(old(rows), seed.(enabled := known.enabled), read.value.revision)
      ensures IsSeed(seed) && read.None? ==> (r.Ok? <==> seed.id !in old(rows))
    {
      if !IsSeed(seed) { return Refused(SystemImmutable); }
      if read.None? {
        r := Create(seed);
        return;
      }
      var existing := read.value;
      if existing.profile.kind != System || existing.profile.seedKey != seed.seedKey {
        return Refused(SystemImmutable);
      }
      if existing.profile.seedVersion >= seed.seedVersion { return Ok(existing); }
      r := Replace(Upgraded(seed, existing.profile), existing.revision);
    }

    method SeedSystemProfile(seed: Profile) returns (r: Outcome<Stored>)
      modifies this
      ensures rows == Seeded(old(rows), seed, Lookup(old(rows), seed.id))
    {
      var read := Get(seed.id);
      r := SeedAfterRead(seed, read);
    }
  }

  // ----- Any history

  datatype Act =
    | Create(p: Profile)
    | Replace(p: Profile, expected: nat)
    | Delete(id: string, expected: nat, busy: bool)
    | Seed(p: Profile, read: Option<Stored>)             // acts on any earlier read

  function Step(rows: Rows, a: Act): Rows {
    match a
    case Create(p) => Created(rows, p)
    case Replace(p, expected) => Replaced(rows, p, expected)
    case Delete(id, expected, busy) => Deleted(rows, id, expected, busy)
    case Seed(p, read) => Seeded(rows, p, read)
  }

  function After(rows: Rows, acts: seq<Act>): Rows {
    if acts == [] then rows else Step(After(rows, acts[..|acts| - 1]), acts[|acts| - 1])
  }

  /** How a system profile may differ later on. */
  predicate Evolved(a: Stored, b: Stored) {
    && b.profile.kind == System && b.profile.id == a.profile.id && b.profile.seedKey == a.profile.seedKey
    && a.profile.seedVersion <= b.profile.seedVersion
    && (a.profile.seedVersion == b.profile.seedVersion ==> WithSettingsOf(b.profile, a.profile) == a.profile)
    && a.revision <= b.revision && (a.revision == b.revision ==> a == b)
  }

  lemma ReplacementEvolves(rows: Rows, p: Profile, expected: nat, id: string)
    requires id in rows && rows[id].profile.kind == System && WellFiled(rows)
    ensures id in Replaced(rows, p, expected) && Evolved(rows[id], Replaced(rows, p, expected)[id])
    ensures WellFiled(Replaced(rows, p, expected))
  {
  }

  lemma StepEvolves(rows: Rows, a: Act, id: string)
    requires id in rows && rows[id].profile.kind == System && WellFiled(rows)
    ensures id in Step(rows, a) && Evolved(rows[id], Step(rows, a)[id]) && WellFiled(Step(rows, a))
  {
    hide Replacement, Replaced;
    match a
    case Replace(p, expected) => ReplacementEvolves(rows, p, expected, id);
    case Seed(p, Some(existing)) =>
      ReplacementEvolves(rows, Upgraded(p, existing.profile), existing.revision, id);
    case _ =>
  }

  lemma EvolvedTwice(a: Stored, b: Stored, c: Stored)
    requires Evolved(a, b) && Evolved(b, c)
    ensures Evolved(a, c)
  {
  }

  /**
   * Whatever is created, replaced, deleted and seeded, by any number of writers: a system profile is
   * never deleted, keeps its id and seed key, and its seed version never falls; while the version is
   * the same, only its enabled flag, schedule and notification mode can differ.
   */
  lemma {:induction false} SystemProfileEvolves(rows: Rows, acts: seq<Act>, id: string)
    requires id in rows && rows[id].profile.kind == System && WellFiled(rows)
    ensures id in After(rows, acts) && Evolved(rows[id], After(rows, acts)[id]) && WellFiled(After(rows, acts))
  {
    hide Step, Evolved, WellFiled;
    if acts == [] {
      SameIsEvolved(rows[id]);
    } else {
      var front := acts[..|acts| - 1];
      SystemProfileEvolves(rows, front, id);
      EvolvedIsSystem(rows[id], After(rows, front)[id]);
      StepEvolves(After(rows, front), acts[|acts| - 1], id);
      EvolvedTwice(rows[id], After(rows, front)[id], After(rows, acts)[id]);
    }
  }

  lemma SameIsEvolved(a: Stored)
    requires a.profile.kind == System
    ensures Evolved(a, a)
  {
  }

  lemma EvolvedIsSystem(a: Stored, b: Stored)
    requires Evolved(a, b)
    ensures b.profile.kind == System
  {
  }

  /**
   * An upgrade acting on an earlier read either changes nothing or keeps the profile paused exactly as
   * it is now: the read's revision still being current means nothing was written in between.
   */
  lemma UpgradeKeepsThePause(rows: Rows, acts: seq<Act>, seed: Profile)
    requires WellFiled(rows) && seed.id in rows && rows[seed.id].profile.kind == System
    ensures var now := After(rows, acts);
      seed.id in now && (Seeded(now, seed, Some(rows[seed.id])) == now
        || (seed.id in Seeded(now, seed, Some(rows[seed.id]))
            && Seeded(now, seed, Some(rows[seed.id]))[seed.id].profile
                 == seed.(enabled := now[seed.id].profile.enabled)))
  {
    SystemProfileEvolves(rows, acts, seed.id);
  }

  // ----- Competing writers

  function RevisionOf(rows: Rows, id: string): nat { if id in rows then rows[id].revision else 0 }

  /** Seeding goes on to replace what it read. */
  predicate Upgrades(seed: Profile, read: Option<Stored>) {
    && IsSeed(seed) && read.Some? && read.value.profile.kind == System
    && read.value.profile.seedKey == seed.seedKey && read.value.profile.seedVersion < seed.seedVersion
  }

  /** The act replaces this profile, and the revision it expects is still the stored one. */
  predicate Wins(rows: Rows, a: Act, id: string, expected: nat) {
    match a
    case Replace(p, e) => p.id == id && e == expected && Replacement(rows, p, expected).Ok?
    case Seed(p, read) =>
      p.id == id && Upgrades(p, read) && read.value.revision == expected
      && Replacement(rows, Upgraded(p, read.value.profile), expected).Ok?
    case _ => false
  }

  predicate Removes(rows: Rows, a: Act, id: string) {
    a.Delete? && a.id == id && Deletion(rows, id, a.expected, a.busy).Ok?
  }

  function CountWins(rows: Rows, acts: seq<Act>, id: string, expected: nat): nat
    decreases acts
  {
    if acts == [] then 0
    else (if Wins(rows, acts[0], id, expected) then 1 else 0) + CountWins(Step(rows, acts[0]), acts[1..], id, expected)
  }

  function CountRemovals(rows: Rows, acts: seq<Act>, id: string): nat
    decreases acts
  {
    if acts == [] then 0
    else (if Removes(rows, acts[0], id) then 1 else 0) + CountRemovals(Step(rows, acts[0]), acts[1..], id)
  }

  lemma StepRevision(rows: Rows, a: Act, id: string, expected: nat)
    ensures Wins(rows, a, id, expected) ==>
      RevisionOf(rows, id) == expected && RevisionOf(Step(rows, a), id) == expected + 1
    ensures !Removes(rows, a, id) ==> RevisionOf(Step(rows, a), id) >= RevisionOf(rows, id)
  {
  }

  /** Of any replacements expecting one revision, at most one succeeds per life of the profile. */
  lemma {:induction false} AtMostOneWinner(rows: Rows, acts: seq<Act>, id: string, expected: nat)
    ensures CountWins(rows, acts, id, expected)
         <= CountRemovals(rows, acts, id) + if RevisionOf(rows, id) > expected then 0 else 1
    decreases acts
  {
    hide Step, Wins, Removes;
    if acts != [] {
      StepRevision(rows, acts[0], id, expected);
      AtMostOneWinner(Step(rows, acts[0]), acts[1..], id, expected);
    }
  }

  /** A system profile has one life, so there the bound is one without condition. */
  lemma {:induction false} SystemHasOneWinner(rows: Rows, acts: seq<Act>, id: string, expected: nat)
    requires WellFiled(rows) && id in rows && rows[id].profile.kind == System
    ensures CountRemovals(rows, acts, id) == 0 && CountWins(rows, acts, id, expected) <= 1
  {
    AtMostOneWinner(rows, acts, id, expected);
    NeverRemoved(rows, acts, id);
  }

  lemma {:induction false} NeverRemoved(rows: Rows, acts: seq<Act>, id: string)
    requires WellFiled(rows) && id in rows && rows[id].profile.kind == System
    ensures CountRemovals(rows, acts, id) == 0
    decreases acts
  {
    hide Step, Evolved, WellFiled;
    if acts != [] {
      StepEvolves(rows, acts[0], id);
      EvolvedIsSystem(rows[id], Step(rows, acts[0])[id]);
      NeverRemoved(Step(rows, acts[0]), acts[1..], id);
    }
  }

  /** A deleted user profile starts over at revision one, so the same expectation can win again. */
  lemma SecondLifeSecondWinner(p: Profile)
    requires p.kind == User
    ensures var acts := [Create(p), Replace(p, 1), Delete(p.id, 2, false), Create(p), Replace(p, 1)];
      CountWins(map[], acts, p.id, 1) == 2
  {
    var s1 := Step(map[], Create(p));
    var s2 := Step(s1, Replace(p, 1));
    var s3 := Step(s2, Delete(p.id, 2, false));
    var s4 := Step(s3, Create(p));
    assert s2[p.id] == Stored(p, 2) && p.id !in s3 && s4[p.id] == Stored(p, 1);
    assert CountWins(s4, [Replace(p, 1)], p.id, 1) == 1;
    assert CountWins(s3, [Create(p), Replace(p, 1)], p.id, 1) == 1;
    assert CountWins(s2, [Delete(p.id, 2, false), Create(p), Replace(p, 1)], p.id, 1) == 1;
    assert CountWins(s1, [Replace(p, 1), Delete(p.id, 2, false), Create(p), Replace(p, 1)], p.id, 1) == 2;
  }
}
