/** What changed between two published snapshots of a profile, and whether to tell its owner. */
module Planner {
  import opened Wrappers
  import opened Sequences
  import opened Domain
  import opened Outbox
  import P = Profiles
  import S = Scheduler

  /** One match as a snapshot lists it. */
  datatype Listed = Listed(key: string, score: int, terms: seq<string>, lot: string)

  datatype ChangeKind = New | Changed | Removed

  datatype Change = Change(kind: ChangeKind, entry: Listed)

  predicate Differs(a: Listed, b: Listed) { a.score != b.score || a.terms != b.terms }

  /** The entries by key; a repeated key keeps its last entry. */
  function ByKey(entries: seq<Listed>): map<string, Listed> {
    if entries == [] then map[]
    else ByKey(entries[..|entries| - 1])[entries[|entries| - 1].key := entries[|entries| - 1]]
  }

  function Keys(entries: seq<Listed>): (keys: seq<string>)
    ensures |keys| == |entries|
  { Map((e: Listed) => e.key, entries) }

  function Judge(e: Listed, before: map<string, Listed>): seq<Change> {
    if e.key !in before then [Change(New, e)]
    else if Differs(e, before[e.key]) then [Change(Changed, e)]
    else []
  }

  function Appearing(current: seq<Listed>, before: map<string, Listed>): seq<Change> {
    if current == [] then []
    else Appearing(current[..|current| - 1], before) + Judge(current[|current| - 1], before)
  }

  function Vanishing(previous: seq<Listed>, current: set<string>): seq<Change> {
    if previous == [] then []
    else
      var e := previous[|previous| - 1];
      Vanishing(previous[..|previous| - 1], current) + if e.key in current then [] else [Change(Removed, e)]
  }

  /** Removals are reported only of a complete run, and dismissed opportunities never. */
  function Changes(current: seq<Listed>, previous: seq<Listed>, completed: bool, dismissed: set<string>): seq<Change> {
    Undismissed(Appearing(current, ByKey(previous))
                + (if completed then Vanishing(previous, SetOf(Keys(current))) else []),
                dismissed)
  }

  function Undismissed(changes: seq<Change>, dismissed: set<string>): seq<Change> {
    Filter((c: Change) => c.entry.key !in dismissed, changes)
  }

  method FindChanges(current: seq<Listed>, previous: seq<Listed>, completed: bool, dismissed: set<string>)
    returns (changes: seq<Change>)
    ensures changes == Changes(current, previous, completed, dismissed)
  {
    var previousByKey: map<string, Listed> := map[];
    for i := 0 to |previous|
      invariant previousByKey == ByKey(previous[..i])
    {
      assert previous[..i + 1][..i] == previous[..i];
      previousByKey := previousByKey[previous[i].key := previous[i]];
    }
    assert previous[..|previous|] == previous;
    hide Undismissed, Differs, Keys;
    changes := [];
    for i := 0 to |current|
      invariant changes == Appearing(current[..i], ByKey(previous))
    {
      assert current[..i + 1][..i] == current[..i];
      var e := current[i];
      if e.key !in previousByKey {
        changes := changes + [Change(New, e)];
      } else if Differs(e, previousByKey[e.key]) {
        changes := changes + [Change(Changed, e)];
      }
    }
    assert current[..|current|] == current;
    if completed {
      var currentKeys := SetOf(Keys(current));
      ghost var found := changes;
      for i := 0 to |previous|
        invariant changes == found + Vanishing(previous[..i], currentKeys)
      {
        assert previous[..i + 1][..i] == previous[..i];
        ghost var before := Vanishing(previous[..i], currentKeys);
        if previous[i].key !in currentKeys {
          changes := changes + [Change(Removed, previous[i])];
          assert changes == found + (before + [Change(Removed, previous[i])]);
        } else {
          assert changes == found + (before + []);
        }
      }
      assert previous[..|previous|] == previous;
    } else {
      assert changes + [] == changes;
    }
    changes := Undismissed(changes, dismissed);
  }

  // ----- The changes lead from the previous snapshot to the current one

  datatype Standing = Standing(score: int, terms: seq<string>)

  function StandingOf(e: Listed): Standing { Standing(e.score, e.terms) }

  /** What a reader believes of one opportunity after reading the changes in order. */
  function Updated(before: Option<Standing>, changes: seq<Change>, key: string): Option<Standing> {
    if changes == [] then before
    else
      var last := changes[|changes| - 1];
      if last.entry.key != key then Updated(before, changes[..|changes| - 1], key)
      else if last.kind == Removed then None
      else Some(StandingOf(last.entry))
  }

  function StandingIn(entries: seq<Listed>, key: string): Option<Standing> {
    if key in ByKey(entries) then Some(StandingOf(ByKey(entries)[key])) else None
  }

  lemma {:induction false} UpdatedByBoth(before: Option<Standing>, a: seq<Change>, b: seq<Change>, key: string)
    ensures Updated(before, a + b, key) == Updated(Updated(before, a, key), b, key)
  {
    if b == [] {
      assert a + b == a;
    } else {
      assert (a + b)[..|a + b| - 1] == a + b[..|b| - 1];
      UpdatedByBoth(before, a, b[..|b| - 1], key);
    }
  }

  lemma {:induction false} UpdatedByKept(
    before: Option<Standing>, changes: seq<Change>, dismissed: set<string>, key: string)
    ensures
      Updated(before, Undismissed(changes, dismissed), key)
      == if key in dismissed then before else Updated(before, changes, key)
  {
    if changes != [] {
      var front, last := changes[..|changes| - 1], changes[|changes| - 1];
      UpdatedByKept(before, front, dismissed, key);
      var kept := Undismissed(front, dismissed);
      assert Undismissed(changes, dismissed) == if last.entry.key in dismissed then kept else kept + [last];
      assert (kept + [last])[..|kept|] == kept;
    }
  }

  lemma {:induction false} KeysOfMap(entries: seq<Listed>)
    ensures ByKey(entries).Keys == SetOf(Keys(entries))
  {
    if entries != [] {
      var front := entries[..|entries| - 1];
      KeysOfMap(front);
      assert Keys(entries) == Keys(front) + [entries[|entries| - 1].key];
    }
  }

  lemma {:induction false} UpdatedByAppearing(current: seq<Listed>, previous: seq<Listed>, key: string)
    requires NoDuplicates(Keys(current))
    ensures var before := StandingIn(previous, key);
      Updated(before, Appearing(current, ByKey(previous)), key)
        == if key in ByKey(current) then StandingIn(current, key) else before
  {
    hide NoDuplicates, Differs;
    if current != [] {
      var front, last := current[..|current| - 1], current[|current| - 1];
      DistinctFront(current);
      UpdatedByAppearing(front, previous, key);
      KeysOfMap(front);
      UpdatedByBoth(StandingIn(previous, key), Appearing(front, ByKey(previous)), Judge(last, ByKey(previous)), key);
      if last.key == key { JudgedRight(last, previous); }
    }
  }

  lemma DistinctFront(current: seq<Listed>)
    requires current != [] && NoDuplicates(Keys(current))
    ensures NoDuplicates(Keys(current[..|current| - 1]))
    ensures current[|current| - 1].key !in SetOf(Keys(current[..|current| - 1]))
  {
    var front := current[..|current| - 1];
    assert Keys(current) == Keys(front) + [current[|current| - 1].key];
  }

  lemma JudgedRight(e: Listed, previous: seq<Listed>)
    ensures Updated(StandingIn(previous, e.key), Judge(e, ByKey(previous)), e.key) == Some(StandingOf(e))
  {
  }

  lemma {:induction false} UpdatedByVanishing(
    before: Option<Standing>, previous: seq<Listed>, current: set<string>, key: string)
    ensures Updated(before, Vanishing(previous, current), key)
         == if key in ByKey(previous) && key !in current then None else before
  {
    if previous != [] {
      var front, last := previous[..|previous| - 1], previous[|previous| - 1];
      UpdatedByVanishing(before, front, current, key);
      assert Vanishing(front, current) + [] == Vanishing(front, current);
      if last.key !in current {
        var removal := [Change(Removed, last)];
        UpdatedByBoth(before, Vanishing(front, current), removal, key);
        assert removal[..0] == [] && removal[0].kind == Removed;
      }
    }
  }

  /**
   * Reading the changes turns the previous snapshot's standing of every opportunity into the current
   * one's; a partial run never turns anything off, and a dismissed opportunity is not mentioned.
   */
  lemma ChangesLeadToCurrent(
    current: seq<Listed>, previous: seq<Listed>, completed: bool, dismissed: set<string>, key: string)
    requires NoDuplicates(Keys(current))
    ensures var before, now := StandingIn(previous, key), StandingIn(current, key);
      Updated(before, Changes(current, previous, completed, dismissed), key) ==
        if key in dismissed then before
        else if now.Some? then now
        else if completed then None
        else before
  {
    hide Updated, NoDuplicates;
    var before := StandingIn(previous, key);
    var appearing, vanishing := Appearing(current, ByKey(previous)), Vanishing(previous, SetOf(Keys(current)));
    UpdatedByAppearing(current, previous, key);
    KeysOfMap(current);
    UpdatedByBoth(before, appearing, vanishing, key);
    UpdatedByVanishing(Updated(before, appearing, key), previous, SetOf(Keys(current)), key);
    assert appearing + [] == appearing;
    UpdatedByKept(before, appearing + if completed then vanishing else [], dismissed, key);
  }

  /** A change is only reported where there is one. */
  lemma {:induction false} AppearingIsReal(current: seq<Listed>, before: map<string, Listed>, c: Change)
    requires c in Appearing(current, before)
    ensures c.kind != Removed && c.entry in current
    ensures c.kind == New <==> c.entry.key !in before
    ensures c.kind == Changed ==> Differs(c.entry, before[c.entry.key])
  {
    var front, last := current[..|current| - 1], current[|current| - 1];
    if c in Appearing(front, before) { AppearingIsReal(front, before, c); }
  }

  lemma {:induction false} VanishingIsReal(previous: seq<Listed>, current: set<string>, c: Change)
    requires c in Vanishing(previous, current)
    ensures c.kind == Removed && c.entry in previous && c.entry.key !in current
  {
    var front := previous[..|previous| - 1];
    if c in Vanishing(front, current) { VanishingIsReal(front, current, c); }
  }

  lemma ReportedChangesAreReal(
    current: seq<Listed>, previous: seq<Listed>, completed: bool, dismissed: set<string>, c: Change)
    requires c in Changes(current, previous, completed, dismissed)
    ensures c.entry.key !in dismissed
    ensures match c.kind
      case New => c.entry in current && c.entry.key !in ByKey(previous)
      case Changed =>
        c.entry in current && c.entry.key in ByKey(previous) && Differs(c.entry, ByKey(previous)[c.entry.key])
      case Removed => completed && c.entry in previous && c.entry.key !in Keys(current)
  {
    if c in Appearing(current, ByKey(previous)) { AppearingIsReal(current, ByKey(previous), c); }
    else { VanishingIsReal(previous, SetOf(Keys(current)), c); }
  }

  /** Nothing is reported exactly when nothing that matters to the reader changed. */
  lemma SilenceMeansNoChange(
    current: seq<Listed>, previous: seq<Listed>, completed: bool, dismissed: set<string>)
    requires NoDuplicates(Keys(current))
    ensures Changes(current, previous, completed, dismissed) == [] <==>
      forall key :: key !in dismissed ==> Unchanged(current, previous, completed, key)
  {
    hide NoDuplicates, Differs;
    var changes := Changes(current, previous, completed, dismissed);
    if changes == [] {
      forall key | key !in dismissed ensures Unchanged(current, previous, completed, key) {
        ChangesLeadToCurrent(current, previous, completed, dismissed, key);
      }
    } else {
      var c := changes[0];
      ReportedChangesAreReal(current, previous, completed, dismissed, c);
      ChangeShows(current, previous, completed, c);
    }
  }

  predicate Unchanged(current: seq<Listed>, previous: seq<Listed>, completed: bool, key: string) {
    var before, now := StandingIn(previous, key), StandingIn(current, key);
    now == before || (now.None? && !completed)
  }

  lemma ChangeShows(current: seq<Listed>, previous: seq<Listed>, completed: bool, c: Change)
    requires NoDuplicates(Keys(current))
    requires match c.kind
      case New => c.entry in current && c.entry.key !in ByKey(previous)
      case Changed =>
        c.entry in current && c.entry.key in ByKey(previous) && Differs(c.entry, ByKey(previous)[c.entry.key])
      case Removed => completed && c.entry in previous && c.entry.key !in Keys(current)
    ensures !Unchanged(current, previous, completed, c.entry.key)
  {
    KeysOfMap(current);
    KeysOfMap(previous);
    if c.kind == Removed {
      var i :| 0 <= i < |previous| && previous[i] == c.entry;
      assert Keys(previous)[i] == c.entry.key;
    } else {
      OwnEntry(current, c.entry);
    }
  }

  lemma {:induction false} OwnEntry(entries: seq<Listed>, e: Listed)
    requires NoDuplicates(Keys(entries)) && e in entries
    ensures e.key in ByKey(entries) && ByKey(entries)[e.key] == e
  {
    var front, last := entries[..|entries| - 1], entries[|entries| - 1];
    if e != last {
      DistinctFront(entries);
      OwnEntry(front, e);
      KeysOfMap(front);
    }
  }

  // ----- Whether to notify

  datatype Snapshot = Snapshot(matches: seq<Listed>, completed: bool)

  function DedupeKey(run: RunId, profile: string): string {
    "run:" + (run + ":" + ("profile:" + (profile + ":" + "channel:smtp")))
  }

  function ReportedChanges(snapshot: Option<Snapshot>, previous: seq<Listed>, dismissed: set<string>): seq<Change> {
    match snapshot
    case None => []
    case Some(s) => Changes(s.matches, previous, s.completed, dismissed)
  }

  /** Plan the notification of one run for one profile; planning it again finds the same item. */
  method Plan(
    outbox: NotificationRepository, enabled: bool, mode: P.Notification, profile: string, run: RunId, failed: bool,
    snapshot: Option<Snapshot>, previous: seq<Listed>, dismissed: set<string>, now: Time) returns (item: Option<Item>)
    requires outbox.Valid()
    modifies outbox
    ensures outbox.Valid()
    ensures item.Some? <==>
      && enabled && mode != P.Disabled
      && (failed ==> mode == P.MatchesOrFailure)
      && (!failed ==> ReportedChanges(snapshot, previous, dismissed) != [])
    ensures item.Some? ==> item.value in outbox.items && item.value.key == DedupeKey(run, profile)
    ensures outbox.items ==
      if item.Some? && IndexOfItem(old(outbox.items), DedupeKey(run, profile)) == |old(outbox.items)|
      then old(outbox.items) + [NewItem(DedupeKey(run, profile), now)] else old(outbox.items)
  {
    if mode == P.Disabled || !enabled { return None; }
    var changes: seq<Change> := [];
    if snapshot.Some? {
      changes := FindChanges(snapshot.value.matches, previous, snapshot.value.completed, dismissed);
    }
    if failed {
      if mode != P.MatchesOrFailure { return None; }
    } else if changes == [] {
      return None;
    }
    var stored, created := outbox.Enqueue(DedupeKey(run, profile), now);
    item := Some(stored);
  }

  lemma DedupeKeysTellApart(run: RunId, profile: string, run': RunId, profile': string)
    requires ':' !in run && ':' !in run' && ':' !in profile && ':' !in profile'
    requires DedupeKey(run, profile) == DedupeKey(run', profile')
    ensures run == run' && profile == profile'
  {
    var x, y := profile + ":" + "channel:smtp", profile' + ":" + "channel:smtp";
    SamePrefix("run:", run + ":" + ("profile:" + x), run' + ":" + ("profile:" + y));
    S.SeparatedParts(run, "profile:" + x, run', "profile:" + y);
    SamePrefix("profile:", x, y);
    S.SeparatedParts(profile, "channel:smtp", profile', "channel:smtp");
  }

  lemma DedupeKeyText(run: RunId, profile: string)
    ensures DedupeKey(run, profile) == "run:" + run + ":profile:" + profile + ":channel:smtp"
  {
  }

  lemma SamePrefix(prefix: string, x: string, y: string)
    requires prefix + x == prefix + y
    ensures x == y
  {
    assert (prefix + x)[|prefix|..] == x && (prefix + y)[|prefix|..] == y;
  }
}
