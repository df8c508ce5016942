/** Which profiles are due, for which slot, and the jobs the ticks enqueue. */
module Scheduler {
  import opened Wrappers
  import opened Sequences
  import opened Ordering
  import opened Domain

  const SCHEDULE_GRACE: Time := 15 * 60
  const MINUTE: Time := 60
  const DAY: Time := 86400

  /** The schedule of a stored profile: minutes of the local day, and a fixed offset of local time in minutes. */
  datatype Plan = Plan(enabled: bool, scheduled: bool, times: seq<nat>, offset: int) {
    predicate Valid() { forall m :: m in times ==> m < 1440 }
  }

  function LocalDay(p: Plan, now: Time): int { (now + p.offset * MINUTE) / DAY }

  /** The instant of a local time of day on a local day. */
  function SlotOn(p: Plan, day: int, minute: nat): Time { day * DAY + minute * MINUTE - p.offset * MINUTE }

  /** A slot of the current local day that has been reached. */
  predicate Elapsed(p: Plan, now: Time, slot: Time) {
    slot <= now && exists m :: m in p.times && slot == SlotOn(p, LocalDay(p, now), m)
  }

  ghost predicate IsLatest(p: Plan, now: Time, slot: Time) {
    Elapsed(p, now, slot) && forall other :: Elapsed(p, now, other) ==> other <= slot
  }

  function Latest(p: Plan, now: Time, times: seq<nat>): (slot: Option<Time>) {
    if times == [] then None
    else
      var rest := Latest(p, now, times[..|times| - 1]);
      var candidate := SlotOn(p, LocalDay(p, now), times[|times| - 1]);
      if candidate > now || (rest.Some? && rest.value >= candidate) then rest else Some(candidate)
  }

  lemma {:induction false} LatestOver(p: Plan, now: Time, times: seq<nat>)
    ensures var slot := Latest(p, now, times);
      && (slot.Some? ==> slot.value <= now && exists m :: m in times && slot.value == SlotOn(p, LocalDay(p, now), m))
      && forall m :: m in times && SlotOn(p, LocalDay(p, now), m) <= now ==>
           slot.Some? && SlotOn(p, LocalDay(p, now), m) <= slot.value
  {
    hide SlotOn, LocalDay;
    if times != [] {
      LatestOver(p, now, times[..|times| - 1]);
      assert forall m :: m in times <==> m in times[..|times| - 1] || m == times[|times| - 1];
    }
  }

  lemma LatestIsLatest(p: Plan, now: Time)
    ensures Latest(p, now, p.times).Some? ==> IsLatest(p, now, Latest(p, now, p.times).value)
    ensures Latest(p, now, p.times).None? ==> forall slot :: !Elapsed(p, now, slot)
  {
    hide SlotOn, LocalDay;
    LatestOver(p, now, p.times);
  }

  /** Enabled, inside the window of its latest slot, and not covered by a run since just before it. */
  predicate IsDue(p: Plan, covered: Option<Time>, now: Time) {
    && p.enabled && p.scheduled
    && var slot := Latest(p, now, p.times);
    && slot.Some? && now < slot.value + SCHEDULE_GRACE
    && (covered.Some? ==> covered.value < slot.value - SCHEDULE_GRACE)
  }

  /** Local midnight, and the minutes since it. */
  lemma LocalTimes(p: Plan, now: Time, day: int, minute: nat)
    ensures 0 <= now + 60 * p.offset - 86400 * LocalDay(p, now) < 86400
    ensures SlotOn(p, day, minute) + 60 * p.offset == 86400 * day + 60 * minute
  {
  }

  /** Time m is the last of today's to have been reached. */
  predicate LastReached(p: Plan, now: Time, m: nat) {
    var day := LocalDay(p, now);
    && m in p.times && SlotOn(p, day, m) <= now
    && forall other :: other in p.times && SlotOn(p, day, other) <= now ==> other <= m
  }

  /** With such a time a profile is due in its quarter of an hour, unless a run has finished since a quarter of an
      hour before it; without one it is not due. */
  lemma DueMeans(p: Plan, covered: Option<Time>, now: Time)
    ensures forall m :: LastReached(p, now, m) ==>
      var slot := SlotOn(p, LocalDay(p, now), m);
      (IsDue(p, covered, now) <==>
        p.enabled && p.scheduled && now < slot + 900 && (covered.None? || covered.value < slot - 900))
    ensures (forall m :: m in p.times ==> SlotOn(p, LocalDay(p, now), m) > now) ==> !IsDue(p, covered, now)
  {
    LatestIsLatest(p, now);
    forall m | LastReached(p, now, m) ensures Latest(p, now, p.times) == Some(SlotOn(p, LocalDay(p, now), m)) {
      LatestReached(p, now, m);
    }
  }

  lemma LatestReached(p: Plan, now: Time, m: nat)
    requires LastReached(p, now, m)
    ensures Latest(p, now, p.times) == Some(SlotOn(p, LocalDay(p, now), m))
  {
    LatestIsLatest(p, now);
    assert Elapsed(p, now, SlotOn(p, LocalDay(p, now), m));
    var slot := Latest(p, now, p.times).value;
    var other :| other in p.times && slot == SlotOn(p, LocalDay(p, now), other);
  }

  method JudgeProfile(p: Plan, covered: Option<Time>, now: Time) returns (due: bool)
    ensures due <==> IsDue(p, covered, now)
  {
    if !p.enabled || !p.scheduled || p.times == [] { return false; }
    var latest: Option<Time> := None;
    for k := 0 to |p.times|
      invariant latest == Latest(p, now, p.times[..k])
    {
      assert p.times[..k + 1][..k] == p.times[..k];
      var candidate := SlotOn(p, LocalDay(p, now), p.times[k]);
      if candidate <= now && (latest.None? || latest.value < candidate) { latest := Some(candidate); }
    }
    assert p.times[..|p.times|] == p.times;
    if latest.None? || now >= latest.value + SCHEDULE_GRACE { return false; }
    due := covered.None? || covered.value < latest.value - SCHEDULE_GRACE;
  }

  method DueProfiles(profiles: map<string, Plan>, covered: map<string, Time>, now: Time) returns (due: seq<string>)
    ensures Ascending(due)
    ensures forall id :: id in due <==> id in profiles && IsDue(profiles[id], Lookup(covered, id), now)
    ensures forall id, m :: id in profiles && LastReached(profiles[id], now, m) ==>
      var p := profiles[id];
      var slot := SlotOn(p, LocalDay(p, now), m);
      (id in due <==>
        p.enabled && p.scheduled && now < slot + 900 && (id in covered ==> covered[id] < slot - 900))
  {
    hide IsDue, LastReached;
    var keys := SortedKeys(profiles.Keys);
    ghost var judge := (id: string) => id in profiles && IsDue(profiles[id], Lookup(covered, id), now);
    due := [];
    for i := 0 to |keys|
      invariant due == Filter(judge, keys[..i])
    {
      assert keys[i] in SetOf(keys);
      assert keys[..i + 1][..i] == keys[..i];
      var isDue := JudgeProfile(profiles[keys[i]], Lookup(covered, keys[i]), now);
      if isDue { due := due + [keys[i]]; }
    }
    assert keys[..|keys|] == keys;
    assert forall id :: id in keys <==> id in SetOf(keys);
    SelectionAscends(judge, keys);
    forall id | id in profiles
      ensures forall m :: LastReached(profiles[id], now, m) ==>
        var p := profiles[id];
        var slot := SlotOn(p, LocalDay(p, now), m);
        (id in due <==>
          p.enabled && p.scheduled && now < slot + 900 && (id in covered ==> covered[id] < slot - 900))
    {
      DueMeans(profiles[id], Lookup(covered, id), now);
    }
  }

  // ----- The slot a job is named after

  /** The stamp computed when enqueueing: the minute of the latest elapsed slot, or of now. */
  function SlotStamp(p: Plan, now: Time): int {
    (match Latest(p, now, p.times) case Some(slot) => slot case None => now) / MINUTE
  }

  /** Stamps of different minutes differ, and neither they nor profile ids contain the separator. */
  ghost predicate Stamps(stamp: int -> string) {
    && (forall a, b :: stamp(a) == stamp(b) ==> a == b)
    && (forall a :: ':' !in stamp(a))
  }

  function JobKey(stamp: int -> string, id: string, minute: int): string { "scheduled:" + id + ":" + stamp(minute) }

  lemma JobKeyText(stamp: int -> string, id: string, minute: int)
    ensures |JobKey(stamp, id, minute)| == 11 + |id| + |stamp(minute)|
    ensures "scheduled:" + id + ":" <= JobKey(stamp, id, minute)
    ensures JobKey(stamp, id, minute)[11 + |id|..] == stamp(minute)
  {
  }

  lemma SlotsAreWholeMinutes(p: Plan, day: int, minute: nat)
    ensures SlotOn(p, day, minute) % MINUTE == 0
  {
    assert SlotOn(p, day, minute) == MINUTE * (day * 1440 + minute - p.offset);
  }

  /** The slot in a due profile's job key is the slot it was judged due for. */
  lemma StampIsJudgedSlot(p: Plan, covered: Option<Time>, now: Time)
    requires IsDue(p, covered, now)
    ensures IsLatest(p, now, SlotStamp(p, now) * MINUTE)
    ensures SlotStamp(p, now) * MINUTE <= now < SlotStamp(p, now) * MINUTE + SCHEDULE_GRACE
    ensures covered.Some? ==> covered.value < SlotStamp(p, now) * MINUTE - SCHEDULE_GRACE
  {
    LatestIsLatest(p, now);
    var slot := Latest(p, now, p.times).value;
    var m :| m in p.times && slot == SlotOn(p, LocalDay(p, now), m);
    SlotsAreWholeMinutes(p, LocalDay(p, now), m);
  }

  lemma {:induction false} SeparatedParts(a: string, rest: string, b: string, rest': string)
    requires ':' !in a && ':' !in b && a + ":" + rest == b + ":" + rest'
    ensures a == b && rest == rest'
  {
    var x, y := a + ":" + rest, b + ":" + rest';
    assert (a != "" ==> x[0] == a[0]) && (a == "" ==> x[0] == ':');
    assert (b != "" ==> y[0] == b[0]) && (b == "" ==> y[0] == ':');
    if a != "" && b != "" {
      assert x[1..] == a[1..] + ":" + rest && y[1..] == b[1..] + ":" + rest';
      SeparatedParts(a[1..], rest, b[1..], rest');
    } else {
      assert x[1..] == rest && y[1..] == rest';
    }
  }

  /** Keys name a profile and a slot unambiguously. */
  lemma KeysTellSlotsApart(stamp: int -> string, id: string, minute: int, id': string, minute': int)
    requires Stamps(stamp) && ':' !in id && ':' !in id'
    requires JobKey(stamp, id, minute) == JobKey(stamp, id', minute')
    ensures id == id' && minute == minute'
  {
    var a, b := JobKey(stamp, id, minute), JobKey(stamp, id', minute');
    assert a[|"scheduled:"|..] == id + ":" + stamp(minute);
    assert b[|"scheduled:"|..] == id' + ":" + stamp(minute');
    SeparatedParts(id, stamp(minute), id', stamp(minute'));
  }

  // ----- Midnight

  /**
   * Inside its quarter of an hour a slot is the one a profile is judged by until local midnight and until a later
   * time of the same day is reached; and then the profile is due unless a run has covered it.
   */
  lemma WindowOfASlot(p: Plan, covered: Option<Time>, day: int, minute: nat, now: Time)
    requires p.Valid() && p.enabled && p.scheduled && minute in p.times
    requires SlotOn(p, day, minute) <= now < SlotOn(p, day, minute) + 900
    ensures (IsDue(p, covered, now) && SlotStamp(p, now) * MINUTE == SlotOn(p, day, minute)) <==>
      && now < SlotOn(p, day + 1, 0) && (forall m :: m in p.times && m > minute ==> now < SlotOn(p, day, m))
      && (covered.None? || covered.value < SlotOn(p, day, minute) - 900)
  {
    SlotsAreWholeMinutes(p, day, minute);
    var slot, alone := SlotOn(p, day, minute), forall m :: m in p.times && m > minute ==> now < SlotOn(p, day, m);
    assert now < SlotOn(p, day + 1, 0) <==> LocalDay(p, now) == day;
    if IsDue(p, covered, now) && SlotStamp(p, now) * MINUTE == slot {
      StampIsJudgedSlot(p, covered, now);
      var m :| m in p.times && slot == SlotOn(p, LocalDay(p, now), m);
      assert LocalDay(p, now) == day;
      forall m | m in p.times && m > minute ensures now < SlotOn(p, day, m) {
        assert Elapsed(p, now, SlotOn(p, day, m)) <==> SlotOn(p, day, m) <= now;
      }
    }
    if LocalDay(p, now) == day && alone {
      assert LastReached(p, now, minute);
      LatestReached(p, now, minute);
      DueMeans(p, covered, now);
    }
  }

  /** Ten minutes after 23:55 a slot of the day before is no longer served, though its quarter of an hour runs on. */
  lemma SlotLostAtMidnight()
    ensures var p, now := Plan(true, true, [1435], 0), 86700;
      && p.Valid() && SlotOn(p, 0, 1435) <= now < SlotOn(p, 0, 1435) + SCHEDULE_GRACE
      && !IsDue(p, None, now)
  {
    var p, now := Plan(true, true, [1435], 0), 86700;
    assert p.times[..0] == [] && LocalDay(p, now) == 1 && SlotOn(p, 1, 1435) > now;
    assert Latest(p, now, p.times) == None;
  }
}
