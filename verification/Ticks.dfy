/** Scheduler ticks against the durable run queue, over any number of ticks. */
module Ticks {
  import opened Wrappers
  import opened Sequences
  import opened Ordering
  import opened Domain
  import opened RunQueue
  import opened Scheduler

  /** When a job produced a publishable snapshot, if it did. */
  function Covering(j: Job): Option<Time> {
    if j.status in {Done(Completed), Done(PartlyCompleted)} then j.finishedAt else None
  }

  predicate Covers(jobs: seq<Job>, id: string, at: Time) {
    exists j :: j in jobs && j.profile == id && Covering(j) == Some(at)
  }

  /** The latest covering run of every profile that has one. */
  ghost predicate IsCoverage(jobs: seq<Job>, last: map<string, Time>) {
    && (forall id :: id in last ==> Covers(jobs, id, last[id]))
    && (forall id, at :: Covers(jobs, id, at) ==> id in last && at <= last[id])
  }

  method LastCoveredByProfile(jobs: seq<Job>) returns (last: map<string, Time>)
    ensures IsCoverage(jobs, last)
  {
    last := map[];
    for i := 0 to |jobs|
      invariant IsCoverage(jobs[..i], last)
    {
      var j := jobs[i];
      OneMoreJob(jobs[..i], j);
      assert jobs[..i + 1] == jobs[..i] + [j];
      var finish := Covering(j);
      if finish.Some? && (j.profile !in last || finish.value > last[j.profile]) {
        last := last[j.profile := finish.value];
      }
    }
    assert jobs[..|jobs|] == jobs;
  }

  lemma OneMoreJob(jobs: seq<Job>, j: Job)
    ensures forall id, at :: Covers(jobs + [j], id, at) <==>
      Covers(jobs, id, at) || (j.profile == id && Covering(j) == Some(at))
  {
    assert forall x :: x in jobs + [j] <==> x in jobs || x == j;
  }

  /** What covers a slot is a finished job of the profile that came out complete or partly so. */
  lemma CoverageMeans(jobs: seq<Job>, last: map<string, Time>, id: string)
    requires IsCoverage(jobs, last)
    ensures var mine :=
        set j | j in jobs && j.profile == id && j.finishedAt.Some? && Publishes(j.status) :: j.finishedAt;
      && (id in last ==> Some(last[id]) in mine)
      && (forall at :: Some(at) in mine ==> id in last && at <= last[id])
  {
    if id in last {
      assert Covers(jobs, id, last[id]);
      var j :| j in jobs && j.profile == id && Covering(j) == Some(last[id]);
    }
    forall j | j in jobs && j.profile == id && Covering(j).Some? ensures id in last && Covering(j).value <= last[id] {
      assert Covers(jobs, id, Covering(j).value);
    }
  }

  predicate Publishes(status: RunStatus) { status == Done(Completed) || status == Done(PartlyCompleted) }

  /** A run that produced a snapshot since a quarter of an hour before the slot leaves nothing due. */
  lemma CoveredSlotIsNotDue(jobs: seq<Job>, last: map<string, Time>, id: string, p: Plan, now: Time, at: Time)
    requires IsCoverage(jobs, last) && Covers(jobs, id, at)
    requires at >= SlotStamp(p, now) * MINUTE - SCHEDULE_GRACE
    ensures !IsDue(p, Lookup(last, id), now)
  {
    if IsDue(p, Lookup(last, id), now) { StampIsJudgedSlot(p, Lookup(last, id), now); }
  }

  predicate HasKey(jobs: seq<Job>, key: string) { exists j :: j in jobs && j.key == key }

  function KeyFor(stamp: int -> string, profiles: map<string, Plan>, id: string, now: Time): string
    requires id in profiles
  { JobKey(stamp, id, SlotStamp(profiles[id], now)) }

  predicate DueNow(profiles: map<string, Plan>, last: map<string, Time>, id: string, now: Time) {
    id in profiles && IsDue(profiles[id], Lookup(last, id), now)
  }

  /** The jobs a tick appends, one per enqueued profile. */
  ghost predicate Appended(
    before: seq<Job>, after: seq<Job>, stamp: int -> string, profiles: map<string, Plan>, runs: seq<RunId>,
    enqueued: seq<string>, now: Time)
  {
    && |after| == |before| + |enqueued| && before <= after && |enqueued| <= |runs|
    && forall i :: 0 <= i < |enqueued| ==>
         IsNewJob(after[|before| + i], stamp, profiles, runs, enqueued[i], now)
  }

  predicate IsNewJob(
    j: Job, stamp: int -> string, profiles: map<string, Plan>, runs: seq<RunId>, id: string, now: Time)
  {
    && id in profiles && j.run in runs
    && j == Job(KeyFor(stamp, profiles, id, now), j.run, id, Queued, 0, now, now, None, None)
  }

  lemma OtherKeysUnchanged(
    before: seq<Job>, after: seq<Job>, stamp: int -> string, profiles: map<string, Plan>, runs: seq<RunId>,
    enqueued: seq<string>, now: Time, id: string)
    requires Appended(before, after, stamp, profiles, runs, enqueued, now) && Stamps(stamp)
    requires forall x :: x in profiles ==> ':' !in x
    requires id in profiles && id !in enqueued
    ensures HasKey(after, KeyFor(stamp, profiles, id, now)) <==> HasKey(before, KeyFor(stamp, profiles, id, now))
  {
    hide JobKey, SlotStamp, Stamps;
    var key := KeyFor(stamp, profiles, id, now);
    if HasKey(after, key) {
      var j :| j in after && j.key == key;
      var k :| 0 <= k < |after| && after[k] == j;
      if k >= |before| {
        var other := enqueued[k - |before|];
        assert IsNewJob(after[|before| + (k - |before|)], stamp, profiles, runs, other, now);
        KeysTellSlotsApart(stamp, id, SlotStamp(profiles[id], now), other, SlotStamp(profiles[other], now));
      } else {
        assert before[k] == after[k];
      }
    }
    if HasKey(before, key) {
      var j :| j in before && j.key == key;
      var k :| 0 <= k < |before| && before[k] == j;
      assert after[k] == j;
    }
  }

  /** One tick enqueues, for every due profile, the slot it is due for, unless that job exists already. */
  method EnqueueDueProfiles(
    queue: RunQueueRepository, profiles: map<string, Plan>, stamp: int -> string, runs: seq<RunId>, now: Time)
    returns (enqueued: seq<string>, ghost last: map<string, Time>)
    requires queue.Valid() && Stamps(stamp) && forall id :: id in profiles ==> ':' !in id
    requires |runs| >= |profiles| && NoDuplicates(runs) && forall j :: j in queue.jobs ==> j.run !in runs
    modifies queue
    ensures queue.Valid() && IsCoverage(old(queue.jobs), last)
    ensures Appended(old(queue.jobs), queue.jobs, stamp, profiles, runs, enqueued, now)
    ensures forall id :: id in enqueued <==>
      DueNow(profiles, last, id, now) && !HasKey(old(queue.jobs), KeyFor(stamp, profiles, id, now))
    ensures forall id :: DueNow(profiles, last, id, now) ==> HasKey(queue.jobs, KeyFor(stamp, profiles, id, now))
  {
    hide IsDue, IsCoverage, SlotStamp, JobKey;
    var covered := LastCoveredByProfile(queue.jobs);
    last := covered;
    var due := DueProfiles(profiles, covered, now);
    SizeOfDue(due, profiles);
    enqueued := [];
    ghost var before := queue.jobs;
    for i := 0 to |due|
      invariant queue.Valid() && |enqueued| <= i
      invariant Appended(before, queue.jobs, stamp, profiles, runs, enqueued, now)
      invariant forall j :: j in queue.jobs ==> j.run !in runs[i..]
      invariant forall id :: id in enqueued <==> id in due[..i] && !HasKey(before, KeyFor(stamp, profiles, id, now))
      invariant forall id :: id in due[..i] ==> HasKey(queue.jobs, KeyFor(stamp, profiles, id, now))
    {
      var id := due[i];
      assert due[..i + 1] == due[..i] + [id];
      var key := KeyFor(stamp, profiles, id, now);
      OtherKeysUnchanged(before, queue.jobs, stamp, profiles, runs, enqueued, now, id);
      var job, created := queue.Enqueue(key, id, runs[i], now);
      if created { enqueued := enqueued + [id]; }
    }
    assert due[..|due|] == due;
  }

  lemma SizeOfDue(due: seq<string>, profiles: map<string, Plan>)
    requires Ascending(due) && forall id :: id in due ==> id in profiles
    ensures |due| <= |profiles|
  {
    DistinctBySize(due);
    assert SetOf(due) <= profiles.Keys;
    SubsetSize(SetOf(due), profiles.Keys);
  }

  // ----- Any number of ticks, workers and recoveries

  /** Jobs on the scheduler's key space are entered only by ticks, each on a judgement made then or earlier:
      entry i on what the queue held after the first judged(i) actions. */
  ghost predicate OnlyTicksSchedule(max: nat, actions: seq<Action>, stamp: int -> string, judged: nat -> nat) {
    forall i :: 0 <= i < |actions| && actions[i].Enter? && "scheduled:" <= actions[i].key ==>
      judged(i) <= i && exists profiles, id ::
        EnteredByTick(Execute(max, actions[..judged(i)]).jobs, stamp, profiles, id, actions[i])
  }

  ghost predicate EnteredByTick(
    jobs: seq<Job>, stamp: int -> string, profiles: map<string, Plan>, id: string, a: Action)
    requires a.Enter?
  {
    && ':' !in id && a.profile == id
    && (exists last :: IsCoverage(jobs, last) && DueNow(profiles, last, id, a.now))
    && a.key == KeyFor(stamp, profiles, id, a.now)
  }

  /** When the slot was judged no publishable run of the profile had finished since a quarter of an hour before it. */
  ghost predicate Uncovered(judgedOn: seq<Job>, id: string, minute: int) {
    forall at :: Covers(judgedOn, id, at) ==> at < minute * MINUTE - SCHEDULE_GRACE
  }

  /** The job was entered for a slot in whose quarter of an hour it was enqueued, and which was judged uncovered. */
  ghost predicate InItsWindow(stamp: int -> string, judgedOn: seq<Job>, j: Job) {
    ':' !in j.profile && exists minute :: IsSlotOf(stamp, j, minute) && Uncovered(judgedOn, j.profile, minute)
  }

  /** Action i created row n. */
  ghost predicate Entered(max: nat, actions: seq<Action>, i: nat, n: nat) {
    i < |actions| && |Execute(max, actions[..i]).jobs| == n < |Execute(max, actions[..i + 1]).jobs|
  }

  predicate IsSlotOf(stamp: int -> string, j: Job, minute: int) {
    && j.key == JobKey(stamp, j.profile, minute)
    && minute * MINUTE <= j.enqueuedAt < minute * MINUTE + SCHEDULE_GRACE
  }

  predicate SameOrigin(a: Job, b: Job) {
    a.run == b.run && a.key == b.key && a.profile == b.profile && a.enqueuedAt == b.enqueuedAt
  }

  /** No action changes what a row was created with, and only entering creates one. */
  lemma RowsKeepTheirOrigin(s: System, max: nat, a: Action)
    ensures var after := Act(s, max, a).jobs;
      && |s.jobs| <= |after| <= |s.jobs| + 1
      && (forall i :: 0 <= i < |s.jobs| ==> SameOrigin(after[i], s.jobs[i]))
      && (|after| > |s.jobs| ==>
            a.Enter? && SameOrigin(after[|s.jobs|], Job(a.key, a.run, a.profile, Queued, 0, a.now, a.now, None, None)))
  {
  }

  lemma EnteredInItsWindow(
    jobs: seq<Job>, stamp: int -> string, profiles: map<string, Plan>, id: string, a: Action, j: Job)
    requires a.Enter? && EnteredByTick(jobs, stamp, profiles, id, a)
    requires j.key == a.key && j.profile == a.profile && j.enqueuedAt == a.now
    ensures InItsWindow(stamp, jobs, j)
  {
    hide IsDue, SlotStamp;
    var last :| IsCoverage(jobs, last) && DueNow(profiles, last, id, a.now);
    StampIsJudgedSlot(profiles[id], Lookup(last, id), a.now);
    var minute := SlotStamp(profiles[id], a.now);
    assert IsSlotOf(stamp, j, minute) && Uncovered(jobs, j.profile, minute);
  }

  lemma OriginDecidesWindow(stamp: int -> string, judgedOn: seq<Job>, a: Job, b: Job)
    requires SameOrigin(a, b) && InItsWindow(stamp, judgedOn, a)
    ensures InItsWindow(stamp, judgedOn, b)
  {
    var minute :| IsSlotOf(stamp, a, minute) && Uncovered(judgedOn, a.profile, minute);
    assert IsSlotOf(stamp, b, minute);
  }

  /**
   * Over any ticks, claims, retries, crashes and recoveries: every scheduled job was enqueued inside the
   * quarter of an hour after the slot its key names, and when that was judged the slot was uncovered.
   */
  lemma {:induction false} ScheduledJobsKeepTheirWindow(
    max: nat, actions: seq<Action>, stamp: int -> string, judged: nat -> nat, n: nat) returns (i: nat)
    requires OnlyTicksSchedule(max, actions, stamp, judged)
    requires n < |Execute(max, actions).jobs| && "scheduled:" <= Execute(max, actions).jobs[n].key
    ensures Entered(max, actions, i, n) && judged(i) <= i
    ensures InItsWindow(stamp, Execute(max, actions[..judged(i)]).jobs, Execute(max, actions).jobs[n])
  {
    hide Act, InItsWindow, EnteredByTick;
    var last := |actions| - 1;
    var before, a := actions[..last], actions[last];
    var s := Execute(max, before);
    RowsKeepTheirOrigin(s, max, a);
    if n < |s.jobs| {
      TicksScheduleBefore(max, actions, stamp, judged);
      i := ScheduledJobsKeepTheirWindow(max, before, stamp, judged, n);
      assert before[..i] == actions[..i] && before[..i + 1] == actions[..i + 1];
      assert before[..judged(i)] == actions[..judged(i)];
      OriginDecidesWindow(stamp, Execute(max, before[..judged(i)]).jobs, s.jobs[n], Execute(max, actions).jobs[n]);
    } else {
      i := last;
      assert actions[..i + 1] == actions;
      var jobs := Execute(max, actions[..judged(i)]).jobs;
      var profiles, id :| EnteredByTick(jobs, stamp, profiles, id, a);
      EnteredInItsWindow(jobs, stamp, profiles, id, a, Execute(max, actions).jobs[n]);
    }
  }

  lemma TicksScheduleBefore(max: nat, actions: seq<Action>, stamp: int -> string, judged: nat -> nat)
    requires actions != [] && OnlyTicksSchedule(max, actions, stamp, judged)
    ensures OnlyTicksSchedule(max, actions[..|actions| - 1], stamp, judged)
  {
    hide Execute, EnteredByTick;
    var before := actions[..|actions| - 1];
    forall i | 0 <= i < |before| && before[i].Enter? && "scheduled:" <= before[i].key
      ensures judged(i) <= i && exists profiles, id ::
        EnteredByTick(Execute(max, before[..judged(i)]).jobs, stamp, profiles, id, before[i])
    {
      assert before[i] == actions[i] && before[..judged(i)] == actions[..judged(i)];
    }
  }

  /** At any moment at most one job exists for a profile and a slot. */
  lemma {:induction false} OneJobPerSlot(
    max: nat, actions: seq<Action>, stamp: int -> string, id: string, minute: int, i: nat, k: nat)
    requires i < |Execute(max, actions).jobs| && k < |Execute(max, actions).jobs|
    requires Execute(max, actions).jobs[i].key == JobKey(stamp, id, minute) == Execute(max, actions).jobs[k].key
    ensures i == k
  {
    ClaimsArePaidFor(max, actions, "");
  }
}
