/** The durable run queue: claims, recoveries and bounded retries by any number of workers. */
module RunQueue {
  import opened Wrappers
  import opened Sequences
  import opened Domain

  datatype RunStatus = Queued | Running | Done(outcome: Outcome)
  datatype Outcome = Completed | PartlyCompleted | Unsuccessful

  // Rows are kept in insertion order, so the position of a row stands for its serial id.
  datatype Job = Job(
    key: string, run: RunId, profile: string, status: RunStatus, attempt: nat,
    enqueuedAt: Time, availableAt: Time, startedAt: Option<Time>, finishedAt: Option<Time>)

  predicate Due(j: Job, now: Time) { j.status == Queued && j.availableAt <= now }

  /** Position i comes first among the due rows, by enqueueing time and then by id. */
  predicate IsNext(jobs: seq<Job>, now: Time, i: nat) {
    && i < |jobs| && Due(jobs[i], now)
    && forall j :: 0 <= j < |jobs| && Due(jobs[j], now) ==>
         jobs[i].enqueuedAt < jobs[j].enqueuedAt || (jobs[i].enqueuedAt == jobs[j].enqueuedAt && i <= j)
  }

  /** Next is the queued and available row that was enqueued first, and of those enqueued together the oldest. */
  lemma NextMeans(jobs: seq<Job>, now: Time, i: nat)
    requires i < |jobs|
    ensures IsNext(jobs, now, i) <==>
      && jobs[i].status == Queued && jobs[i].availableAt <= now
      && (forall j :: 0 <= j < |jobs| && jobs[j].status == Queued && jobs[j].availableAt <= now ==>
            jobs[i].enqueuedAt <= jobs[j].enqueuedAt)
      && (forall j :: 0 <= j < i && jobs[j].status == Queued && jobs[j].availableAt <= now ==>
            jobs[i].enqueuedAt < jobs[j].enqueuedAt)
  {
  }

  function Claimed(j: Job, now: Time): Job {
    j.(status := Running, attempt := j.attempt + 1, startedAt := Some(now))
  }

  function Recovered(j: Job, now: Time): Job {
    if j.status == Running then j.(status := Queued, availableAt := now, startedAt := None) else j
  }

  function RunningRows(jobs: seq<Job>): nat {
    if jobs == [] then 0
    else RunningRows(jobs[..|jobs| - 1]) + if jobs[|jobs| - 1].status == Running then 1 else 0
  }

  /** The row of the same job on the same attempt. */
  predicate SameJob(a: Job, b: Job) {
    a.key == b.key && a.run == b.run && a.profile == b.profile && a.attempt == b.attempt
    && a.enqueuedAt == b.enqueuedAt && a.finishedAt == b.finishedAt
  }

  function RecoverAll(jobs: seq<Job>, now: Time): (r: seq<Job>)
    ensures |r| == |jobs| && forall i :: 0 <= i < |jobs| ==> r[i] == Recovered(jobs[i], now)
  {
    seq(|jobs|, i requires 0 <= i < |jobs| => Recovered(jobs[i], now))
  }

  predicate DistinctRows(jobs: seq<Job>) {
    forall i, j :: 0 <= i < j < |jobs| ==> jobs[i].run != jobs[j].run && jobs[i].key != jobs[j].key
  }

  function IndexOfRun(jobs: seq<Job>, run: RunId): (i: nat)
    ensures i <= |jobs| && (i < |jobs| ==> jobs[i].run == run)
    ensures forall j :: 0 <= j < i ==> jobs[j].run != run
  {
    IndexWhere((j: Job) => j.run == run, jobs)
  }

  function IndexOfKey(jobs: seq<Job>, key: string): (i: nat)
    ensures i <= |jobs| && (i < |jobs| ==> jobs[i].key == key)
    ensures forall j :: 0 <= j < i ==> jobs[j].key != key
  {
    IndexWhere((j: Job) => j.key == key, jobs)
  }

  const REQUEUE_DELAY: Time := 5

  class RunQueueRepository {
    var jobs: seq<Job>

    predicate Valid()
      reads this
    {
      DistinctRows(jobs)
    }

    constructor ()
      ensures Valid() && jobs == []
    {
      jobs := [];
    }

    /** Create a queued job, or return the one already stored under the idempotency key. */
    method Enqueue(key: string, profile: string, run: RunId, now: Time) returns (job: Job, created: bool)
      requires Valid() && forall j :: j in jobs ==> j.run != run
      modifies this
      ensures Valid()
      ensures created <==> forall j :: j in old(jobs) ==> j.key != key
      ensures created ==> jobs == old(jobs) + [job]
                          && job == Job(key, run, profile, Queued, 0, now, now, None, None)
      ensures !created ==> jobs == old(jobs) && job in jobs && job.key == key
    {
      var i := IndexOfKey(jobs, key);
      if i < |jobs| { return jobs[i], false; }
      job := Job(key, run, profile, Queued, 0, now, now, None, None);
      jobs := jobs + [job];
      created := true;
    }

    /** Queue every running row again at once, and count them. */
    method RecoverInterrupted(now: Time) returns (count: nat)
      requires Valid()
      modifies this
      ensures Valid() && jobs == RecoverAll(old(jobs), now)
      ensures forall i :: 0 <= i < |old(jobs)| && old(jobs)[i].status != Running ==> jobs[i] == old(jobs)[i]
      ensures forall i :: 0 <= i < |old(jobs)| && old(jobs)[i].status == Running ==>
        SameJob(jobs[i], old(jobs)[i]) && Due(jobs[i], now) && jobs[i].startedAt == None
      ensures forall j :: j in jobs ==> j.status != Running
      ensures count == RunningRows(old(jobs))
    {
      count := 0;
      for i := 0 to |jobs|
        invariant |jobs| == |old(jobs)| && count == RunningRows(old(jobs)[..i])
        invariant forall j :: 0 <= j < i ==> jobs[j] == Recovered(old(jobs)[j], now)
        invariant forall j :: i <= j < |jobs| ==> jobs[j] == old(jobs)[j]
      {
        assert old(jobs)[..i + 1][..i] == old(jobs)[..i];
        if jobs[i].status == Running {
          jobs := jobs[i := jobs[i].(status := Queued, availableAt := now, startedAt := None)];
          count := count + 1;
        }
      }
      assert old(jobs)[..|jobs|] == old(jobs);
    }

    /** Claim the first due row; at most one, and none only when nothing is due. */
    method ClaimNext(now: Time) returns (claim: Option<Job>)
      requires Valid()
      modifies this
      ensures Valid()
      ensures claim.None? ==> jobs == old(jobs) && forall j :: j in jobs ==> j.status != Queued || j.availableAt > now
      ensures claim.Some? ==> exists i: nat ::
        IsNext(old(jobs), now, i) && claim.value == Claimed(old(jobs)[i], now) && jobs == old(jobs)[i := claim.value]
      ensures claim.Some? ==> claim.value.status == Running && claim.value.startedAt == Some(now)
    {
      var best: nat := |jobs|;
      for i := 0 to |jobs|
        invariant best <= |jobs| && jobs == old(jobs)
        invariant best == |jobs| ==> forall j :: 0 <= j < i ==> !Due(jobs[j], now)
        invariant best < |jobs| ==> best < i && IsNext(jobs[..i], now, best)
      {
        assert jobs[..i + 1] == jobs[..i] + [jobs[i]];
        if Due(jobs[i], now) && (best == |jobs| || jobs[i].enqueuedAt < jobs[best].enqueuedAt) { best := i; }
      }
      assert jobs[..|jobs|] == jobs;
      if best == |jobs| { return None; }
      claim := Some(Claimed(jobs[best], now));
      assert IsNext(old(jobs), now, best);
      jobs := jobs[best := claim.value];
    }

    method Finish(run: RunId, outcome: Outcome, at: Time) returns (found: bool)
      requires Valid()
      modifies this
      ensures Valid()
      ensures var i := IndexOfRun(old(jobs), run);
        && (found <==> i < |old(jobs)|)
        && jobs == if found then old(jobs)[i := Finished(old(jobs)[i], outcome, at)] else old(jobs)
    {
      var i := IndexOfRun(jobs, run);
      found := i < |jobs|;
      if found { jobs := jobs[i := Finished(jobs[i], outcome, at)]; }
    }

    method Requeue(run: RunId, now: Time) returns (found: bool)
      requires Valid()
      modifies this
      ensures Valid()
      ensures var i := IndexOfRun(old(jobs), run);
        && (found <==> i < |old(jobs)|)
        && jobs == if found then old(jobs)[i := Requeued(old(jobs)[i], now)] else old(jobs)
    {
      var i := IndexOfRun(jobs, run);
      found := i < |jobs|;
      if found { jobs := jobs[i := Requeued(jobs[i], now)]; }
    }
  }

  function Finished(j: Job, outcome: Outcome, at: Time): Job {
    j.(status := Done(outcome), finishedAt := Some(at))
  }

  function Requeued(j: Job, now: Time): Job {
    j.(status := Queued, availableAt := now + REQUEUE_DELAY, startedAt := None)
  }

  // ----- Any interleaving of workers, crashes and recoveries

  /** A worker's copy of the job it claimed; it identifies one claim. */
  datatype Token = Token(run: RunId, attempt: nat)

  /** The rows and the claims whose workers are still running. */
  datatype System = System(jobs: seq<Job>, held: set<Token>)

  datatype Action =
    | Enter(key: string, profile: string, run: RunId, now: Time)
    | Claim(pick: nat, now: Time)
    | Recover(now: Time)                                 // a new worker process starts
    | Conclude(token: Token, outcome: Outcome, at: Time)  // the worker writes the queue row
    | Retry(token: Token, now: Time)                     // the worker failed and may try again
    | Vanish(token: Token)                               // the worker is done, or its process died

  predicate Enabled(s: System, max: nat, a: Action) {
    match a
    case Enter(key, _, run, _) => forall j :: j in s.jobs ==> j.run != run && j.key != key
    case Claim(pick, now) => IsNext(s.jobs, now, pick)
    case Recover(_) => true
    case Conclude(token, _, _) => token in s.held && IndexOfRun(s.jobs, token.run) < |s.jobs|
    case Retry(token, _) => token in s.held && token.attempt < max && IndexOfRun(s.jobs, token.run) < |s.jobs|
    case Vanish(token) => true
  }

  function Act(s: System, max: nat, a: Action): System {
    if !Enabled(s, max, a) then s
    else match a
      case Enter(key, profile, run, now) =>
        s.(jobs := s.jobs + [Job(key, run, profile, Queued, 0, now, now, None, None)])
      case Claim(pick, now) =>
        var job := Claimed(s.jobs[pick], now);
        System(s.jobs[pick := job], s.held + {Token(job.run, job.attempt)})
      case Recover(now) => s.(jobs := RecoverAll(s.jobs, now))
      case Conclude(token, outcome, at) =>
        var i := IndexOfRun(s.jobs, token.run);
        s.(jobs := s.jobs[i := Finished(s.jobs[i], outcome, at)])
      case Retry(token, now) =>
        var i := IndexOfRun(s.jobs, token.run);
        System(s.jobs[i := Requeued(s.jobs[i], now)], s.held - {token})
      case Vanish(token) => s.(held := s.held - {token})
  }

  /** Whatever a worker's transaction on the queue requires and leaves, the system can do, and does the same. */
  lemma WorkersActions(s: System, max: nat, i: nat, token: Token, outcome: Outcome, now: Time)
    ensures IsNext(s.jobs, now, i) ==>
      var j := s.jobs[i].(status := Running, attempt := s.jobs[i].attempt + 1, startedAt := Some(now));
      Act(s, max, Claim(i, now)) == System(s.jobs[i := j], s.held + {Token(j.run, j.attempt)})
    ensures token in s.held && i < |s.jobs| && IndexOfRun(s.jobs, token.run) == i ==>
      Act(s, max, Conclude(token, outcome, now))
        == s.(jobs := s.jobs[i := s.jobs[i].(status := Done(outcome), finishedAt := Some(now))])
    ensures token in s.held && token.attempt < max && i < |s.jobs| && IndexOfRun(s.jobs, token.run) == i ==>
      Act(s, max, Retry(token, now))
        == System(s.jobs[i := s.jobs[i].(status := Queued, availableAt := now + 5, startedAt := None)],
                  s.held - {token})
    ensures Act(s, max, Vanish(token)) == s.(held := s.held - {token})
  {
  }

  lemma OtherActions(s: System, max: nat, key: string, profile: string, run: RunId, now: Time)
    ensures (forall j :: j in s.jobs ==> j.run != run && j.key != key) ==>
      Act(s, max, Enter(key, profile, run, now))
        == s.(jobs := s.jobs + [Job(key, run, profile, Queued, 0, now, now, None, None)])
    ensures var after := Act(s, max, Recover(now));
      && after.held == s.held && |after.jobs| == |s.jobs|
      && forall i :: 0 <= i < |s.jobs| ==>
           after.jobs[i] == if s.jobs[i].status != Running then s.jobs[i]
                            else s.jobs[i].(status := Queued, availableAt := now, startedAt := None)
  {
  }

  function Execute(max: nat, actions: seq<Action>): System {
    if actions == [] then System([], {})
    else Act(Execute(max, actions[..|actions| - 1]), max, actions[|actions| - 1])
  }

  function JobOf(s: System, run: RunId): Option<Job> {
    var i := IndexOfRun(s.jobs, run);
    if i < |s.jobs| then Some(s.jobs[i]) else None
  }

  predicate HasStatus(s: System, run: RunId, status: RunStatus) {
    JobOf(s, run).Some? && JobOf(s, run).value.status == status
  }

  /** What one action, taken in one state, did to one job. */
  predicate Claims(s: System, max: nat, a: Action, run: RunId) {
    a.Claim? && Enabled(s, max, a) && s.jobs[a.pick].run == run
  }
  predicate Resets(s: System, a: Action, run: RunId) {
    a.Recover? && HasStatus(s, run, Running)
  }
  predicate Retries(s: System, max: nat, a: Action, run: RunId) {
    a.Retry? && Enabled(s, max, a) && a.token.run == run
  }

  function CountClaims(max: nat, actions: seq<Action>, run: RunId): nat {
    if actions == [] then 0
    else
      var before := actions[..|actions| - 1];
      CountClaims(max, before, run) + (if Claims(Execute(max, before), max, actions[|actions| - 1], run) then 1 else 0)
  }

  function CountResets(max: nat, actions: seq<Action>, run: RunId): nat {
    if actions == [] then 0
    else
      var before := actions[..|actions| - 1];
      CountResets(max, before, run) + (if Resets(Execute(max, before), actions[|actions| - 1], run) then 1 else 0)
  }

  /** The attempts that ended in a retry of the job. */
  function RetriedAttempts(max: nat, actions: seq<Action>, run: RunId): set<nat> {
    if actions == [] then {}
    else
      var before, a := actions[..|actions| - 1], actions[|actions| - 1];
      RetriedAttempts(max, before, run) + (if Retries(Execute(max, before), max, a, run) then {a.token.attempt} else {})
  }

  /** One action's effect on one job. */
  lemma ActOnJob(s: System, max: nat, a: Action, run: RunId)
    requires DistinctRows(s.jobs)
    ensures DistinctRows(Act(s, max, a).jobs)
    ensures var j, j' := JobOf(s, run), JobOf(Act(s, max, a), run);
      && (Claims(s, max, a, run) ==> j.Some? && j.value.status == Queued && j' == Some(Claimed(j.value, a.now)))
      && (Resets(s, a, run) ==> j.Some? && j' == Some(Recovered(j.value, a.now)))
      && (Retries(s, max, a, run) ==> j.Some? && j' == Some(Requeued(j.value, a.now)))
      && (!Claims(s, max, a, run) && !Resets(s, a, run) && !Retries(s, max, a, run) ==>
            || j' == j
            || (j.None? && j'.Some? && j'.value.status == Queued && j'.value.attempt == 0)
            || (j.Some? && a.Conclude? && a.token.run == run && j' == Some(Finished(j.value, a.outcome, a.at))))
  {
    ActKeepsRows(s, max, a);
    hide DistinctRows, IsNext, Due;
    if Enabled(s, max, a) { SameIndex(s.jobs, Act(s, max, a).jobs, run); }
  }

  lemma ActKeepsRows(s: System, max: nat, a: Action)
    requires DistinctRows(s.jobs)
    ensures var jobs' := Act(s, max, a).jobs;
      && DistinctRows(jobs') && |s.jobs| <= |jobs'|
      && forall i :: 0 <= i < |s.jobs| ==> jobs'[i].run == s.jobs[i].run && jobs'[i].key == s.jobs[i].key
  {
    hide Due;
  }

  /** One action's effect on the claims still held. */
  lemma ActOnTokens(s: System, max: nat, a: Action, run: RunId)
    requires DistinctRows(s.jobs)
    ensures forall token :: token in Act(s, max, a).held && token.run == run ==>
      token in s.held || (Claims(s, max, a, run) && token.attempt == Attempts(s, run) + 1)
    ensures Retries(s, max, a, run) ==>
      a.token in s.held && a.token.run == run && a.token.attempt < max && a.token !in Act(s, max, a).held
  {
    if a.Claim? && Enabled(s, max, a) {
      assert IndexOfRun(s.jobs, s.jobs[a.pick].run) == a.pick;
    }
  }

  lemma SameIndex(jobs: seq<Job>, jobs': seq<Job>, run: RunId)
    requires |jobs| <= |jobs'| && forall i :: 0 <= i < |jobs| ==> jobs'[i].run == jobs[i].run
    ensures IndexOfRun(jobs, run) < |jobs| ==> IndexOfRun(jobs', run) == IndexOfRun(jobs, run)
    ensures IndexOfRun(jobs, run) == |jobs| ==> IndexOfRun(jobs', run) >= |jobs|
  {
  }

  function Attempts(s: System, run: RunId): nat {
    if JobOf(s, run).Some? then JobOf(s, run).value.attempt else 0
  }

  /** Claims of a job never outnumber its enqueueing, retries and resets, and each retry spends
      a different attempt number below the limit. */
  lemma {:induction false} ClaimsArePaidFor(max: nat, actions: seq<Action>, run: RunId)
    ensures var s := Execute(max, actions);
      var retried := RetriedAttempts(max, actions, run);
      && DistinctRows(s.jobs)
      && CountClaims(max, actions, run) == Attempts(s, run)
      && Attempts(s, run) + (if HasStatus(s, run, Queued) then 1 else 0)
           <= 1 + |retried| + CountResets(max, actions, run)
      && (JobOf(s, run).None? ==> CountResets(max, actions, run) == 0 && retried == {})
      && (forall k :: k in retried ==> 1 <= k < max)
      && (forall token :: token in s.held && token.run == run ==>
            token.attempt !in retried && 1 <= token.attempt <= Attempts(s, run))
      && (forall k :: k in retried ==> k <= Attempts(s, run))
  {
    if actions != [] {
      var before, a := actions[..|actions| - 1], actions[|actions| - 1];
      ClaimsArePaidFor(max, before, run);
      var s := Execute(max, before);
      ActOnJob(s, max, a, run);
      ActOnTokens(s, max, a, run);
      hide Act, Claims, Resets, Retries, JobOf;
      assert a.Retry? ==> a.token == Token(a.token.run, a.token.attempt);
    }
  }

  lemma {:induction false} BoundedSetSize(k: set<nat>, max: nat)
    requires forall x :: x in k ==> 1 <= x < max
    ensures |k| <= if max == 0 then 0 else max - 1
  {
    if max <= 1 {
      assert forall x :: x !in k;
    } else {
      BoundedSetSize(k - {max - 1}, max - 1);
      assert k == (k - {max - 1}) + (k * {max - 1});
      assert k * {max - 1} <= {max - 1};
    }
  }

  /** Under any interleaving a job is claimed at most `max` times (once when `max` is zero) plus
      the recoveries that reset it. */
  lemma BoundedClaims(max: nat, actions: seq<Action>, run: RunId)
    ensures CountClaims(max, actions, run) <= (if max == 0 then 1 else max) + CountResets(max, actions, run)
  {
    ClaimsArePaidFor(max, actions, run);
    BoundedSetSize(RetriedAttempts(max, actions, run), max);
  }

  /** Between two claims of one job there is a retry of it or a recovery that reset it. */
  lemma {:induction false} ClaimsAreSeparated(max: nat, actions: seq<Action>, run: RunId, i: nat)
    requires i < |actions| && Claims(Execute(max, actions[..i]), max, actions[i], run)
    requires forall j :: i < j < |actions| ==>
      var s := Execute(max, actions[..j]); !Resets(s, actions[j], run) && !Retries(s, max, actions[j], run)
    ensures JobOf(Execute(max, actions), run).Some? && !HasStatus(Execute(max, actions), run, Queued)
    ensures forall pick, now :: !Claims(Execute(max, actions), max, Claim(pick, now), run)
  {
    hide Act, IsNext, Due, CountClaims, CountResets, RetriedAttempts;
    var n := |actions| - 1;
    var before := actions[..n];
    ClaimsArePaidFor(max, before, run);
    ClaimsArePaidFor(max, actions, run);
    ActOnJob(Execute(max, before), max, actions[n], run);
    if i < n {
      forall j | i < j < |before| ensures before[..j] == actions[..j] {}
      assert before[..i] == actions[..i] && before[i] == actions[i];
      ClaimsAreSeparated(max, before, run, i);
      assert actions[..n] == before;
    }
    var s := Execute(max, actions);
    forall pick, now ensures !Claims(s, max, Claim(pick, now), run) {
      if Claims(s, max, Claim(pick, now), run) {
        ActOnJob(s, max, Claim(pick, now), run);
      }
    }
  }
}
