/** One worker driving the engine from the queue, with crashes at any transaction boundary. */
module Worker {
  import opened Wrappers
  import opened Domain
  import opened RunQueue
  import opened Lease

  type Runs = map<RunId, RunStatus>

  /** What the engine's execution does: it ends with a status, or raises, possibly after having
      already written a final status. */
  datatype Execution = Ends(outcome: Outcome) | Raises(written: Option<Outcome>)

  datatype EngineResult = Returned(outcome: Outcome) | Threw | LeaseBusy

  /** Another run's row changes only by being closed after its lease expired. */
  predicate OnlyClosesAbandoned(before: Runs, after: Runs, run: RunId) {
    && before.Keys <= after.Keys
    && forall r :: r in before && r != run ==>
         after[r] == before[r] || (before[r] == Running && after[r] == Done(Unsuccessful))
  }

  /** More exactly: the one other row that may change is that of the expired lease's owner, and no row but the
      run's own is new. */
  predicate OnlyClosesExpired(before: Runs, after: Runs, lease: Option<Lease>, run: RunId, now: Time) {
    && OnlyClosesAbandoned(before, after, run) && after.Keys <= before.Keys + {run}
    && forall r :: r in before && r != run && after[r] != before[r] ==>
         lease.Some? && lease.value.run == r && lease.value.expiresAt <= now
  }

  lemma NothingClosed(runs: Runs, lease: Option<Lease>, run: RunId, now: Time)
    ensures OnlyClosesExpired(runs, runs, lease, run, now)
  {
  }

  lemma OwnerClosed(runs: Runs, lease: Option<Lease>, run: RunId, now: Time)
    requires !Busy(lease, run, now) && lease.Some? && lease.value.run != run
    requires lease.value.run in runs && runs[lease.value.run] == Running
    ensures OnlyClosesExpired(runs, runs[lease.value.run := Done(Unsuccessful)], lease, run, now)
  {
  }

  /** At most the run's own row is created or written. */
  predicate OnlyOwnRow(before: Runs, after: Runs, run: RunId) {
    && before.Keys <= after.Keys <= before.Keys + {run}
    && forall r :: r in before && r != run ==> after[r] == before[r]
  }

  lemma OwnRowWritten(before: Runs, mid: Runs, after: Runs, lease: Option<Lease>, run: RunId, now: Time)
    requires OnlyClosesExpired(before, mid, lease, run, now) && OnlyOwnRow(mid, after, run)
    ensures OnlyClosesExpired(before, after, lease, run, now)
  {
  }

  /** Run rows and the lease, as the run engine sees them. */
  class RunLedger {
    var runs: Runs
    var lease: Option<Lease>

    constructor ()
      ensures runs == map[] && lease == None
    {
      runs, lease := map[], None;
    }

    /** The engine's run: lease, take-over, execution, failure handling and release. */
    method Run(run: RunId, now: Time, ttl: Time, profilesKnown: bool, execution: Execution)
        returns (result: EngineResult)
      modifies this
      ensures OnlyClosesExpired(old(runs), runs, old(lease), run, now)
      ensures run in old(runs) && old(runs)[run].Done? ==>
        result == Returned(old(runs)[run].outcome) && runs == old(runs) && lease == old(lease)
      ensures !(run in old(runs) && old(runs)[run].Done?) ==>
        (result.LeaseBusy? <==> old(lease).Some? && old(lease).value.expiresAt > now && old(lease).value.run != run)
      ensures result.LeaseBusy? ==> runs == old(runs) && lease == old(lease)
      ensures !(run in old(runs) && old(runs)[run].Done?) && !result.LeaseBusy? ==>
        && lease.None?
        && (old(lease).Some? && old(lease).value.run != run && old(lease).value.run in old(runs) ==>
              runs[old(lease).value.run] != Running)
        && (match execution
            case Ends(outcome) => profilesKnown ==> result == Returned(outcome)
            case Raises(None) => profilesKnown ==> result == Returned(Unsuccessful)
            case Raises(Some(written)) =>
              && (profilesKnown && run !in old(runs) ==> result == Returned(Unsuccessful))
              && (profilesKnown && run in old(runs) ==> result == Threw && run in runs && runs[run] == Done(written)))
        && (!profilesKnown && run in old(runs) ==> result == Returned(Unsuccessful))
        && (!profilesKnown && run !in old(runs) ==> result == Threw && run !in runs)
      ensures result.Returned? ==> run in runs && runs[run] == Done(result.outcome)
    {
      hide OnlyClosesExpired;
      NothingClosed(runs, lease, run, now);
      if run in runs && runs[run].Done? { return Returned(runs[run].outcome); }
      if Busy(lease, run, now) { return LeaseBusy; }
      var previous := if lease.Some? && lease.value.run != run then Some(lease.value.run) else None;
      lease := Acquired(lease, run, now, ttl);
      if previous.Some? && previous.value in runs && runs[previous.value] == Running {
        OwnerClosed(runs, old(lease), run, now);
        runs := runs[previous.value := Done(Unsuccessful)];
      }
      ghost var closed := runs;
      result := Conduct(run, profilesKnown, execution);
      lease := Released(lease, run);
      OwnRowWritten(old(runs), closed, runs, old(lease), run, now);
    }

    /** What happens under the lease: execution and the handling of its failure. */
    method Conduct(run: RunId, profilesKnown: bool, execution: Execution) returns (result: EngineResult)
      requires run in runs ==> !runs[run].Done?
      modifies this`runs
      ensures OnlyOwnRow(old(runs), runs, run)
      ensures match execution
        case Ends(outcome) => profilesKnown ==> result == Returned(outcome)
        case Raises(None) => profilesKnown ==> result == Returned(Unsuccessful)
        case Raises(Some(written)) =>
          && (profilesKnown && run !in old(runs) ==> result == Returned(Unsuccessful))
          && (profilesKnown && run in old(runs) ==> result == Threw && run in runs && runs[run] == Done(written))
      ensures !profilesKnown && run in old(runs) ==> result == Returned(Unsuccessful)
      ensures !profilesKnown && run !in old(runs) ==> result == Threw && run !in runs
      ensures result.Returned? ==> run in runs && runs[run] == Done(result.outcome)
    {
      var created := false;
      var raised := !profilesKnown;
      if profilesKnown {
        created := run !in runs;
        runs := runs[run := Running];
        match execution {
          case Ends(outcome) => runs := runs[run := Done(outcome)];
          case Raises(written) =>
            raised := true;
            if written.Some? { runs := runs[run := Done(written.value)]; }
        }
      }
      if !raised { return Returned(runs[run].outcome); }
      if run in runs && (created || !runs[run].Done?) {
        runs := runs[run := Done(Unsuccessful)];
        return Returned(Unsuccessful);
      }
      result := Threw;
    }
  }

  /** A finished queue row and its run row show the same status. */
  predicate Agreement(jobs: seq<Job>, runs: Runs) {
    forall i :: 0 <= i < |jobs| ==> AgreesAt(jobs[i], runs)
  }

  predicate AgreesAt(j: Job, runs: Runs) {
    j.run in runs && (j.status.Done? ==> runs[j.run] == j.status)
  }

  predicate AgreementExcept(jobs: seq<Job>, runs: Runs, run: RunId) {
    forall i :: 0 <= i < |jobs| && jobs[i].run != run ==> AgreesAt(jobs[i], runs)
  }

  lemma AgreementWithoutOne(jobs: seq<Job>, runs: Runs, i: nat, job: Job)
    requires Agreement(jobs, runs) && i < |jobs| && job.run == jobs[i].run
    ensures AgreementExcept(jobs[i := job], runs, job.run) && job.run in runs
  {
    assert AgreesAt(jobs[i], runs);
  }

  lemma AgreementWithOne(jobs: seq<Job>, runs: Runs, i: nat, job: Job)
    requires DistinctRows(jobs) && i < |jobs| && job.run == jobs[i].run
    requires AgreementExcept(jobs, runs, job.run) && AgreesAt(job, runs)
    ensures Agreement(jobs[i := job], runs) && AgreementExcept(jobs[i := job], runs, job.run)
  {
  }

  lemma EngineKeepsOthers(jobs: seq<Job>, before: Runs, after: Runs, run: RunId)
    requires AgreementExcept(jobs, before, run) && OnlyClosesAbandoned(before, after, run)
    ensures AgreementExcept(jobs, after, run)
  {
    forall i | 0 <= i < |jobs| && jobs[i].run != run ensures AgreesAt(jobs[i], after) {
      assert AgreesAt(jobs[i], before);
    }
  }

  /** A failed attempt is retried a little later, or ends the job when it was the last one. */
  function AfterFailure(j: Job, attempt: nat, max: nat, now: Time): Job {
    if attempt < max then Requeued(j, now) else Finished(j, Unsuccessful, now)
  }

  /** One pass worked on the next due row, and on no other: it finished it, or its attempt failed. */
  predicate Worked(
    before: seq<Job>, after: seq<Job>, now: Time, max: nat, i: nat, result: Option<Outcome>, plannerRaises: bool)
  {
    && IsNext(before, now, i) && |after| == |before| && after == before[i := after[i]]
    && var j, attempt := before[i], before[i].attempt + 1;
       match result
       case Some(outcome) =>
         after[i] == j.(status := Done(outcome), attempt := attempt, startedAt := Some(now), finishedAt := Some(now))
       case None =>
         && (after[i].finishedAt != j.finishedAt ==> after[i].finishedAt == Some(now))
         && (attempt >= max ==> after[i] == j.(status := Done(Unsuccessful), attempt := attempt,
                                               startedAt := Some(now), finishedAt := Some(now)))
         && (attempt < max ==> after[i] == j.(status := Queued, attempt := attempt, availableAt := now + 5,
                                              startedAt := None, finishedAt := after[i].finishedAt))
         && (attempt < max && !plannerRaises ==> after[i].finishedAt == j.finishedAt)
  }

  lemma DidWork(
    before: seq<Job>, after: seq<Job>, now: Time, max: nat, i: nat, result: Option<Outcome>, plannerRaises: bool)
    requires IsNext(before, now, i) && |after| == |before| && after == before[i := after[i]]
    requires var claimed := Claimed(before[i], now);
      match result
      case Some(outcome) => after[i] == Finished(claimed, outcome, now)
      case None =>
        || after[i] == AfterFailure(claimed, claimed.attempt, max, now)
        || (plannerRaises && exists o :: after[i] == AfterFailure(Finished(claimed, o, now), claimed.attempt, max, now))
    ensures Worked(before, after, now, max, i, result, plannerRaises)
  {
  }

  class RunWorker {
    const queue: RunQueueRepository
    const ledger: RunLedger
    const maxAttempts: nat

    constructor (queue: RunQueueRepository, ledger: RunLedger, maxAttempts: nat, now: Time)
      requires queue.Valid()
      modifies queue
      ensures this.queue == queue && this.ledger == ledger && this.maxAttempts == maxAttempts
      ensures queue.Valid() && queue.jobs == RecoverAll(old(queue.jobs), now)
    {
      this.queue, this.ledger, this.maxAttempts := queue, ledger, maxAttempts;
      new;
      var count := queue.RecoverInterrupted(now);
    }

    /** Record a retry, or the final failure in the queue row and then in the run row. */
    method Fail(job: Job, now: Time)
      requires queue.Valid() && AgreementExcept(queue.jobs, ledger.runs, job.run) && job.run in ledger.runs
      modifies queue, ledger
      ensures queue.Valid() && Agreement(queue.jobs, ledger.runs)
      ensures |queue.jobs| == |old(queue.jobs)|
      ensures var i := IndexOfRun(old(queue.jobs), job.run);
        queue.jobs == if i < |old(queue.jobs)|
                      then old(queue.jobs)[i := AfterFailure(old(queue.jobs)[i], job.attempt, maxAttempts, now)]
                      else old(queue.jobs)
    {
      if job.attempt < maxAttempts {
        var found := queue.Requeue(job.run, now);
      } else {
        var found := queue.Finish(job.run, Unsuccessful, now);
        if job.run in ledger.runs { ledger.runs := ledger.runs[job.run := Done(Unsuccessful)]; }
      }
    }

    /** Claim the next due job, run it, and record the outcome, a retry or the final failure. */
    method RunOnce(now: Time, ttl: Time, profilesKnown: bool, execution: Execution, plannerRaises: bool)
        returns (result: Option<Outcome>, ghost pick: nat)
      requires queue.Valid() && Agreement(queue.jobs, ledger.runs)
      modifies queue, ledger
      ensures queue.Valid() && Agreement(queue.jobs, ledger.runs)
      ensures pick <= |old(queue.jobs)|
      ensures pick == |old(queue.jobs)| ==> result.None? && queue.jobs == old(queue.jobs)
      ensures pick == |old(queue.jobs)| ==> forall j :: j in queue.jobs ==> j.status != Queued || j.availableAt > now
      ensures pick < |old(queue.jobs)| ==>
        IsNext(old(queue.jobs), now, pick) && old(queue.jobs)[pick].run in old(ledger.runs)
      ensures pick < |old(queue.jobs)| ==>
        result == if plannerRaises then None
                  else OutcomeOf(old(ledger.runs), old(ledger.lease), old(queue.jobs)[pick].run, now, profilesKnown,
                                 execution)
      ensures pick < |old(queue.jobs)| ==>
        Worked(old(queue.jobs), queue.jobs, now, maxAttempts, pick, result, plannerRaises)
    {
      hide IndexOfRun, DistinctRows, OnlyClosesAbandoned, AfterFailure, Worked, Agreement, AgreementExcept, AgreesAt;
      var claim := queue.ClaimNext(now);
      if claim.None? { return None, |old(queue.jobs)|; }
      var job := claim.value;
      pick :| IsNext(old(queue.jobs), now, pick) && job == Claimed(old(queue.jobs)[pick], now)
        && queue.jobs == old(queue.jobs)[pick := job];
      AgreementWithoutOne(old(queue.jobs), ledger.runs, pick, job);
      OnlyRow(queue.jobs, pick);
      ghost var claimed := queue.jobs;
      var outcome := ledger.Run(job.run, now, ttl, profilesKnown, execution);
      EngineKeepsOthers(queue.jobs, old(ledger.runs), ledger.runs, job.run);
      if outcome.Returned? {
        var found := queue.Finish(job.run, outcome.outcome, now);
        AgreementWithOne(claimed, ledger.runs, pick, queue.jobs[pick]);
        if !plannerRaises {
          DidWork(old(queue.jobs), queue.jobs, now, maxAttempts, pick, Some(outcome.outcome), plannerRaises);
          return Some(outcome.outcome), pick;
        }
        OnlyRow(queue.jobs, pick);
      }
      Fail(job, now);
      DidWork(old(queue.jobs), queue.jobs, now, maxAttempts, pick, None, plannerRaises);
      return None, pick;
    }
  }

  /** How a claimed job's run comes out, if it does: as it already had, or as its execution ends under a free lease. */
  function OutcomeOf(
    runs: Runs, lease: Option<Lease>, run: RunId, now: Time, profilesKnown: bool, execution: Execution): Option<Outcome>
    requires run in runs
  {
    if runs[run].Done? then Some(runs[run].outcome)
    else if Busy(lease, run, now) then None
    else if !profilesKnown then Some(Unsuccessful)
    else
      match execution
      case Ends(outcome) => Some(outcome)
      case Raises(None) => Some(Unsuccessful)
      case Raises(Some(_)) => None
  }

  lemma OnlyRow(jobs: seq<Job>, i: nat)
    requires DistinctRows(jobs) && i < |jobs|
    ensures IndexOfRun(jobs, jobs[i].run) == i
  {
  }

  // ----- The same worker as a transition system, one transaction per step

  datatype Phase =
    | Idle
    | Working(run: RunId, attempt: nat)     // claimed; the engine is running or has raised
    | Settled(run: RunId, attempt: nat)     // outcome written to the queue; the planner follows
    | HalfFailed(run: RunId)                // the queue says failed, the run row not yet

  datatype World = World(jobs: seq<Job>, runs: Runs, phase: Phase)

  datatype Step =
    | Enqueue(key: string, profile: string, run: RunId, now: Time)
    | Start(pick: nat, now: Time)
    | EngineWrites(runs: Runs)
    | Settle(outcome: Outcome, at: Time)
    | Finish
    | RetryLater(now: Time)
    | FailQueue(at: Time)
    | FailRun
    | Restart(now: Time)

  predicate Possible(w: World, max: nat, s: Step) {
    match s
    case Enqueue(key, _, run, _) => run !in w.runs && forall j :: j in w.jobs ==> j.run != run && j.key != key
    case Start(pick, now) => w.phase.Idle? && IsNext(w.jobs, now, pick)
    case EngineWrites(runs) => w.phase.Working? && OnlyClosesAbandoned(w.runs, runs, w.phase.run)
    case Settle(outcome, _) =>
      w.phase.Working? && w.phase.run in w.runs && w.runs[w.phase.run] == Done(outcome)
    case Finish => w.phase.Settled?
    case RetryLater(_) => (w.phase.Working? || w.phase.Settled?) && w.phase.attempt < max
    case FailQueue(_) => (w.phase.Working? || w.phase.Settled?) && w.phase.attempt >= max
    case FailRun => w.phase.HalfFailed?
    case Restart(_) => true
  }

  function ReplaceJob(jobs: seq<Job>, run: RunId, f: Job -> Job): seq<Job> {
    var i := IndexOfRun(jobs, run);
    if i < |jobs| then jobs[i := f(jobs[i])] else jobs
  }

  function Move(w: World, max: nat, s: Step): World {
    if !Possible(w, max, s) then w
    else match s
      case Enqueue(key, profile, run, now) =>
        w.(jobs := w.jobs + [Job(key, run, profile, Queued, 0, now, now, None, None)], runs := w.runs[run := Queued])
      case Start(pick, now) =>
        var job := Claimed(w.jobs[pick], now);
        w.(jobs := w.jobs[pick := job], phase := Working(job.run, job.attempt))
      case EngineWrites(runs) => w.(runs := runs)
      case Settle(outcome, at) =>
        w.(jobs := ReplaceJob(w.jobs, w.phase.run, j => Finished(j, outcome, at)),
           phase := Settled(w.phase.run, w.phase.attempt))
      case Finish => w.(phase := Idle)
      case RetryLater(now) => w.(jobs := ReplaceJob(w.jobs, w.phase.run, j => Requeued(j, now)), phase := Idle)
      case FailQueue(at) =>
        w.(jobs := ReplaceJob(w.jobs, w.phase.run, j => Finished(j, Unsuccessful, at)),
           phase := HalfFailed(w.phase.run))
      case FailRun => w.(runs := w.runs[w.phase.run := Done(Unsuccessful)], phase := Idle)
      case Restart(now) => w.(jobs := RecoverAll(w.jobs, now), phase := Idle)
  }

  /** One pass of the worker is a walk of this system: claim, let the engine write, and then settle, retry or fail. */
  lemma PassIsAWalk(w: World, max: nat, pick: nat, runs: Runs, outcome: Outcome, now: Time)
    requires w.phase.Idle? && DistinctRows(w.jobs) && IsNext(w.jobs, now, pick)
    requires OnlyClosesAbandoned(w.runs, runs, w.jobs[pick].run) && w.jobs[pick].run in runs
    ensures var j := Claimed(w.jobs[pick], now);
      var written := Move(Move(w, max, Start(pick, now)), max, EngineWrites(runs));
      && (runs[j.run] == Done(outcome) ==>
            Move(Move(written, max, Settle(outcome, now)), max, Finish)
              == World(w.jobs[pick := Finished(j, outcome, now)], runs, Idle))
      && (j.attempt < max ==>
            Move(written, max, RetryLater(now)) == World(w.jobs[pick := Requeued(j, now)], runs, Idle))
      && (j.attempt >= max ==>
            Move(Move(written, max, FailQueue(now)), max, FailRun)
              == World(w.jobs[pick := Finished(j, Unsuccessful, now)], runs[j.run := Done(Unsuccessful)], Idle))
  {
    hide IndexOfRun, OnlyClosesAbandoned;
    var j := Claimed(w.jobs[pick], now);
    OnlyRow(w.jobs[pick := j], pick);
    assert w.jobs[pick := j][pick] == j;
    OnlyRow(w.jobs, pick);
  }

  function Trace(max: nat, steps: seq<Step>): World {
    if steps == [] then World([], map[], Idle)
    else Move(Trace(max, steps[..|steps| - 1]), max, steps[|steps| - 1])
  }

  /** A finished row agrees with its run, except the one row whose failure is half written. */
  predicate RowOk(w: World, j: Job) {
    && j.run in w.runs
    && (if w.phase.HalfFailed? && w.phase.run == j.run then j.status == Done(Unsuccessful) else AgreesAt(j, w.runs))
    && (w.phase.Working? && w.phase.run == j.run ==> j.status == Running)
  }

  predicate Consistent(w: World) {
    && DistinctRows(w.jobs)
    && (!w.phase.Idle? ==> w.phase.run in w.runs && HasRow(w.jobs, w.phase.run))
    && forall i :: 0 <= i < |w.jobs| ==> RowOk(w, w.jobs[i])
  }

  predicate HasRow(jobs: seq<Job>, run: RunId) {
    exists i :: 0 <= i < |jobs| && jobs[i].run == run
  }

  /** A process death between the two writes of a final failure, while the run row does not say failed. */
  predicate Torn(w: World, s: Step) {
    w.phase.HalfFailed? && s.Restart? && !(w.phase.run in w.runs && w.runs[w.phase.run] == Done(Unsuccessful))
  }

  lemma Replaced(jobs: seq<Job>, run: RunId, f: Job -> Job, k: nat)
    requires DistinctRows(jobs) && k < |jobs|
    ensures |ReplaceJob(jobs, run, f)| == |jobs|
    ensures ReplaceJob(jobs, run, f)[k] == if jobs[k].run == run then f(jobs[k]) else jobs[k]
  {
  }

  lemma MoveKeepsDistinct(w: World, max: nat, s: Step)
    requires DistinctRows(w.jobs)
    ensures DistinctRows(Move(w, max, s).jobs)
    ensures |Move(w, max, s).jobs| >= |w.jobs|
    ensures forall k :: 0 <= k < |w.jobs| ==> Move(w, max, s).jobs[k].run == w.jobs[k].run
  {
  }

  lemma RowAfterMove(w: World, max: nat, s: Step, k: nat)
    requires Consistent(w) && !Torn(w, s) && k < |Move(w, max, s).jobs|
    ensures RowOk(Move(w, max, s), Move(w, max, s).jobs[k])
  {
    if Possible(w, max, s) && k < |w.jobs| {
      assert RowOk(w, w.jobs[k]);
      match s
      case Start(pick, now) => assert k == pick || w.jobs[k].run != w.jobs[pick].run;
      case Settle(outcome, at) => Replaced(w.jobs, w.phase.run, j => Finished(j, outcome, at), k);
      case RetryLater(now) => Replaced(w.jobs, w.phase.run, j => Requeued(j, now), k);
      case FailQueue(at) => Replaced(w.jobs, w.phase.run, j => Finished(j, Unsuccessful, at), k);
      case _ =>
    }
  }

  lemma PhaseHasRow(w: World, max: nat, s: Step)
    requires Consistent(w)
    ensures var w' := Move(w, max, s);
      !w'.phase.Idle? ==> w'.phase.run in w'.runs && HasRow(w'.jobs, w'.phase.run)
  {
    var w' := Move(w, max, s);
    MoveKeepsDistinct(w, max, s);
    if Possible(w, max, s) && s.Start? {
      assert w'.jobs[s.pick].run == w'.phase.run && RowOk(w, w.jobs[s.pick]);
    } else if !w'.phase.Idle? {
      var i :| 0 <= i < |w.jobs| && w.jobs[i].run == w.phase.run;
      assert w'.jobs[i].run == w'.phase.run;
    }
  }

  lemma MoveKeepsConsistent(w: World, max: nat, s: Step)
    requires Consistent(w) && !Torn(w, s)
    ensures Consistent(Move(w, max, s))
  {
    MoveKeepsDistinct(w, max, s);
    PhaseHasRow(w, max, s);
    forall k | 0 <= k < |Move(w, max, s).jobs| ensures RowOk(Move(w, max, s), Move(w, max, s).jobs[k]) {
      RowAfterMove(w, max, s, k);
    }
  }

  /** Some death of the process tore a final failure. */
  predicate TearsSomewhere(max: nat, steps: seq<Step>) {
    exists i :: 0 <= i < |steps| && Torn(Trace(max, steps[..i]), steps[i])
  }

  /** Every finished queue row has the status of its run row, unless a failure is half written. */
  predicate ShowsTheTruth(w: World) {
    w.phase.HalfFailed? || Agreement(w.jobs, w.runs)
  }

  /** A prefix tears where the whole history does, up to its own length. */
  lemma TearsInPrefix(max: nat, steps: seq<Step>, n: nat)
    requires n <= |steps|
    ensures TearsSomewhere(max, steps[..n]) <==> exists i :: 0 <= i < n && Torn(Trace(max, steps[..i]), steps[i])
  {
    hide Trace, Torn;
    forall i | 0 <= i < n ensures steps[..n][..i] == steps[..i] && steps[..n][i] == steps[i] {}
    if TearsSomewhere(max, steps[..n]) {
      var i :| 0 <= i < n && Torn(Trace(max, steps[..n][..i]), steps[..n][i]);
      assert Torn(Trace(max, steps[..i]), steps[i]);
    }
    if i :| 0 <= i < n && Torn(Trace(max, steps[..i]), steps[i]) {
      assert Torn(Trace(max, steps[..n][..i]), steps[..n][i]);
    }
  }

  lemma {:induction false} UntornIsConsistent(max: nat, steps: seq<Step>)
    requires !TearsSomewhere(max, steps)
    ensures Consistent(Trace(max, steps))
  {
    if steps != [] {
      var n := |steps| - 1;
      TearsInPrefix(max, steps, n);
      UntornIsConsistent(max, steps[..n]);
      assert !Torn(Trace(max, steps[..n]), steps[n]);
      MoveKeepsConsistent(Trace(max, steps[..n]), max, steps[n]);
    }
  }

  lemma ConsistentShowsTheTruth(w: World)
    requires Consistent(w)
    ensures ShowsTheTruth(w)
  {
    if !w.phase.HalfFailed? {
      forall i | 0 <= i < |w.jobs| ensures AgreesAt(w.jobs[i], w.runs) { assert RowOk(w, w.jobs[i]); }
    }
  }

  lemma {:induction false} FirstTear(max: nat, steps: seq<Step>) returns (i: nat)
    requires TearsSomewhere(max, steps)
    ensures i < |steps| && Torn(Trace(max, steps[..i]), steps[i]) && !TearsSomewhere(max, steps[..i])
  {
    hide Trace, Torn;
    var n := |steps| - 1;
    TearsInPrefix(max, steps, n);
    if TearsSomewhere(max, steps[..n]) {
      i := FirstTear(max, steps[..n]);
      assert steps[..n][..i] == steps[..i];
    } else {
      i := n;
    }
  }

  /** Queue and runs agree throughout a history exactly when no death tore a final failure. */
  lemma QueueAndRunsAgree(max: nat, steps: seq<Step>)
    ensures (forall n :: 0 <= n <= |steps| ==> ShowsTheTruth(Trace(max, steps[..n]))) <==> !TearsSomewhere(max, steps)
  {
    if TearsSomewhere(max, steps) {
      var i := FirstTear(max, steps);
      UntornIsConsistent(max, steps[..i]);
      TornFailure(Trace(max, steps[..i]), max, steps[i].now);
      assert steps[..i + 1][..i] == steps[..i];
      assert !ShowsTheTruth(Trace(max, steps[..i + 1]));
    } else {
      forall n | 0 <= n <= |steps| ensures ShowsTheTruth(Trace(max, steps[..n])) {
        TearsInPrefix(max, steps, n);
        UntornIsConsistent(max, steps[..n]);
        ConsistentShowsTheTruth(Trace(max, steps[..n]));
      }
    }
  }

  /** A restart between the two writes leaves agreement exactly when the run row already said failed. */
  lemma TornFailure(w: World, max: nat, now: Time)
    requires Consistent(w) && w.phase.HalfFailed?
    ensures var w' := Move(w, max, Restart(now));
      Agreement(w'.jobs, w'.runs) <==> w.runs[w.phase.run] == Done(Unsuccessful)
  {
    var w' := Move(w, max, Restart(now));
    var k :| 0 <= k < |w.jobs| && w.jobs[k].run == w.phase.run;
    assert RowOk(w, w.jobs[k]) && w'.jobs[k] == w.jobs[k];
    if w.runs[w.phase.run] == Done(Unsuccessful) {
      forall i | 0 <= i < |w'.jobs| ensures AgreesAt(w'.jobs[i], w'.runs) { assert RowOk(w, w.jobs[i]); }
    } else {
      assert !AgreesAt(w'.jobs[k], w'.runs);
    }
  }

  /** A crash between the two writes of a first attempt's final failure leaves the run row behind. */
  lemma LastFailureTorn(key: string, run: RunId)
    ensures TearsSomewhere(1, [Enqueue(key, "p", run, 0), Start(0, 0), FailQueue(1), Restart(2)])
  {
    var steps := [Enqueue(key, "p", run, 0), Start(0, 0), FailQueue(1), Restart(2)];
    assert Trace(1, steps[..0]) == World([], map[], Idle);
    assert steps[..1][..0] == steps[..0] && steps[..2][..1] == steps[..1] && steps[..3][..2] == steps[..2];
    var entered := Job(key, run, "p", Queued, 0, 0, 0, None, None);
    assert Trace(1, steps[..1]) == World([entered], map[run := Queued], Idle);
    var claimed := Claimed(entered, 0);
    assert Trace(1, steps[..2]) == World([claimed], map[run := Queued], Working(run, 1));
    assert Trace(1, steps[..3]).phase == HalfFailed(run) && Trace(1, steps[..3]).runs == map[run := Queued];
    assert Torn(Trace(1, steps[..3]), steps[3]);
  }
}
