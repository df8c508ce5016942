/** The singleton run lease: acquired atomically, taken over only after it expired. */
module Lease {
  import opened Wrappers
  import opened Domain

  datatype Lease = Lease(run: RunId, acquiredAt: Time, expiresAt: Time)

  predicate Busy(lease: Option<Lease>, run: RunId, now: Time) {
    lease.Some? && lease.value.expiresAt > now && lease.value.run != run
  }

  function Acquired(lease: Option<Lease>, run: RunId, now: Time, ttl: Time): Option<Lease> {
    if Busy(lease, run, now) then lease else Some(Lease(run, now, now + ttl))
  }

  function Released(lease: Option<Lease>, run: RunId): Option<Lease> {
    if lease.Some? && lease.value.run == run then None else lease
  }

  // ----- Ownership over any interleaving

  datatype LeaseEvent = Acquire(run: RunId, at: Time) | Release(run: RunId, at: Time)

  function After(ttl: Time, events: seq<LeaseEvent>): Option<Lease> {
    if events == [] then None
    else
      var before, e := After(ttl, events[..|events| - 1]), events[|events| - 1];
      match e
      case Acquire(run, at) => Acquired(before, run, at, ttl)
      case Release(run, _) => Released(before, run)
  }

  /** Event i is an acquisition that succeeded. */
  predicate Granted(ttl: Time, events: seq<LeaseEvent>, i: nat)
    requires i < |events|
  {
    events[i].Acquire? && !Busy(After(ttl, events[..i]), events[i].run, events[i].at)
  }

  predicate InTimeOrder(events: seq<LeaseEvent>) {
    forall i, j :: 0 <= i < j < |events| ==> events[i].at <= events[j].at
  }

  /** The ownership of the acquisition at i is over at time t, by expiry or by its own release. */
  predicate Ended(ttl: Time, events: seq<LeaseEvent>, i: nat, t: Time)
    requires i < |events|
  {
    || t >= events[i].at + ttl
    || exists j :: i < j < |events| && events[j].Release? && events[j].run == events[i].run && events[j].at <= t
  }

  /** Until it expires or releases, the run of a granted acquisition stays the stored owner. */
  lemma {:induction false} OwnerStays(ttl: Time, events: seq<LeaseEvent>, i: nat)
    requires InTimeOrder(events) && i < |events| && Granted(ttl, events, i)
    requires !Ended(ttl, events, i, events[|events| - 1].at)
    ensures var lease := After(ttl, events);
      lease.Some? && lease.value.run == events[i].run && lease.value.expiresAt >= events[i].at + ttl
  {
    var n := |events| - 1;
    var front := events[..n];
    if i < n {
      assert front[..i] == events[..i];
      forall j | i < j < n ensures front[j].at <= events[n].at && front[j] == events[j] {}
      assert front[n - 1].at <= events[n].at;
      OwnerStays(ttl, front, i);
    }
  }

  /** Two ownership intervals of different runs never overlap: when a run is granted the lease,
      every earlier ownership of another run has ended. */
  lemma OwnershipIsExclusive(ttl: Time, events: seq<LeaseEvent>, i: nat, j: nat)
    requires InTimeOrder(events) && i < j < |events|
    requires Granted(ttl, events, i) && Granted(ttl, events, j) && events[i].run != events[j].run
    ensures Ended(ttl, events[..j], i, events[j].at)
  {
    var front := events[..j];
    if !Ended(ttl, front, i, events[j].at) {
      assert front[..i] == events[..i];
      assert !Ended(ttl, front, i, front[j - 1].at);
      OwnerStays(ttl, front, i);
    }
  }

  /** The stored lease was granted to its run, lasts from then on, and was not released since. */
  predicate Holds(ttl: Time, events: seq<LeaseEvent>, i: nat, lease: Lease) {
    && i < |events| && Granted(ttl, events, i)
    && events[i].run == lease.run && lease.expiresAt == events[i].at + ttl
    && forall j :: i < j < |events| && events[j].Release? ==> events[j].run != lease.run
  }

  lemma {:induction false} EveryLeaseWasGranted(ttl: Time, events: seq<LeaseEvent>) returns (i: nat)
    requires After(ttl, events).Some?
    ensures Holds(ttl, events, i, After(ttl, events).value)
  {
    var n := |events| - 1;
    var front := events[..n];
    if events[n].Acquire? && !Busy(After(ttl, front), events[n].run, events[n].at) {
      i := n;
    } else {
      i := EveryLeaseWasGranted(ttl, front);
      assert front[..i] == events[..i] && front[i] == events[i];
      forall j | i < j < |events| && events[j].Release? ensures events[j].run != events[i].run {
        if j < n { assert front[j] == events[j]; }
      }
    }
  }

  /** An acquisition succeeds exactly when no other run's ownership is still going on. */
  lemma GrantedExactly(ttl: Time, events: seq<LeaseEvent>, j: nat)
    requires InTimeOrder(events) && j < |events| && events[j].Acquire?
    ensures Granted(ttl, events, j) <==>
      forall i :: 0 <= i < j && Granted(ttl, events, i) && events[i].run != events[j].run ==>
        Ended(ttl, events[..j], i, events[j].at)
  {
    hide Granted, Ended;
    if Granted(ttl, events, j) {
      forall i | 0 <= i < j && Granted(ttl, events, i) && events[i].run != events[j].run
        ensures Ended(ttl, events[..j], i, events[j].at)
      {
        OwnershipIsExclusive(ttl, events, i, j);
      }
    } else {
      RefusedByOwner(ttl, events, j);
    }
  }

  lemma RefusedByOwner(ttl: Time, events: seq<LeaseEvent>, j: nat)
    requires j < |events| && events[j].Acquire? && !Granted(ttl, events, j)
    ensures exists i ::
      && 0 <= i < j && Granted(ttl, events, i) && events[i].run != events[j].run
      && !Ended(ttl, events[..j], i, events[j].at)
  {
    var front := events[..j];
    var i := EveryLeaseWasGranted(ttl, front);
    assert front[..i] == events[..i] && front[i] == events[i];
    assert Granted(ttl, events, i) && !Ended(ttl, front, i, events[j].at);
  }
}
