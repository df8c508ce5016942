/** The notification outbox: deduplicated items, bounded delivery attempts, exponential backoff. */
module Outbox {
  import opened Wrappers
  import opened Sequences
  import opened Domain

  datatype Delivery = Pending | Sending | Sent | Unsent

  // Rows are kept in insertion order, so the position of a row stands for its serial id.
  datatype Item = Item(key: string, status: Delivery, attempts: nat, nextAttempt: Option<Time>, createdAt: Time)

  predicate Sendable(x: Item, max: nat, now: Time) {
    && (x.status == Pending || x.status == Unsent) && x.attempts < max
    && (x.nextAttempt.None? || x.nextAttempt.value <= now)
  }

  predicate IsNextItem(items: seq<Item>, max: nat, now: Time, i: nat) {
    && i < |items| && Sendable(items[i], max, now)
    && forall j :: 0 <= j < |items| && Sendable(items[j], max, now) ==>
         items[i].createdAt < items[j].createdAt || (items[i].createdAt == items[j].createdAt && i <= j)
  }

  function Pow2(n: nat): (p: nat)
    ensures p >= 1
  { if n == 0 then 1 else 2 * Pow2(n - 1) }

  function Attempted(x: Item): Item { x.(status := Sending, attempts := x.attempts + 1) }

  function Delivered(x: Item): Item { x.(status := Sent, nextAttempt := None) }

  function Undelivered(x: Item, now: Time, max: nat, base: Time): Item {
    var delay := base * Pow2(if x.attempts == 0 then 0 else x.attempts - 1);
    x.(status := Unsent, nextAttempt := if x.attempts < max then Some(now + delay) else None)
  }

  function Resumed(x: Item): Item { if x.status == Sending then x.(status := Pending) else x }

  function ResumeAll(items: seq<Item>): (r: seq<Item>)
    ensures |r| == |items| && forall i :: 0 <= i < |items| ==> r[i] == Resumed(items[i])
  {
    seq(|items|, i requires 0 <= i < |items| => Resumed(items[i]))
  }

  predicate DistinctItems(items: seq<Item>) {
    forall i, j :: 0 <= i < j < |items| ==> items[i].key != items[j].key
  }

  function IndexOfItem(items: seq<Item>, key: string): (i: nat)
    ensures i <= |items| && (i < |items| ==> items[i].key == key)
    ensures forall j :: 0 <= j < i ==> items[j].key != key
  {
    IndexWhere((x: Item) => x.key == key, items)
  }

  function NewItem(key: string, now: Time): Item { Item(key, Pending, 0, None, now) }

  /** Next is the oldest item that was never sent, or not successfully, has attempts left and need not wait. */
  lemma NextItemMeans(items: seq<Item>, max: nat, now: Time, i: nat)
    requires i < |items|
    ensures var open := (x: Item) =>
        (x.status == Pending || x.status == Unsent) && x.attempts < max
        && (x.nextAttempt.Some? ==> x.nextAttempt.value <= now);
      IsNextItem(items, max, now, i) <==>
        && open(items[i])
        && (forall j :: 0 <= j < |items| && open(items[j]) ==> items[i].createdAt <= items[j].createdAt)
        && (forall j :: 0 <= j < i && open(items[j]) ==> items[i].createdAt < items[j].createdAt)
  {
  }

  /** After a failure the item waits the base delay, doubled with every attempt before, while attempts are left. */
  lemma UndeliveredMeans(x: Item, now: Time, max: nat, base: Time)
    ensures var y := Undelivered(x, now, max, base);
      && y.key == x.key && y.status == Unsent && y.attempts == x.attempts && y.createdAt == x.createdAt
      && (x.attempts >= max ==> y.nextAttempt == None)
      && (x.attempts < max && x.attempts <= 1 ==> y.nextAttempt == Some(now + base))
      && (x.attempts < max && x.attempts > 1 ==>
            var before := Undelivered(x.(attempts := x.attempts - 1), 0, max, base);
            before.nextAttempt.Some? && y.nextAttempt == Some(now + 2 * before.nextAttempt.value))
  {
    assert Pow2(0) == 1;
    if x.attempts > 1 { assert Pow2(x.attempts - 1) == 2 * Pow2(x.attempts - 2); }
  }

  class NotificationRepository {
    var items: seq<Item>

    predicate Valid()
      reads this
    {
      DistinctItems(items)
    }

    constructor ()
      ensures Valid() && items == []
    {
      items := [];
    }

    /** Store a new item unless its dedupe key is already known. */
    method Enqueue(key: string, now: Time) returns (item: Item, created: bool)
      requires Valid()
      modifies this
      ensures Valid()
      ensures created <==> IndexOfItem(old(items), key) == |old(items)|
      ensures items == if created then old(items) + [item] else old(items)
      ensures item in items && item.key == key && (created ==> item == NewItem(key, now))
    {
      var i := IndexOfItem(items, key);
      if i < |items| { return items[i], false; }
      item := NewItem(key, now);
      items := items + [item];
      created := true;
    }

    method ClaimDue(now: Time, max: nat) returns (claim: Option<Item>)
      requires Valid()
      modifies this
      ensures Valid()
      ensures claim.None? ==> items == old(items) && forall x :: x in items ==>
        x.status in {Sending, Sent} || x.attempts >= max || (x.nextAttempt.Some? && x.nextAttempt.value > now)
      ensures claim.Some? ==> exists i: nat ::
        && IsNextItem(old(items), max, now, i)
        && claim.value == old(items)[i].(status := Sending, attempts := old(items)[i].attempts + 1)
        && items == old(items)[i := claim.value]
    {
      var best: nat := |items|;
      for i := 0 to |items|
        invariant best <= |items| && items == old(items)
        invariant best == |items| ==> forall j :: 0 <= j < i ==> !Sendable(items[j], max, now)
        invariant best < |items| ==> best < i && IsNextItem(items[..i], max, now, best)
      {
        assert items[..i + 1] == items[..i] + [items[i]];
        if Sendable(items[i], max, now) && (best == |items| || items[i].createdAt < items[best].createdAt) {
          best := i;
        }
      }
      assert items[..|items|] == items;
      if best == |items| { return None; }
      claim := Some(Attempted(items[best]));
      assert IsNextItem(old(items), max, now, best);
      items := items[best := claim.value];
    }

    method RecoverInflight()
      requires Valid()
      modifies this
      ensures Valid() && items == ResumeAll(old(items))
      ensures forall i :: 0 <= i < |items| ==>
        items[i] == if old(items)[i].status == Sending then old(items)[i].(status := Pending) else old(items)[i]
    {
      items := ResumeAll(items);
    }

    method MarkSent(key: string)
      requires Valid()
      modifies this
      ensures Valid() && items == Rewrite(old(items), key, x => Delivered(x))
      ensures |items| == |old(items)| && forall i :: 0 <= i < |items| ==>
        items[i] == if old(items)[i].key != key then old(items)[i]
                    else old(items)[i].(status := Sent, nextAttempt := None)
    {
      var i := IndexOfItem(items, key);
      if i < |items| { items := items[i := Delivered(items[i])]; }
    }

    method MarkFailed(key: string, now: Time, max: nat, base: Time) returns (found: bool)
      requires Valid()
      modifies this
      ensures Valid() && (found <==> IndexOfItem(old(items), key) < |old(items)|)
      ensures items == Rewrite(old(items), key, x => Undelivered(x, now, max, base))
      ensures |items| == |old(items)| && forall i :: 0 <= i < |items| ==>
        items[i] == if old(items)[i].key == key then Undelivered(old(items)[i], now, max, base) else old(items)[i]
    {
      var i := IndexOfItem(items, key);
      found := i < |items|;
      if found { items := items[i := Undelivered(items[i], now, max, base)]; }
    }
  }

  function Rewrite(items: seq<Item>, key: string, f: Item -> Item): seq<Item> {
    var i := IndexOfItem(items, key);
    if i < |items| then items[i := f(items[i])] else items
  }

  // ----- One delivery worker

  /** A single worker's process: complete deliveries, deliveries cut short by a crash, restarts. */
  datatype Shift =
    | Store(key: string, now: Time)
    | Deliver(pick: nat, now: Time, ok: bool, doneAt: Time)
    | CrashWhileSending(pick: nat, now: Time)
    | StartWorker

  function ShiftStep(max: nat, base: Time, items: seq<Item>, s: Shift): seq<Item> {
    match s
    case Store(key, now) =>
      if IndexOfItem(items, key) < |items| then items else items + [NewItem(key, now)]
    case Deliver(pick, now, ok, doneAt) =>
      if !IsNextItem(items, max, now, pick) then items
      else
        var x := Attempted(items[pick]);
        items[pick := if ok then Delivered(x) else Undelivered(x, doneAt, max, base)]
    case CrashWhileSending(pick, now) =>
      if !IsNextItem(items, max, now, pick) then items else items[pick := Attempted(items[pick])]
    case StartWorker => ResumeAll(items)
  }

  lemma OnlyItem(items: seq<Item>, i: nat)
    requires DistinctItems(items) && i < |items|
    ensures IndexOfItem(items, items[i].key) == i
  {
  }

  class NotificationDeliveryWorker {
    const repository: NotificationRepository
    const maxAttempts: nat
    const baseDelay: Time

    constructor (repository: NotificationRepository, maxAttempts: nat, baseDelay: Time)
      requires repository.Valid()
      modifies repository
      ensures this.repository == repository && this.maxAttempts == maxAttempts && this.baseDelay == baseDelay
      ensures repository.Valid()
      ensures repository.items == ShiftStep(maxAttempts, baseDelay, old(repository.items), StartWorker)
    {
      this.repository, this.maxAttempts, this.baseDelay := repository, maxAttempts, baseDelay;
      new;
      repository.RecoverInflight();
    }

    /** Deliver one claimed item; `ok` is the sender's answer. */
    method RunOnce(now: Time, ok: bool, doneAt: Time) returns (worked: bool)
      requires repository.Valid()
      modifies repository
      ensures repository.Valid()
      ensures !worked ==> repository.items == old(repository.items)
      ensures !worked ==> forall x :: x in repository.items ==>
        x.status in {Sending, Sent} || x.attempts >= maxAttempts || (x.nextAttempt.Some? && x.nextAttempt.value > now)
      ensures worked ==> exists pick: nat ::
        && IsNextItem(old(repository.items), maxAttempts, now, pick)
        && repository.items == ShiftStep(maxAttempts, baseDelay, old(repository.items), Deliver(pick, now, ok, doneAt))
        && var x := old(repository.items)[pick];
           repository.items == old(repository.items)[pick :=
             if ok then x.(status := Sent, attempts := x.attempts + 1, nextAttempt := None)
             else Undelivered(x.(status := Sending, attempts := x.attempts + 1), doneAt, maxAttempts, baseDelay)]
    {
      var claim := repository.ClaimDue(now, maxAttempts);
      if claim.None? { return false; }
      ghost var pick: nat :| IsNextItem(old(repository.items), maxAttempts, now, pick)
        && claim.value == Attempted(old(repository.items)[pick])
        && repository.items == old(repository.items)[pick := claim.value];
      OnlyItem(repository.items, pick);
      hide DistinctItems;
      if ok {
        repository.MarkSent(claim.value.key);
      } else {
        var found := repository.MarkFailed(claim.value.key, doneAt, maxAttempts, baseDelay);
      }
      worked := true;
    }
  }

  function ShiftsFrom(max: nat, base: Time, items: seq<Item>, shifts: seq<Shift>): seq<Item> {
    if shifts == [] then items
    else ShiftStep(max, base, ShiftsFrom(max, base, items, shifts[..|shifts| - 1]), shifts[|shifts| - 1])
  }

  /** With one worker, sent is final: nothing ever reopens a sent item. */
  lemma {:induction false} SentIsFinal(max: nat, base: Time, items: seq<Item>, shifts: seq<Shift>, i: nat)
    requires i < |items| && items[i].status == Sent
    ensures var later := ShiftsFrom(max, base, items, shifts); i < |later| && later[i] == items[i]
  {
    if shifts != [] { SentIsFinal(max, base, items, shifts[..|shifts| - 1], i); }
  }
}
