/** Exponential backoff: how late the attempts at one item come when they all fail. */
module Backoff {
  import opened Wrappers
  import opened Domain
  import opened Outbox

  datatype Round = Round(claimedAt: Time, failedAt: Time)

  function AfterRounds(x: Item, rounds: seq<Round>, max: nat, base: Time): Item {
    if rounds == [] then x
    else
      var before := AfterRounds(x, rounds[..|rounds| - 1], max, base);
      Undelivered(Attempted(before), rounds[|rounds| - 1].failedAt, max, base)
  }

  /** Each round claims the item when it is sendable and fails later. */
  predicate FailingRounds(x: Item, rounds: seq<Round>, max: nat, base: Time) {
    forall i :: 0 <= i < |rounds| ==>
      && Sendable(AfterRounds(x, rounds[..i], max, base), max, rounds[i].claimedAt)
      && rounds[i].claimedAt <= rounds[i].failedAt
  }

  /** Attempt k + 1 starts no earlier than base * (2^k - 1) after the first failure; the last of
      `max` attempts therefore waits at least base * (2^(max - 1) - 1). */
  lemma {:induction false} BackoffGrows(key: string, createdAt: Time, rounds: seq<Round>, max: nat, base: Time)
    requires base >= 0
    requires FailingRounds(NewItem(key, createdAt), rounds, max, base)
    ensures |rounds| <= max
    ensures var x := AfterRounds(NewItem(key, createdAt), rounds, max, base);
      && x.attempts == |rounds|
      && (rounds != [] && |rounds| < max ==>
            x.nextAttempt.Some? && x.nextAttempt.value >= rounds[0].failedAt + base * (Pow2(|rounds|) - 1))
    ensures rounds != [] ==>
      |rounds| == 1 || rounds[|rounds| - 1].claimedAt >= rounds[0].failedAt + base * (Pow2(|rounds| - 1) - 1)
  {
    hide Sendable, Undelivered, Attempted;
    if rounds != [] {
      var n := |rounds| - 1;
      var before := rounds[..n];
      forall i | 0 <= i < n ensures before[..i] == rounds[..i] && before[i] == rounds[i] {}
      BackoffGrows(key, createdAt, before, max, base);
      DoubledDelay(base, Pow2(n));
      assert Pow2(n + 1) == 2 * Pow2(n);
      assert Sendable(AfterRounds(NewItem(key, createdAt), before, max, base), max, rounds[n].claimedAt);
      RoundAdvances(AfterRounds(NewItem(key, createdAt), before, max, base), max, base, rounds[n]);
    }
  }

  lemma RoundAdvances(x: Item, max: nat, base: Time, round: Round)
    requires Sendable(x, max, round.claimedAt)
    ensures x.attempts < max && (x.nextAttempt.Some? ==> round.claimedAt >= x.nextAttempt.value)
    ensures var y := Undelivered(Attempted(x), round.failedAt, max, base);
      && y.attempts == x.attempts + 1
      && (y.attempts < max ==> y.nextAttempt == Some(round.failedAt + base * Pow2(x.attempts)))
  {
  }

  lemma DoubledDelay(base: Time, p: nat)
    ensures base * (2 * p - 1) == base * (p - 1) + base * p
  {
  }

  // ----- One worker's history

  /** The shift delivers this key's item. */
  predicate Delivers(max: nat, items: seq<Item>, s: Shift, key: string) {
    s.Deliver? && IsNextItem(items, max, s.now, s.pick) && items[s.pick].key == key
  }

  predicate DiesOn(max: nat, items: seq<Item>, s: Shift, key: string) {
    s.CrashWhileSending? && IsNextItem(items, max, s.now, s.pick) && items[s.pick].key == key
  }

  /** Every delivery of the key fails, after it began, and none is cut short. */
  ghost predicate AlwaysFails(max: nat, base: Time, shifts: seq<Shift>, key: string) {
    forall i :: 0 <= i < |shifts| ==> FailsAt(max, ShiftsFrom(max, base, [], shifts[..i]), shifts[i], key)
  }

  predicate FailsAt(max: nat, items: seq<Item>, s: Shift, key: string) {
    !DiesOn(max, items, s, key) && (Delivers(max, items, s, key) ==> !s.ok && s.now <= s.doneAt)
  }

  /** The deliveries of one key in a history. */
  function RoundsOf(max: nat, base: Time, shifts: seq<Shift>, key: string): seq<Round> {
    if shifts == [] then []
    else
      var before, s := shifts[..|shifts| - 1], shifts[|shifts| - 1];
      RoundsOf(max, base, before, key)
        + if Delivers(max, ShiftsFrom(max, base, [], before), s, key) then [Round(s.now, s.doneAt)] else []
  }

  lemma OneMoreRound(x: Item, rounds: seq<Round>, round: Round, max: nat, base: Time)
    requires FailingRounds(x, rounds, max, base)
    requires Sendable(AfterRounds(x, rounds, max, base), max, round.claimedAt) && round.claimedAt <= round.failedAt
    ensures FailingRounds(x, rounds + [round], max, base)
    ensures AfterRounds(x, rounds + [round], max, base)
         == Undelivered(Attempted(AfterRounds(x, rounds, max, base)), round.failedAt, max, base)
  {
    hide Sendable;
    var longer := rounds + [round];
    assert longer[..|rounds|] == rounds;
    forall i | 0 <= i < |rounds| ensures longer[..i] == rounds[..i] && longer[i] == rounds[i] {}
  }

  /** The item's row holds what its failed deliveries make of a new item. */
  ghost predicate RowTells(max: nat, base: Time, items: seq<Item>, key: string, rounds: seq<Round>) {
    var i := IndexOfItem(items, key);
    && DistinctItems(items) && (i == |items| ==> rounds == [])
    && (i < |items| ==>
          var x := NewItem(key, items[i].createdAt);
          FailingRounds(x, rounds, max, base) && items[i] == AfterRounds(x, rounds, max, base))
  }

  function Shifted(max: nat, base: Time, items: seq<Item>, s: Shift, key: string, x: Item): Item {
    if Delivers(max, items, s, key) then Undelivered(Attempted(x), s.doneAt, max, base)
    else if s.StartWorker? then Resumed(x)
    else x
  }

  /** One shift seen from one key: its own delivery, its storing, or nothing. */
  lemma ShiftOnKey(max: nat, base: Time, items: seq<Item>, s: Shift, key: string)
    requires DistinctItems(items) && FailsAt(max, items, s, key)
    ensures var items', i := ShiftStep(max, base, items, s), IndexOfItem(items, key);
      && DistinctItems(items') && |items| <= |items'| && IndexOfItem(items', key) >= i
      && (i < |items| ==> IndexOfItem(items', key) == i)
      && (i < |items| ==> items'[i] == Shifted(max, base, items, s, key, items[i]))
      && (Delivers(max, items, s, key) ==> i < |items| && Sendable(items[i], max, s.now))
      && (i == |items| && IndexOfItem(items', key) < |items'| ==> items'[i] == NewItem(key, items'[i].createdAt))
      && (i == |items| ==> IndexOfItem(items', key) == i || IndexOfItem(items', key) == |items'|)
  {
    var items' := ShiftStep(max, base, items, s);
    assert forall j :: 0 <= j < |items| ==> items'[j].key == items[j].key;
    if (s.Deliver? || s.CrashWhileSending?) && IsNextItem(items, max, s.now, s.pick) { OnlyItem(items, s.pick); }
  }

  lemma {:induction false} UnsentAfterRounds(x: Item, rounds: seq<Round>, max: nat, base: Time)
    requires x.status == Pending
    ensures var y := AfterRounds(x, rounds, max, base); y.status != Sending && y.createdAt == x.createdAt
  {
    if rounds != [] { UnsentAfterRounds(x, rounds[..|rounds| - 1], max, base); }
  }

  lemma ShiftTells(max: nat, base: Time, items: seq<Item>, s: Shift, key: string, rounds: seq<Round>)
    requires RowTells(max, base, items, key, rounds) && FailsAt(max, items, s, key)
    ensures RowTells(max, base, ShiftStep(max, base, items, s), key,
                     rounds + if Delivers(max, items, s, key) then [Round(s.now, s.doneAt)] else [])
  {
    ShiftOnKey(max, base, items, s, key);
    hide ShiftStep, DistinctItems, Sendable, Undelivered, FailsAt, Delivers;
    var i := IndexOfItem(items, key);
    assert rounds + [] == rounds;
    if i < |items| {
      var x := NewItem(key, items[i].createdAt);
      UnsentAfterRounds(x, rounds, max, base);
      if Delivers(max, items, s, key) {
        StillCreatedThen(max, base, items[i], s, key, items);
        OneMoreRound(x, rounds, Round(s.now, s.doneAt), max, base);
      }
    }
  }

  lemma StillCreatedThen(max: nat, base: Time, x: Item, s: Shift, key: string, items: seq<Item>)
    requires Delivers(max, items, s, key) && FailsAt(max, items, s, key)
    ensures Undelivered(Attempted(x), s.doneAt, max, base).createdAt == x.createdAt && s.now <= s.doneAt
  {
  }

  lemma {:induction false} DeliveriesAreRounds(max: nat, base: Time, shifts: seq<Shift>, key: string)
    requires AlwaysFails(max, base, shifts, key)
    ensures RowTells(max, base, ShiftsFrom(max, base, [], shifts), key, RoundsOf(max, base, shifts, key))
  {
    if shifts != [] {
      hide ShiftStep, RowTells, FailsAt, Delivers;
      var before := shifts[..|shifts| - 1];
      forall i | 0 <= i < |before| ensures before[..i] == shifts[..i] && before[i] == shifts[i] {}
      DeliveriesAreRounds(max, base, before, key);
      var items, rounds := ShiftsFrom(max, base, [], before), RoundsOf(max, base, before, key);
      ShiftTells(max, base, items, shifts[|shifts| - 1], key, rounds);
    }
  }

  /**
   * In any history of one worker in which every delivery of a key fails, there are at most `max` of them,
   * and the last of n starts no earlier than base * (2^(n - 1) - 1) after the first has failed.
   */
  lemma BackoffInHistory(max: nat, base: Time, shifts: seq<Shift>, key: string)
    requires base >= 0 && AlwaysFails(max, base, shifts, key)
    ensures var rounds := RoundsOf(max, base, shifts, key);
      && |rounds| <= max
      && (|rounds| > 1 ==>
            rounds[|rounds| - 1].claimedAt >= rounds[0].failedAt + base * (Pow2(|rounds| - 1) - 1))
  {
    hide AlwaysFails, ShiftsFrom, RoundsOf, AfterRounds, FailingRounds;
    DeliveriesAreRounds(max, base, shifts, key);
    var items, rounds := ShiftsFrom(max, base, [], shifts), RoundsOf(max, base, shifts, key);
    if rounds != [] {
      BackoffGrows(key, items[IndexOfItem(items, key)].createdAt, rounds, max, base);
    }
  }
}
