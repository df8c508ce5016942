/** The outbox under any number of delivery workers, each of which may die at any point. */
module Deliveries {
  import opened Domain
  import RunQueue
  import opened Outbox

  /** A worker's claim on an item: the attempt it was handed. Recording the outcome ends it. */
  datatype Claim = Claim(key: string, number: nat)

  /** The rows, the claims whose workers are alive, and those of them not yet handed to the sender. */
  datatype Mail = Mail(items: seq<Item>, held: set<Claim>, ready: set<Claim>)

  const NO_MAIL := Mail([], {}, {})

  datatype MailAction =
    | Put(key: string, now: Time)
    | Take(pick: nat, now: Time)
    | Send(claim: Claim)                  // the one call to the sender that follows a claim
    | RecordSent(claim: Claim)
    | RecordFailed(claim: Claim, now: Time)
    | Start                               // a new worker begins by recovering what is in flight
    | Die(claim: Claim)                   // the worker's process is gone, its claim with it

  predicate Possible(max: nat, m: Mail, a: MailAction) {
    match a
    case Put(key, _) => IndexOfItem(m.items, key) == |m.items|
    case Take(pick, now) => IsNextItem(m.items, max, now, pick)
    case Send(claim) => claim in m.ready
    case RecordSent(claim) => claim in m.held && claim !in m.ready
    case RecordFailed(claim, _) => claim in m.held
    case Start => true
    case Die(claim) => claim in m.held
  }

  function MailStep(max: nat, base: Time, m: Mail, a: MailAction): Mail {
    if !Possible(max, m, a) then m
    else match a
      case Put(key, now) => m.(items := m.items + [NewItem(key, now)])
      case Take(pick, now) =>
        var x := Attempted(m.items[pick]);
        var claim := Claim(x.key, x.attempts);
        Mail(m.items[pick := x], m.held + {claim}, m.ready + {claim})
      case Send(claim) => m.(ready := m.ready - {claim})
      case RecordSent(claim) => m.(items := Rewrite(m.items, claim.key, x => Delivered(x)), held := m.held - {claim})
      case RecordFailed(claim, now) =>
        Mail(Rewrite(m.items, claim.key, x => Undelivered(x, now, max, base)), m.held - {claim}, m.ready - {claim})
      case Start => m.(items := ResumeAll(m.items))
      case Die(claim) => m.(held := m.held - {claim}, ready := m.ready - {claim})
  }

  /** What each action does when a worker can take it: claiming the next item, sending it, recording either outcome,
      starting over, dying. */
  lemma ActionsMean(max: nat, base: Time, m: Mail, pick: nat, claim: Claim, now: Time)
    ensures IsNextItem(m.items, max, now, pick) ==>
      var x := m.items[pick].(status := Sending, attempts := m.items[pick].attempts + 1);
      MailStep(max, base, m, Take(pick, now))
        == Mail(m.items[pick := x], m.held + {Claim(x.key, x.attempts)}, m.ready + {Claim(x.key, x.attempts)})
    ensures claim in m.ready ==> MailStep(max, base, m, Send(claim)) == m.(ready := m.ready - {claim})
    ensures claim in m.held && claim !in m.ready ==>
      MailStep(max, base, m, RecordSent(claim))
        == m.(items := Rewrite(m.items, claim.key, x => Delivered(x)), held := m.held - {claim})
    ensures claim in m.held ==>
      MailStep(max, base, m, RecordFailed(claim, now))
        == Mail(Rewrite(m.items, claim.key, x => Undelivered(x, now, max, base)), m.held - {claim}, m.ready - {claim})
    ensures claim in m.held ==>
      MailStep(max, base, m, Die(claim)) == m.(held := m.held - {claim}, ready := m.ready - {claim})
    ensures var started := MailStep(max, base, m, Start);
      && started.held == m.held && started.ready == m.ready && |started.items| == |m.items|
      && forall i :: 0 <= i < |m.items| ==>
           started.items[i] == if m.items[i].status == Sending then m.items[i].(status := Pending) else m.items[i]
  {
  }

  function MailFrom(max: nat, base: Time, m: Mail, actions: seq<MailAction>): Mail {
    if actions == [] then m
    else MailStep(max, base, MailFrom(max, base, m, actions[..|actions| - 1]), actions[|actions| - 1])
  }

  function MailAfter(max: nat, base: Time, actions: seq<MailAction>): Mail {
    MailFrom(max, base, NO_MAIL, actions)
  }

  lemma MailOneMore(max: nat, base: Time, m: Mail, actions: seq<MailAction>, a: MailAction)
    ensures MailFrom(max, base, m, actions + [a]) == MailStep(max, base, MailFrom(max, base, m, actions), a)
  {
    assert (actions + [a])[..|actions|] == actions;
  }

  lemma {:induction false} MailInTwo(max: nat, base: Time, m: Mail, a: seq<MailAction>, b: seq<MailAction>)
    ensures MailFrom(max, base, m, a + b) == MailFrom(max, base, MailFrom(max, base, m, a), b)
  {
    if b == [] {
      assert a + b == a;
    } else {
      assert (a + b)[..|a + b| - 1] == a + b[..|b| - 1];
      MailInTwo(max, base, m, a, b[..|b| - 1]);
    }
  }

  // ----- Sends are bounded

  /** The message with this key really leaves. */
  predicate Leaves(max: nat, m: Mail, a: MailAction, key: string) {
    a.Send? && Possible(max, m, a) && a.claim.key == key
  }

  function CountSends(max: nat, base: Time, actions: seq<MailAction>, key: string): nat {
    if actions == [] then 0
    else
      var before := actions[..|actions| - 1];
      CountSends(max, base, before, key)
        + (if Leaves(max, MailAfter(max, base, before), actions[|actions| - 1], key) then 1 else 0)
  }

  function SentAttempts(max: nat, base: Time, actions: seq<MailAction>, key: string): set<nat> {
    if actions == [] then {}
    else
      var before, a := actions[..|actions| - 1], actions[|actions| - 1];
      SentAttempts(max, base, before, key)
        + (if Leaves(max, MailAfter(max, base, before), a, key) then {a.claim.number} else {})
  }

  function AttemptsOf(items: seq<Item>, key: string): nat {
    var i := IndexOfItem(items, key);
    if i < |items| then items[i].attempts else 0
  }

  predicate Claims(max: nat, m: Mail, a: MailAction, i: nat) {
    a.Take? && a.pick == i && IsNextItem(m.items, max, a.now, i)
  }

  /** Items keep their places and keys, and only a claim raises an attempt count, by one and up to the limit. */
  lemma MailStepOnItems(max: nat, base: Time, m: Mail, a: MailAction)
    requires DistinctItems(m.items)
    ensures var items, items' := m.items, MailStep(max, base, m, a).items;
      && DistinctItems(items') && |items| <= |items'|
      && (forall i :: 0 <= i < |items| ==> items'[i].key == items[i].key)
      && (forall i :: 0 <= i < |items| ==>
            items'[i].attempts == items[i].attempts + if Claims(max, m, a, i) then 1 else 0)
      && (forall i :: |items| <= i < |items'| ==> items'[i].attempts == 0)
  {
  }

  lemma SameItemIndex(items: seq<Item>, items': seq<Item>, key: string)
    requires |items| <= |items'| && forall i :: 0 <= i < |items| ==> items'[i].key == items[i].key
    ensures IndexOfItem(items, key) < |items| ==> IndexOfItem(items', key) == IndexOfItem(items, key)
    ensures IndexOfItem(items, key) == |items| ==> IndexOfItem(items', key) >= |items|
  {
  }

  lemma MailStepOnKey(max: nat, base: Time, m: Mail, a: MailAction, key: string)
    requires DistinctItems(m.items)
    ensures var m' := MailStep(max, base, m, a);
      && DistinctItems(m'.items)
      && AttemptsOf(m.items, key) <= AttemptsOf(m'.items, key)
      && (AttemptsOf(m'.items, key) > AttemptsOf(m.items, key) ==> AttemptsOf(m'.items, key) <= max)
      && (forall c :: c in m'.ready && c.key == key ==>
            c in m.ready || (c.number == AttemptsOf(m'.items, key) == AttemptsOf(m.items, key) + 1))
      && (Leaves(max, m, a, key) ==> a.claim !in m'.ready)
  {
    MailStepOnItems(max, base, m, a);
    hide DistinctItems, Rewrite;
    var items, items' := m.items, MailStep(max, base, m, a).items;
    SameItemIndex(items, items', key);
    if a.Take? && IsNextItem(items, max, a.now, a.pick) { OnlyItem(items, a.pick); }
  }

  /** Every send spends its own attempt number, and attempt numbers stop at the limit. */
  lemma {:induction false} SendsSpendAttempts(max: nat, base: Time, actions: seq<MailAction>, key: string)
    ensures var m, spent := MailAfter(max, base, actions), SentAttempts(max, base, actions, key);
      && DistinctItems(m.items) && AttemptsOf(m.items, key) <= max
      && CountSends(max, base, actions, key) == |spent|
      && (forall k :: k in spent ==> 1 <= k <= AttemptsOf(m.items, key) && Claim(key, k) !in m.ready)
      && (forall c :: c in m.ready && c.key == key ==> 1 <= c.number <= AttemptsOf(m.items, key))
  {
    if actions != [] {
      var before, a := actions[..|actions| - 1], actions[|actions| - 1];
      SendsSpendAttempts(max, base, before, key);
      MailStepOnKey(max, base, MailAfter(max, base, before), a, key);
      hide MailStep, AttemptsOf;
      assert a.Send? ==> a.claim == Claim(a.claim.key, a.claim.number);
    }
  }

  /** Under any interleaving of workers, crashes and recoveries, one dedupe key is sent at most
      `max` times. */
  lemma BoundedSends(max: nat, base: Time, actions: seq<MailAction>, key: string)
    ensures CountSends(max, base, actions, key) <= max
  {
    SendsSpendAttempts(max, base, actions, key);
    RunQueue.BoundedSetSize(SentAttempts(max, base, actions, key), max + 1);
  }

  // ----- When sent is final

  /** No live worker holds a claim that could still be repeated. */
  predicate Quiescent(max: nat, m: Mail) { forall c :: c in m.held ==> c.number >= max }

  /** Workers only start while no claim below the attempt limit is held. */
  ghost predicate CarefulStarts(max: nat, base: Time, m: Mail, actions: seq<MailAction>) {
    forall i :: 0 <= i < |actions| && actions[i].Start? ==> Quiescent(max, MailFrom(max, base, m, actions[..i]))
  }

  /** The claim is the item's current attempt, and no other worker can get another one. */
  predicate Owns(max: nat, items: seq<Item>, c: Claim) {
    var i := IndexOfItem(items, c.key);
    && i < |items| && items[i].attempts == c.number
    && (items[i].status == Sending || (items[i].status == Pending && c.number >= max))
  }

  ghost predicate Exclusive(max: nat, m: Mail) {
    DistinctItems(m.items) && forall c :: c in m.held ==> Owns(max, m.items, c)
  }

  /** What rewriting one key does, item by item. */
  lemma RewriteAt(items: seq<Item>, key: string, f: Item -> Item)
    requires DistinctItems(items) && forall x :: f(x).key == x.key
    ensures var items' := Rewrite(items, key, f);
      && |items'| == |items| && DistinctItems(items')
      && forall i :: 0 <= i < |items| ==> items'[i] == if items[i].key == key then f(items[i]) else items[i]
  {
  }

  lemma StillOwns(max: nat, items: seq<Item>, items': seq<Item>, c: Claim)
    requires Owns(max, items, c) && |items| <= |items'|
    requires forall i :: 0 <= i < |items| ==> items'[i].key == items[i].key
    requires var i := IndexOfItem(items, c.key);
      items'[i] == items[i] || (items[i].status == Sending && c.number >= max && items'[i] == Resumed(items[i]))
    ensures Owns(max, items', c)
  {
    SameItemIndex(items, items', c.key);
  }

  lemma TakeStaysExclusive(max: nat, base: Time, m: Mail, a: MailAction)
    requires Exclusive(max, m) && a.Take? && Possible(max, m, a)
    ensures Exclusive(max, MailStep(max, base, m, a))
  {
    MailStepOnItems(max, base, m, a);
    var m' := MailStep(max, base, m, a);
    OnlyItem(m.items, a.pick);
    OnlyItem(m'.items, a.pick);
    hide DistinctItems, IndexOfItem;
    forall c | c in m'.held ensures Owns(max, m'.items, c) {
      if c in m.held {
        assert c.key != m.items[a.pick].key;
        StillOwns(max, m.items, m'.items, c);
      }
    }
  }

  lemma RecordStaysExclusive(max: nat, base: Time, m: Mail, a: MailAction)
    requires Exclusive(max, m) && (a.RecordSent? || a.RecordFailed?) && Possible(max, m, a)
    ensures Exclusive(max, MailStep(max, base, m, a))
  {
    MailStepOnItems(max, base, m, a);
    var m' := MailStep(max, base, m, a);
    forall c | c in m'.held ensures Owns(max, m'.items, c) {
      assert c == Claim(c.key, c.number) && a.claim == Claim(a.claim.key, a.claim.number);
      assert c.key != a.claim.key;
      StillOwns(max, m.items, m'.items, c);
    }
  }

  lemma StepStaysExclusive(max: nat, base: Time, m: Mail, a: MailAction)
    requires Exclusive(max, m) && (a.Start? ==> Quiescent(max, m))
    ensures Exclusive(max, MailStep(max, base, m, a))
  {
    if a.Take? && Possible(max, m, a) {
      TakeStaysExclusive(max, base, m, a);
    } else if (a.RecordSent? || a.RecordFailed?) && Possible(max, m, a) {
      RecordStaysExclusive(max, base, m, a);
    } else {
      MailStepOnItems(max, base, m, a);
      var m' := MailStep(max, base, m, a);
      hide DistinctItems, IsNextItem;
      forall c | c in m'.held ensures Owns(max, m'.items, c) { StillOwns(max, m.items, m'.items, c); }
    }
  }

  /** While claims are exclusive no step touches a sent item. */
  lemma StepKeepsSent(max: nat, base: Time, m: Mail, a: MailAction, i: nat)
    requires Exclusive(max, m) && i < |m.items| && m.items[i].status == Sent
    ensures i < |MailStep(max, base, m, a).items| && MailStep(max, base, m, a).items[i] == m.items[i]
  {
    if (a.RecordSent? || a.RecordFailed?) && Possible(max, m, a) {
      assert Owns(max, m.items, a.claim);
      OnlyItem(m.items, i);
    }
  }

  lemma {:induction false} StaysExclusive(max: nat, base: Time, m: Mail, actions: seq<MailAction>)
    requires Exclusive(max, m) && CarefulStarts(max, base, m, actions)
    ensures Exclusive(max, MailFrom(max, base, m, actions))
  {
    if actions != [] {
      hide Exclusive, MailStep, Quiescent;
      var before := actions[..|actions| - 1];
      CarefulBefore(max, base, m, actions);
      StaysExclusive(max, base, m, before);
      StepStaysExclusive(max, base, MailFrom(max, base, m, before), actions[|actions| - 1]);
    }
  }

  lemma CarefulBefore(max: nat, base: Time, m: Mail, actions: seq<MailAction>)
    requires actions != [] && CarefulStarts(max, base, m, actions)
    ensures CarefulStarts(max, base, m, actions[..|actions| - 1])
  {
    hide Quiescent, MailFrom;
    var before := actions[..|actions| - 1];
    forall i | 0 <= i < |before| && before[i].Start? ensures Quiescent(max, MailFrom(max, base, m, before[..i])) {
      assert before[i] == actions[i] && before[..i] == actions[..i];
    }
  }

  lemma {:induction false} SentKept(max: nat, base: Time, m: Mail, actions: seq<MailAction>, i: nat)
    requires Exclusive(max, m) && CarefulStarts(max, base, m, actions)
    requires i < |m.items| && m.items[i].status == Sent
    ensures var later := MailFrom(max, base, m, actions).items; i < |later| && later[i] == m.items[i]
  {
    if actions != [] {
      hide Exclusive, MailStep, Quiescent;
      var before := actions[..|actions| - 1];
      CarefulBefore(max, base, m, actions);
      SentKept(max, base, m, before, i);
      StaysExclusive(max, base, m, before);
      StepKeepsSent(max, base, MailFrom(max, base, m, before), actions[|actions| - 1], i);
    }
  }

  /**
   * For any number of workers: while workers start only when no claim below the attempt limit is held,
   * a sent item never changes again.
   */
  lemma SentStaysSent(max: nat, base: Time, actions: seq<MailAction>, n: nat, i: nat)
    requires CarefulStarts(max, base, NO_MAIL, actions) && n <= |actions|
    requires var m := MailAfter(max, base, actions[..n]); i < |m.items| && m.items[i].status == Sent
    ensures var later := MailAfter(max, base, actions).items;
      i < |later| && later[i] == MailAfter(max, base, actions[..n]).items[i]
  {
    hide MailFrom, Quiescent;
    var first, rest := actions[..n], actions[n..];
    assert actions == first + rest;
    MailInTwo(max, base, NO_MAIL, first, rest);
    var m := MailAfter(max, base, first);
    assert CarefulStarts(max, base, NO_MAIL, first) by {
      forall j | 0 <= j < |first| && first[j].Start? ensures Quiescent(max, MailFrom(max, base, NO_MAIL, first[..j])) {
        assert first[j] == actions[j] && first[..j] == actions[..j];
      }
    }
    StaysExclusive(max, base, NO_MAIL, first);
    forall j | 0 <= j < |rest| && rest[j].Start? ensures Quiescent(max, MailFrom(max, base, m, rest[..j])) {
      assert rest[j] == actions[n + j] && actions[..n + j] == first + rest[..j];
      MailInTwo(max, base, NO_MAIL, first, rest[..j]);
    }
    SentKept(max, base, m, rest, i);
  }

  // ----- And when it is not

  function SendableCount(items: seq<Item>, max: nat, now: Time): nat {
    |set i: nat | i < |items| && Sendable(items[i], max, now)|
  }

  /** If anything is sendable, something is next. */
  lemma {:induction false} SomethingIsNext(items: seq<Item>, max: nat, now: Time, i: nat) returns (pick: nat)
    requires i < |items| && Sendable(items[i], max, now)
    ensures IsNextItem(items, max, now, pick)
  {
    hide Sendable;
    var front, n := items[..|items| - 1], |items| - 1;
    if exists j :: 0 <= j < n && Sendable(items[j], max, now) {
      var j :| 0 <= j < n && Sendable(items[j], max, now);
      assert front[j] == items[j];
      pick := SomethingIsNext(front, max, now, j);
      assert forall k :: 0 <= k < n ==> front[k] == items[k];
      if Sendable(items[n], max, now) && items[n].createdAt < items[pick].createdAt { pick := n; }
    } else {
      pick := n;
    }
  }

  lemma TakingLeavesFewer(items: seq<Item>, max: nat, now: Time, pick: nat)
    requires pick < |items| && Sendable(items[pick], max, now)
    ensures SendableCount(items[pick := Attempted(items[pick])], max, now) < SendableCount(items, max, now)
  {
    var before := set i: nat | i < |items| && Sendable(items[i], max, now);
    var items' := items[pick := Attempted(items[pick])];
    var after := set i: nat | i < |items'| && Sendable(items'[i], max, now);
    assert after == before - {pick};
  }

  /** Workers claiming one item after the other get to any sendable item. */
  lemma {:induction false} TakenInTheEnd(max: nat, base: Time, m: Mail, i: nat, now: Time)
    returns (takes: seq<MailAction>)
    requires DistinctItems(m.items) && i < |m.items| && Sendable(m.items[i], max, now)
    ensures var m', x := MailFrom(max, base, m, takes), Attempted(m.items[i]);
      && m.held <= m'.held && Claim(x.key, x.attempts) in m'.held && DistinctItems(m'.items)
      && |m'.items| == |m.items| && m'.items[i] == x
    decreases SendableCount(m.items, max, now)
  {
    var pick := SomethingIsNext(m.items, max, now, i);
    var a := Take(pick, now);
    var m1 := MailStep(max, base, m, a);
    MailStepOnItems(max, base, m, a);
    TakingLeavesFewer(m.items, max, now, pick);
    hide IsNextItem, Sendable, DistinctItems;
    MailOneMore(max, base, m, [], a);
    assert [] + [a] == [a] && MailFrom(max, base, m, []) == m;
    if pick == i {
      takes := [a];
    } else {
      var rest := TakenInTheEnd(max, base, m1, i, now);
      takes := [a] + rest;
      MailInTwo(max, base, m, [a], rest);
    }
  }

  /** What follows once a second worker holds the item too: it sends and records, the first one fails. */
  lemma SecondThenFirst(max: nat, base: Time, m: Mail, first: Claim, second: Claim, i: nat, now: Time)
    requires DistinctItems(m.items) && i < |m.items| && m.items[i].key == first.key == second.key
    requires first in m.held && second in m.held && first != second
    ensures var sent := MailFrom(max, base, m, [Send(second), RecordSent(second)]);
      && |sent.items| == |m.items| && sent.items[i].status == Sent
      && MailStep(max, base, sent, RecordFailed(first, now)).items[i].status == Unsent
  {
    var m1 := MailStep(max, base, m, Send(second));
    MailOneMore(max, base, m, [], Send(second));
    assert [] + [Send(second)] == [Send(second)] && MailFrom(max, base, m, []) == m;
    MailOneMore(max, base, m, [Send(second)], RecordSent(second));
    assert [Send(second)] + [RecordSent(second)] == [Send(second), RecordSent(second)];
    var sent := MailStep(max, base, m1, RecordSent(second));
    assert m1.items == m.items && second !in m1.ready && first in sent.held;
    OnlyItem(m.items, i);
    RewriteAt(m.items, first.key, x => Delivered(x));
    OnlyItem(sent.items, i);
  }

  /** A recovery makes the item of a live claim below the limit available again. */
  lemma StartOffersItAgain(max: nat, base: Time, m: Mail, c: Claim, now: Time) returns (i: nat, at: Time)
    requires Exclusive(max, m) && c in m.held && c.number < max
    ensures var started := MailStep(max, base, m, Start);
      && i == IndexOfItem(m.items, c.key)
      && started.held == m.held && DistinctItems(started.items) && i < |started.items|
      && started.items[i].key == c.key && started.items[i].attempts == c.number
      && Sendable(started.items[i], max, at)
  {
    assert Owns(max, m.items, c);
    i := IndexOfItem(m.items, c.key);
    MailStepOnItems(max, base, m, Start);
    var x := m.items[i];
    at := if x.nextAttempt.Some? then x.nextAttempt.value else now;
  }

  lemma ReopenedFrom(max: nat, base: Time, m: Mail, c: Claim, i: nat, at: Time, now: Time)
      returns (more: seq<MailAction>)
    requires DistinctItems(m.items) && c in m.held && i < |m.items| && Sendable(m.items[i], max, at)
    requires m.items[i].key == c.key && m.items[i].attempts == c.number
    ensures var sent := MailFrom(max, base, m, more);
      && i < |sent.items| && sent.items[i].status == Sent
      && MailStep(max, base, sent, RecordFailed(c, now)).items[i].status == Unsent
  {
    hide MailFrom, MailStep, DistinctItems, Sendable, Rewrite;
    var takes := TakenInTheEnd(max, base, m, i, at);
    var second := Claim(c.key, c.number + 1);
    SecondThenFirst(max, base, MailFrom(max, base, m, takes), c, second, i, now);
    more := takes + [Send(second), RecordSent(second)];
    MailInTwo(max, base, m, takes, [Send(second), RecordSent(second)]);
  }

  /**
   * The condition is needed: after any careful history, if a worker starts while a claim below the limit
   * is held, the workers can go on so that a sent item is opened again.
   */
  lemma CarelessStartReopens(max: nat, base: Time, actions: seq<MailAction>, c: Claim, now: Time)
    returns (more: seq<MailAction>, i: nat)
    requires CarefulStarts(max, base, NO_MAIL, actions)
    requires c in MailAfter(max, base, actions).held && c.number < max
    ensures i == IndexOfItem(MailAfter(max, base, actions).items, c.key)
    ensures var sent := MailAfter(max, base, actions + [Start] + more);
      && i < |sent.items| && sent.items[i].status == Sent
      && MailStep(max, base, sent, RecordFailed(c, now)).items[i].status == Unsent
  {
    hide MailFrom, MailStep, Exclusive, CarefulStarts, DistinctItems, Sendable;
    assert Exclusive(max, NO_MAIL) by { NoMailIsExclusive(max); }
    StaysExclusive(max, base, NO_MAIL, actions);
    var m := MailAfter(max, base, actions);
    var started := MailStep(max, base, m, Start);
    MailOneMore(max, base, NO_MAIL, actions, Start);
    var at: Time;
    i, at := StartOffersItAgain(max, base, m, c, now);
    more := ReopenedFrom(max, base, started, c, i, at, now);
    MailInTwo(max, base, NO_MAIL, actions + [Start], more);
  }

  /** For instance right after a first claim of any item, when the limit allows a second one. */
  lemma SentCanReopen(max: nat, base: Time, key: string, now: Time) returns (more: seq<MailAction>)
    requires max >= 2
    ensures var sent := MailAfter(max, base, [Put(key, now), Take(0, now), Start] + more);
      && |sent.items| > 0 && sent.items[0].status == Sent
      && MailStep(max, base, sent, RecordFailed(Claim(key, 1), now)).items[0].status == Unsent
  {
    var first, x := [Put(key, now)], NewItem(key, now);
    var both := [Put(key, now), Take(0, now)];
    MailOneMore(max, base, NO_MAIL, [], Put(key, now));
    assert [] + [Put(key, now)] == first && first + [Take(0, now)] == both;
    MailOneMore(max, base, NO_MAIL, first, Take(0, now));
    assert MailAfter(max, base, first).items == [x];
    assert IsNextItem([x], max, now, 0);
    var m := MailAfter(max, base, both);
    assert Claim(key, 1) in m.held && m.items == [Attempted(x)];
    OnlyItem(m.items, 0);
    hide MailFrom, MailStep;
    var i: nat;
    more, i := CarelessStartReopens(max, base, both, Claim(key, 1), now);
    assert both + [Start] + more == [Put(key, now), Take(0, now), Start] + more;
  }

  lemma NoMailIsExclusive(max: nat)
    ensures Exclusive(max, NO_MAIL)
  {
  }
}
