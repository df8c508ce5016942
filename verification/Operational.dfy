/** Inventory tables and the operations that reconcile them, one transaction each. */
module Operational {
  import opened Wrappers
  import opened Sequences
  import opened Domain
  import opened SourceContract
  import opened Lifecycle

  datatype ReceiptKey = ReceiptKey(run: RunId, source: string, group: string)
  datatype SourceRunKey = SourceRunKey(run: RunId, source: string)
  datatype SourceStatus = Succeeded | Degraded | Broken
  datatype SourceRun = SourceRun(status: SourceStatus, authoritative: bool)

  datatype Tables = Tables(
    lots: map<LotKey, Lot>, rows: map<LotKey, Row>,
    receipts: map<ReceiptKey, Receipt>, sourceRuns: map<SourceRunKey, SourceRun>)
  {
    /** Every lifecycle belongs to a stored lot, and each row is coherent. */
    ghost predicate Consistent() {
      && rows.Keys <= lots.Keys
      && forall k :: k in rows ==> Coherent(Some(rows[k]))
    }

    /** The active inventory: lots joined with their active lifecycles. */
    function ActiveKeys(source: string): set<LotKey> {
      set k | k in rows && k in lots && k.source == source && rows[k].active
    }

    function StaleKeys(sources: set<string>, cutoff: Time): set<LotKey> {
      set k | k in rows && k.source in sources && rows[k].active && rows[k].lastSeen < cutoff
    }

    function StoredInGroup(source: string, group: string): set<LotKey> {
      set k | k in lots && k.source == source && k.auction == group
    }

    function ReceiptGroups(run: RunId, source: string): set<string> {
      set x | x in receipts && x.run == run && x.source == source :: x.group
    }

    function OmittedKeys(run: RunId, source: string): set<LotKey> {
      set k | k in lots && k.source == source && k.auction !in ReceiptGroups(run, source)
    }
  }

  function TouchAll(rows: map<LotKey, Row>, keys: set<LotKey>, run: RunId, at: Time): map<LotKey, Row> {
    map k | k in rows.Keys + keys ::
      if k in keys then Touch(Lookup(rows, k), run, at) else rows[k]
  }

  function RemoveAll(rows: map<LotKey, Row>, keys: set<LotKey>, run: RunId, at: Time): map<LotKey, Row> {
    map k | k in rows :: if k in keys then Remove(rows[k], run, at) else rows[k]
  }

  function WriteAll(lots: map<LotKey, Lot>, batch: seq<Lot>): (r: map<LotKey, Lot>)
    ensures r.Keys == lots.Keys + SetOf(LotKeys(batch))
  {
    if batch == [] then lots
    else
      var last := batch[|batch| - 1];
      assert batch == batch[..|batch| - 1] + [last];
      assert LotKeys(batch) == LotKeys(batch[..|batch| - 1]) + [last.key];
      WriteAll(lots, batch[..|batch| - 1])[last.key := last]
  }

  lemma BatchGrows(lots: map<LotKey, Lot>, rows: map<LotKey, Row>, batch: seq<Lot>, i: nat, run: RunId, at: Time)
    requires i < |batch|
    ensures WriteAll(lots, batch[..i + 1]) == WriteAll(lots, batch[..i])[batch[i].key := batch[i]]
    ensures TouchAll(rows, SetOf(LotKeys(batch[..i + 1])), run, at)
         == var touched := TouchAll(rows, SetOf(LotKeys(batch[..i])), run, at);
            touched[batch[i].key := Touch(Lookup(rows, batch[i].key), run, at)]
  {
    hide TouchAll, Touch;
    assert batch[..i + 1][..i] == batch[..i];
    assert LotKeys(batch[..i + 1]) == LotKeys(batch[..i]) + [batch[i].key];
    assert SetOf(LotKeys(batch[..i + 1])) == SetOf(LotKeys(batch[..i])) + {batch[i].key};
    TouchGrows(rows, SetOf(LotKeys(batch[..i])), batch[i].key, run, at);
  }

  lemma TouchGrows(rows: map<LotKey, Row>, keys: set<LotKey>, key: LotKey, run: RunId, at: Time)
    ensures TouchAll(rows, keys + {key}, run, at)
         == TouchAll(rows, keys, run, at)[key := Touch(Lookup(rows, key), run, at)]
  {
    hide Touch;
  }

  predicate Proves(receipt: Receipt, batch: seq<Lot>) {
    receipt.status == Complete && receipt.authoritative && receipt.lotCount == |batch|
  }

  function Retired(t: Tables, sources: set<string>, run: RunId, cutoff: Time, at: Time): Tables {
    t.(rows := RemoveAll(t.rows, t.StaleKeys(sources, cutoff), run, at))
  }

  function Reconciled(t: Tables, run: RunId, source: string, group: string, batch: seq<Lot>, at: Time): Tables
    requires ReceiptKey(run, source, group) in t.receipts
  {
    var keys := SetOf(LotKeys(batch));
    var touched := TouchAll(t.rows, keys, run, at);
    t.(lots := WriteAll(t.lots, batch),
       rows := if Proves(t.receipts[ReceiptKey(run, source, group)], batch)
               then RemoveAll(touched, t.StoredInGroup(source, group) - keys, run, at)
               else touched)
  }

  /** Reconciling a group touches the rows of its reported lots, and removes those of its other stored lots on a
      complete authoritative receipt that counts the reported ones; no other row changes. */
  lemma ReconciledRow(t: Tables, run: RunId, source: string, group: string, batch: seq<Lot>, at: Time, k: LotKey)
    requires ReceiptKey(run, source, group) in t.receipts
    ensures var row, row' := Lookup(t.rows, k), Lookup(Reconciled(t, run, source, group, batch, at).rows, k);
      var receipt := t.receipts[ReceiptKey(run, source, group)];
      if exists l :: l in batch && l.key == k then row' == Some(Touch(row, run, at))
      else if row.Some? && k in t.lots && k.source == source && k.auction == group
              && receipt.status == Complete && receipt.authoritative && receipt.lotCount == |batch| then
        row' == Some(Remove(row.value, run, at))
      else row' == row
  {
    hide Touch, Remove, WriteAll;
    BatchHas(batch, k);
  }

  lemma BatchHas(batch: seq<Lot>, k: LotKey)
    ensures k in SetOf(LotKeys(batch)) <==> exists l :: l in batch && l.key == k
  {
    if k in LotKeys(batch) {
      var i :| 0 <= i < |batch| && LotKeys(batch)[i] == k;
      assert batch[i] in batch;
    }
    if l :| l in batch && l.key == k {
      var i :| 0 <= i < |batch| && batch[i] == l;
      assert LotKeys(batch)[i] == k;
    }
  }

  /** Omitted groups are closed only after a succeeded, authoritative source run, and only those without a receipt. */
  lemma OmittedRow(t: Tables, run: RunId, source: string, at: Time, k: LotKey)
    ensures var row, row' := Lookup(t.rows, k), Lookup(OmittedClosed(t, run, source, at).rows, k);
      if row.Some? && k in t.lots && k.source == source && SourceRunKey(run, source) in t.sourceRuns
         && t.sourceRuns[SourceRunKey(run, source)] == SourceRun(Succeeded, true)
         && (forall x :: x in t.receipts && x.run == run && x.source == source ==> x.group != k.auction) then
        row' == Some(Remove(row.value, run, at))
      else row' == row
  {
    hide Remove;
    assert k.auction in t.ReceiptGroups(run, source) <==>
      exists x :: x in t.receipts && x.run == run && x.source == source && x.group == k.auction;
  }

  predicate MayCloseOmitted(t: Tables, run: RunId, source: string) {
    var k := SourceRunKey(run, source);
    k in t.sourceRuns && t.sourceRuns[k].status == Succeeded && t.sourceRuns[k].authoritative
  }

  function OmittedClosed(t: Tables, run: RunId, source: string, at: Time): Tables {
    if MayCloseOmitted(t, run, source)
    then t.(rows := RemoveAll(t.rows, t.OmittedKeys(run, source), run, at))
    else t
  }

  datatype ReconcileError = ForeignIdentity | DuplicateIdentity | MissingReceipt

  /** The tables of the program's operational repository. */
  class OperationalRepository {
    var lots: map<LotKey, Lot>
    var rows: map<LotKey, Row>
    var receipts: map<ReceiptKey, Receipt>
    var sourceRuns: map<SourceRunKey, SourceRun>

    function Contents(): Tables
      reads this
    {
      Tables(lots, rows, receipts, sourceRuns)
    }

    constructor ()
      ensures Contents() == Tables(map[], map[], map[], map[])
    {
      lots, rows, receipts, sourceRuns := map[], map[], map[], map[];
    }

    method UpsertSourceRun(key: SourceRunKey, value: SourceRun)
      modifies this
      ensures Contents() == old(Contents()).(sourceRuns := old(sourceRuns)[key := value])
    {
      sourceRuns := sourceRuns[key := value];
    }

    method RecordReceipt(key: ReceiptKey, value: Receipt)
      modifies this
      ensures Contents() == old(Contents()).(receipts := old(receipts)[key := value])
    {
      receipts := receipts[key := value];
    }

    /** Remove the lifecycles of the given lots, skipping lots that have none. */
    method RemoveLifecycles(keys: set<LotKey>, run: RunId, at: Time)
      modifies this
      ensures Contents() == old(Contents()).(rows := RemoveAll(old(rows), keys, run, at))
    {
      var todo := keys;
      while todo != {}
        invariant todo <= keys
        invariant Contents() == old(Contents()).(rows := RemoveAll(old(rows), keys - todo, run, at))
        decreases todo
      {
        var k :| k in todo;
        todo := todo - {k};
        if k in rows {
          rows := rows[k := Remove(rows[k], run, at)];
        }
      }
      assert keys - todo == keys;
    }

    method RetireStaleLots(sources: set<string>, run: RunId, cutoff: Time, at: Time) returns (count: nat)
      modifies this
      ensures Contents() == Retired(old(Contents()), sources, run, cutoff, at)
      ensures count == |old(Contents()).StaleKeys(sources, cutoff)|
    {
      var stale := Contents().StaleKeys(sources, cutoff);
      RemoveLifecycles(stale, run, at);
      count := |stale|;
    }

    method TouchBatch(batch: seq<Lot>, run: RunId, at: Time)
      requires NoDuplicates(LotKeys(batch))
      modifies this
      ensures receipts == old(receipts) && sourceRuns == old(sourceRuns)
      ensures lots == WriteAll(old(lots), batch)
      ensures rows == TouchAll(old(rows), SetOf(LotKeys(batch)), run, at)
    {
      var stored := rows;
      for i := 0 to |batch|
        invariant receipts == old(receipts) && sourceRuns == old(sourceRuns)
        invariant lots == WriteAll(old(lots), batch[..i])
        invariant rows == TouchAll(stored, SetOf(LotKeys(batch[..i])), run, at)
      {
        var key := batch[i].key;
        BatchGrows(old(lots), stored, batch, i, run, at);
        lots := lots[key := batch[i]];
        rows := rows[key := Touch(Lookup(stored, key), run, at)];
      }
      assert batch[..|batch|] == batch;
    }

    /** Reconcile one group; only its persisted receipt can authorise removals. */
    method ReconcileGroup(run: RunId, source: string, group: string, batch: seq<Lot>, at: Time)
      returns (error: Option<ReconcileError>)
      modifies this
      ensures error.None? <==>
        && (forall l :: l in batch ==> l.key.source == source && l.key.auction == group)
        && NoDuplicates(LotKeys(batch))
        && ReceiptKey(run, source, group) in old(receipts)
      ensures error.None? ==> Contents() == Reconciled(old(Contents()), run, source, group, batch, at)
      ensures error.Some? ==> Contents() == old(Contents())
    {
      if exists l :: l in batch && (l.key.source != source || l.key.auction != group) {
        return Some(ForeignIdentity);
      }
      DistinctBySize(LotKeys(batch));
      if Repeats(LotKeys(batch)) { return Some(DuplicateIdentity); }
      var key := ReceiptKey(run, source, group);
      if key !in receipts { return Some(MissingReceipt); }
      var stored := Contents().StoredInGroup(source, group);
      TouchBatch(batch, run, at);
      if Proves(receipts[key], batch) {
        RemoveLifecycles(stored - SetOf(LotKeys(batch)), run, at);
      }
      return None;
    }

    method ReconcileOmittedGroups(run: RunId, source: string, at: Time)
      modifies this
      ensures Contents() == OmittedClosed(old(Contents()), run, source, at)
    {
      if MayCloseOmitted(Contents(), run, source) {
        RemoveLifecycles(Contents().OmittedKeys(run, source), run, at);
      }
    }
  }
}
