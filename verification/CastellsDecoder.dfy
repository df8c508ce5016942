/** The Castells page decoder: a bounded search for one lot list in any JSON answer. */
module CastellsDecoder {
  import opened Wrappers
  import opened Ordering
  import opened Validation
  import opened Cleaning

  /** Parsed JSON; an object lists its entries in document order. */
  datatype Json =
    | JNull | JBool(b: bool) | JInt(i: int) | JFloat(r: real) | JString(s: string)
    | JList(items: seq<Json>) | JObject(entries: seq<Entry>)
  datatype Entry = Entry(key: string, value: Json)

  datatype Candidate = Candidate(path: seq<string>, rows: seq<Json>, next: Json, oversized: bool)

  /** Text operations the decoder takes from its libraries. */
  datatype Text = Text(
    unicode: Unicode,
    plain: Json -> string,                              // text without tags and entities
    fold: string -> string,                             // case folding
    safeKey: string -> string,                          // a key fit for a diagnostic
    parse: string -> Option<Json>,                      // JSON text
    fingerprint: (Json, seq<Candidate>) -> string)      // the shape summary of a payload

  const LOT_PAGE_SIZE := 500
  const MAX_ADAPTIVE_DEPTH := 5
  const MAX_ADAPTIVE_NODES := 80
  const MAX_ADAPTIVE_KEYS := 24
  const MAX_ADAPTIVE_ROWS := 50

  const LOT_ID_KEYS := ["LoteId", "Loteid", "Id", "id"]
  const LOT_TITLE_KEYS :=
    ["LoteDescripcion", "Descripcion", "LoteTitulo", "Titulo", "Nombre", "description", "title", "name"]
  const SEMANTIC_LOT_LIST_KEYS := {"data", "rows", "items", "lotes", "lots", "records", "entries"}
  const NEXT_KEYS := ["next", "Next", "nextPage"]
  const LIST_KEYS := ["data", "Data", "rows", "Rows"]
  const NESTED_KEYS := ["result", "Result", "payload"]

  function First<T>(s: seq<T>, n: nat): (r: seq<T>)
    ensures r <= s && |r| <= n
    ensures |s| <= n ==> r == s
    ensures |s| > n ==> |r| == n
  {
    if |s| <= n then s else s[..n]
  }

  /** Python truth of a JSON value. */
  predicate Truthy(j: Json) {
    match j
    case JNull => false
    case JBool(b) => b
    case JInt(i) => i != 0
    case JFloat(r) => r != 0.0
    case JString(s) => s != ""
    case JList(items) => items != []
    case JObject(entries) => entries != []
  }

  function Get(entries: seq<Entry>, key: string): (value: Option<Json>)
    ensures value.Some? ==> Entry(key, value.value) in entries
  {
    if entries == [] then None
    else if entries[0].key == key then Some(entries[0].value)
    else Get(entries[1..], key)
  }

  function GetOrNull(entries: seq<Entry>, key: string): Json {
    match Get(entries, key) case Some(j) => j case None => JNull
  }

  /** The value of the first name that has a true one. */
  function FirstTruthy(entries: seq<Entry>, names: seq<string>): Option<Json> {
    if names == [] then None
    else if Truthy(GetOrNull(entries, names[0])) then Get(entries, names[0])
    else FirstTruthy(entries, names[1..])
  }

  function NextValue(entries: seq<Entry>): Json {
    match FirstTruthy(entries, NEXT_KEYS) case Some(j) => j case None => JNull
  }

  function CleanText(t: Text, j: Json): string { Collapse(t.unicode, t.plain(j)) }

  /** The last of the first entries whose folded key is this one. */
  function FoldedGet(t: Text, entries: seq<Entry>, key: string): Json {
    if entries == [] then JNull
    else if t.fold(entries[|entries| - 1].key) == key then entries[|entries| - 1].value
    else FoldedGet(t, entries[..|entries| - 1], key)
  }

  function FirstFolded(t: Text, entries: seq<Entry>, aliases: seq<string>): Json {
    if aliases == [] then JString("")
    else
      var value := FoldedGet(t, First(entries, MAX_ADAPTIVE_KEYS), t.fold(aliases[0]));
      if Truthy(value) then value else FirstFolded(t, entries, aliases[1..])
  }

  function AliasValue(t: Text, entries: seq<Entry>, aliases: seq<string>): Json {
    match FirstTruthy(entries, aliases) case Some(j) => j case None => FirstFolded(t, entries, aliases)
  }

  /** A field is read under the first of its names that holds a true value. */
  lemma FirstNameWins(t: Text, entries: seq<Entry>, aliases: seq<string>, k: nat)
    requires k < |aliases| && Truthy(GetOrNull(entries, aliases[k]))
    requires forall j :: 0 <= j < k ==> !Truthy(GetOrNull(entries, aliases[j]))
    ensures AliasValue(t, entries, aliases) == GetOrNull(entries, aliases[k])
  {
    NameWins(entries, aliases, k);
  }

  lemma {:induction false} NameWins(entries: seq<Entry>, aliases: seq<string>, k: nat)
    requires k < |aliases| && Truthy(GetOrNull(entries, aliases[k]))
    requires forall j :: 0 <= j < k ==> !Truthy(GetOrNull(entries, aliases[j]))
    ensures FirstTruthy(entries, aliases) == Some(GetOrNull(entries, aliases[k]))
  {
    if k > 0 {
      assert forall j :: 0 <= j < k - 1 ==> aliases[1..][j] == aliases[j + 1];
      NameWins(entries, aliases[1..], k - 1);
    }
  }

  lemma {:induction false} NoNameWins(entries: seq<Entry>, aliases: seq<string>)
    requires forall j :: 0 <= j < |aliases| ==> !Truthy(GetOrNull(entries, aliases[j]))
    ensures FirstTruthy(entries, aliases) == None
  {
    if aliases != [] {
      assert forall j :: 0 <= j < |aliases[1..]| ==> aliases[1..][j] == aliases[j + 1];
      NoNameWins(entries, aliases[1..]);
    }
  }

  /** The next page's link is the first true one of three. */
  lemma NextMeans(entries: seq<Entry>)
    ensures var of := (name: string) => GetOrNull(entries, name);
      NextValue(entries) ==
        if Truthy(of("next")) then of("next") else if Truthy(of("Next")) then of("Next")
        else if Truthy(of("nextPage")) then of("nextPage") else JNull
  {
    hide GetOrNull, Get, Truthy, FirstTruthy;
    var of := (name: string) => GetOrNull(entries, name);
    if Truthy(of("next")) { NameWins(entries, NEXT_KEYS, 0); }
    else if Truthy(of("Next")) { NameWins(entries, NEXT_KEYS, 1); }
    else if Truthy(of("nextPage")) { NameWins(entries, NEXT_KEYS, 2); }
    else { NoNameWins(entries, NEXT_KEYS); }
  }

  lemma {:induction false} FoldedGetIsLast(t: Text, entries: seq<Entry>, key: string, n: nat)
    requires n < |entries| && t.fold(entries[n].key) == key
    requires forall m :: n < m < |entries| ==> t.fold(entries[m].key) != key
    ensures FoldedGet(t, entries, key) == entries[n].value
  {
    if n < |entries| - 1 { FoldedGetIsLast(t, entries[..|entries| - 1], key, n); }
  }

  lemma {:induction false} FoldedGetIsFalse(t: Text, entries: seq<Entry>, key: string)
    requires forall m :: 0 <= m < |entries| && t.fold(entries[m].key) == key ==> !Truthy(entries[m].value)
    ensures !Truthy(FoldedGet(t, entries, key))
  {
    if entries != [] && t.fold(entries[|entries| - 1].key) != key {
      FoldedGetIsFalse(t, entries[..|entries| - 1], key);
    }
  }

  /** When no name fits as it is, the first 24 keys are compared with the names after folding; of keys that fold
      alike the last one counts. */
  lemma {:induction false} FoldedNameWins(t: Text, entries: seq<Entry>, aliases: seq<string>, k: nat, n: nat)
    requires k < |aliases| && n < |entries| && n < 24 && Truthy(entries[n].value)
    requires t.fold(entries[n].key) == t.fold(aliases[k])
    requires forall m :: n < m < |entries| && m < 24 ==> t.fold(entries[m].key) != t.fold(aliases[k])
    requires forall j, m ::
      (0 <= j < k && 0 <= m < |entries| && m < 24 && t.fold(entries[m].key) == t.fold(aliases[j])) ==>
      !Truthy(entries[m].value)
    ensures FirstFolded(t, entries, aliases) == entries[n].value
  {
    var seen := First(entries, 24);
    if k == 0 {
      FoldedGetIsLast(t, seen, t.fold(aliases[0]), n);
    } else {
      FoldedGetIsFalse(t, seen, t.fold(aliases[0]));
      assert forall j :: 0 <= j < k ==> aliases[1..][j] == aliases[j + 1];
      FoldedNameWins(t, entries, aliases[1..], k - 1, n);
    }
  }

  function LotIdentity(t: Text, item: Json): string
    requires item.JObject?
  { CleanText(t, AliasValue(t, item.entries, LOT_ID_KEYS)) }

  function LotTitle(t: Text, item: Json): string
    requires item.JObject?
  { CleanText(t, AliasValue(t, item.entries, LOT_TITLE_KEYS)) }

  // ----- Searching a payload for lists

  function InsertEntry(e: Entry, s: seq<Entry>): (r: seq<Entry>)
    ensures |r| == |s| + 1 && forall x :: x in r <==> x == e || x in s
  {
    if s == [] || TextLeq(e.key, s[0].key) then [e] + s else [s[0]] + InsertEntry(e, s[1..])
  }

  /** Stable sort by key. */
  function SortByKey(s: seq<Entry>): (r: seq<Entry>)
    ensures |r| == |s| && forall x :: x in r <==> x in s
  {
    if s == [] then [] else InsertEntry(s[0], SortByKey(s[1..]))
  }

  lemma {:induction false} InsertedInOrder(e: Entry, s: seq<Entry>)
    requires forall i, j :: 0 <= i < j < |s| ==> TextLeq(s[i].key, s[j].key)
    ensures var r := InsertEntry(e, s);
      multiset(r) == multiset(s) + multiset{e} && forall i, j :: 0 <= i < j < |r| ==> TextLeq(r[i].key, r[j].key)
  {
    if s == [] {
    } else if TextLeq(e.key, s[0].key) {
      forall j | 0 <= j < |s| ensures TextLeq(e.key, s[j].key) {
        if j > 0 { TextTransitive(e.key, s[0].key, s[j].key); }
      }
    } else {
      TextTotal(e.key, s[0].key);
      InsertedInOrder(e, s[1..]);
      var r := InsertEntry(e, s[1..]);
      assert s == [s[0]] + s[1..];
      forall j | 0 <= j < |r| ensures TextLeq(s[0].key, r[j].key) {
        assert r[j] in r;
        if r[j] != e { var k :| 0 <= k < |s[1..]| && s[1..][k] == r[j]; assert s[k + 1] == r[j]; }
      }
    }
  }

  lemma {:induction false} SortedInOrder(s: seq<Entry>)
    ensures var r := SortByKey(s);
      multiset(r) == multiset(s) && forall i, j :: 0 <= i < j < |r| ==> TextLeq(r[i].key, r[j].key)
  {
    if s != [] {
      SortedInOrder(s[1..]);
      InsertedInOrder(s[0], SortByKey(s[1..]));
      assert s == [s[0]] + s[1..];
    }
  }

  /** Of an object the search looks at the first 24 entries, in the order of their keys. */
  lemma InspectedMeans(entries: seq<Entry>)
    ensures multiset(Inspected(entries)) == multiset(if |entries| > 24 then entries[..24] else entries)
    ensures forall i, j :: 0 <= i < j < |Inspected(entries)| ==>
      TextLeq(Inspected(entries)[i].key, Inspected(entries)[j].key)
  {
    SortedInOrder(First(entries, 24));
    if |entries| > 24 { assert First(entries, 24) == entries[..24]; }
  }

  /** The entries of an object the search looks at, in the order it does. */
  function Inspected(entries: seq<Entry>): (r: seq<Entry>)
    ensures |r| <= MAX_ADAPTIVE_KEYS && forall x :: x in r ==> x in entries
  {
    SortByKey(First(entries, MAX_ADAPTIVE_KEYS))
  }

  function CandidateFor(path: seq<string>, items: seq<Json>, next: Json): Candidate {
    Candidate(path, First(items, LOT_PAGE_SIZE + 1), next, |items| > LOT_PAGE_SIZE)
  }

  datatype Walk = Walk(visited: nat, candidates: seq<Candidate>)

  function Visit(t: Text, node: Json, path: seq<string>, depth: nat, w: Walk): Walk
    decreases MAX_ADAPTIVE_DEPTH + 1 - depth
  {
    if w.visited >= MAX_ADAPTIVE_NODES || depth > MAX_ADAPTIVE_DEPTH || !node.JObject? then w
    else VisitEntries(t, node, Inspected(node.entries), path, depth, Walk(w.visited + 1, w.candidates))
  }

  function VisitEntries(t: Text, node: Json, entries: seq<Entry>, path: seq<string>, depth: nat, w: Walk): Walk
    requires node.JObject? && depth <= MAX_ADAPTIVE_DEPTH
    decreases MAX_ADAPTIVE_DEPTH + 1 - depth, |entries|
  {
    if entries == [] then w
    else VisitEntries(t, node, entries[1..], path, depth, VisitEntry(t, node, entries[0], path, depth, w))
  }

  function VisitEntry(t: Text, node: Json, e: Entry, path: seq<string>, depth: nat, w: Walk): Walk
    requires node.JObject? && depth <= MAX_ADAPTIVE_DEPTH
    decreases MAX_ADAPTIVE_DEPTH + 1 - depth, 0
  {
    var child := path + [t.safeKey(e.key)];
    if e.value.JList? then
      Walk(w.visited, w.candidates + [CandidateFor(child, e.value.items, NextValue(node.entries))])
    else if e.value.JObject? then Visit(t, e.value, child, depth + 1, w)
    else w
  }

  function Search(t: Text, payload: Json): Walk {
    if payload.JList? then Walk(0, [CandidateFor([], payload.items, JNull)])
    else Visit(t, payload, [], 0, Walk(0, []))
  }

  /** The search with its two mutable variables. */
  class ListSearch {
    const text: Text
    var visited: nat
    var candidates: seq<Candidate>

    constructor (text: Text)
      ensures this.text == text && State() == Walk(0, [])
    {
      this.text, visited, candidates := text, 0, [];
    }

    function State(): Walk
      reads this
    { Walk(visited, candidates) }

    method VisitNode(node: Json, path: seq<string>, depth: nat)
      modifies this
      ensures State() == Visit(text, node, path, depth, old(State()))
      decreases MAX_ADAPTIVE_DEPTH + 1 - depth
    {
      if visited >= MAX_ADAPTIVE_NODES || depth > MAX_ADAPTIVE_DEPTH || !node.JObject? { return; }
      visited := visited + 1;
      ghost var start := State();
      var entries := Inspected(node.entries);
      for i := 0 to |entries|
        invariant VisitEntries(text, node, entries[i..], path, depth, State())
               == VisitEntries(text, node, entries, path, depth, start)
      {
        var e := entries[i];
        assert entries[i..][1..] == entries[i + 1..];
        ghost var before := State();
        if e.value.JList? {
          candidates := candidates
            + [CandidateFor(path + [text.safeKey(e.key)], e.value.items, NextValue(node.entries))];
        } else if e.value.JObject? {
          VisitNode(e.value, path + [text.safeKey(e.key)], depth + 1);
        }
        assert State() == VisitEntry(text, node, e, path, depth, before);
      }
    }
  }

  method ListCandidates(t: Text, payload: Json) returns (candidates: seq<Candidate>)
    ensures candidates == Search(t, payload).candidates
  {
    if payload.JList? { return [CandidateFor([], payload.items, JNull)]; }
    var search := new ListSearch(t);
    search.VisitNode(payload, [], 0);
    candidates := search.candidates;
  }

  // ----- What the search finds

  /** Some list sits at this path, inspecting at most the first entries of each object on the way. */
  predicate Holds(t: Text, node: Json, path: seq<string>, items: seq<Json>, next: Json)
    decreases |path|
  {
    && path != [] && node.JObject?
    && exists e :: e in Inspected(node.entries) && EntryHolds(t, node, e, path, items, next)
  }

  predicate EntryHolds(t: Text, node: Json, e: Entry, path: seq<string>, items: seq<Json>, next: Json)
    requires path != [] && node.JObject?
    decreases |path|, 0
  {
    && path[0] == t.safeKey(e.key)
    && if |path| == 1 then e.value == JList(items) && next == NextValue(node.entries)
       else Holds(t, e.value, path[1..], items, next)
  }

  /** What a visit adds below `path`: lists that are there. */
  ghost predicate AddsOnlyLists(t: Text, node: Json, path: seq<string>, room: nat, before: Walk, after: Walk) {
    && before.visited <= after.visited
    && (before.visited <= MAX_ADAPTIVE_NODES ==> after.visited <= MAX_ADAPTIVE_NODES)
    && before.candidates <= after.candidates
    && forall c :: c in after.candidates[|before.candidates|..] ==>
         exists below, items :: 1 <= |below| <= room && Holds(t, node, below, items, c.next)
           && c == CandidateFor(path + below, items, c.next)
  }

  lemma {:induction false} VisitIsSound(t: Text, node: Json, path: seq<string>, depth: nat, w: Walk)
    ensures depth <= MAX_ADAPTIVE_DEPTH + 1 ==>
      AddsOnlyLists(t, node, path, MAX_ADAPTIVE_DEPTH + 1 - depth, w, Visit(t, node, path, depth, w))
    decreases MAX_ADAPTIVE_DEPTH + 1 - depth
  {
    if w.visited >= MAX_ADAPTIVE_NODES || depth > MAX_ADAPTIVE_DEPTH || !node.JObject? { return; }
    EntriesAreSound(t, node, Inspected(node.entries), path, depth, Walk(w.visited + 1, w.candidates));
  }

  lemma {:induction false} EntriesAreSound(
    t: Text, node: Json, entries: seq<Entry>, path: seq<string>, depth: nat, w: Walk)
    requires node.JObject? && depth <= MAX_ADAPTIVE_DEPTH
    requires forall e :: e in entries ==> e in Inspected(node.entries)
    ensures AddsOnlyLists(t, node, path, MAX_ADAPTIVE_DEPTH + 1 - depth, w,
                          VisitEntries(t, node, entries, path, depth, w))
    decreases MAX_ADAPTIVE_DEPTH + 1 - depth, |entries|
  {
    if entries != [] {
      var mid := VisitEntry(t, node, entries[0], path, depth, w);
      var last := VisitEntries(t, node, entries[1..], path, depth, mid);
      EntryIsSound(t, node, entries[0], path, depth, w);
      EntriesAreSound(t, node, entries[1..], path, depth, mid);
      AddingTwice(t, node, path, MAX_ADAPTIVE_DEPTH + 1 - depth, w, mid, last);
    }
  }

  lemma AddingTwice(t: Text, node: Json, path: seq<string>, room: nat, a: Walk, b: Walk, c: Walk)
    requires AddsOnlyLists(t, node, path, room, a, b) && AddsOnlyLists(t, node, path, room, b, c)
    ensures AddsOnlyLists(t, node, path, room, a, c)
  {
    hide Holds, CandidateFor;
    assert c.candidates[|a.candidates|..] == b.candidates[|a.candidates|..] + c.candidates[|b.candidates|..];
  }

  lemma {:induction false} EntryIsSound(t: Text, node: Json, e: Entry, path: seq<string>, depth: nat, w: Walk)
    requires node.JObject? && depth <= MAX_ADAPTIVE_DEPTH && e in Inspected(node.entries)
    ensures AddsOnlyLists(t, node, path, MAX_ADAPTIVE_DEPTH + 1 - depth, w, VisitEntry(t, node, e, path, depth, w))
    decreases MAX_ADAPTIVE_DEPTH + 1 - depth, 0
  {
    hide Inspected, NextValue;
    var key := t.safeKey(e.key);
    if e.value.JList? {
      var c := CandidateFor(path + [key], e.value.items, NextValue(node.entries));
      assert EntryHolds(t, node, e, [key], e.value.items, c.next);
      assert (w.candidates + [c])[|w.candidates|..] == [c];
    } else if e.value.JObject? {
      VisitIsSound(t, e.value, path + [key], depth + 1, w);
      hide Visit;
      Deepen(t, node, e, path, MAX_ADAPTIVE_DEPTH - depth, w, Visit(t, e.value, path + [key], depth + 1, w));
    }
  }

  lemma Deepen(t: Text, node: Json, e: Entry, path: seq<string>, room: nat, before: Walk, after: Walk)
    requires node.JObject? && e in Inspected(node.entries) && e.value.JObject?
    requires AddsOnlyLists(t, e.value, path + [t.safeKey(e.key)], room, before, after)
    ensures AddsOnlyLists(t, node, path, room + 1, before, after)
  {
    hide CandidateFor, Inspected, NextValue;
    var key := t.safeKey(e.key);
    forall c | c in after.candidates[|before.candidates|..]
      ensures exists below, items :: 1 <= |below| <= room + 1
                && Holds(t, node, below, items, c.next) && c == CandidateFor(path + below, items, c.next)
    {
      var below, items :| 1 <= |below| <= room
        && Holds(t, e.value, below, items, c.next) && c == CandidateFor(path + [key] + below, items, c.next);
      var longer := [key] + below;
      assert longer[1..] == below && path + longer == path + [key] + below;
      assert EntryHolds(t, node, e, longer, items, c.next);
    }
  }

  /** A visit that ends within its budget has recorded every list it can reach. */
  lemma {:induction false} VisitIsComplete(
    t: Text, node: Json, path: seq<string>, depth: nat, w: Walk, below: seq<string>, items: seq<Json>, next: Json)
    requires Holds(t, node, below, items, next) && depth + |below| <= MAX_ADAPTIVE_DEPTH + 1
    requires Visit(t, node, path, depth, w).visited < MAX_ADAPTIVE_NODES
    ensures CandidateFor(path + below, items, next) in Visit(t, node, path, depth, w).candidates
    decreases MAX_ADAPTIVE_DEPTH + 1 - depth
  {
    hide CandidateFor, NextValue;
    var e :| e in Inspected(node.entries) && EntryHolds(t, node, e, below, items, next);
    VisitIsSound(t, node, path, depth, w);
    EntriesAreComplete(t, node, Inspected(node.entries), path, depth, Walk(w.visited + 1, w.candidates),
                       e, below, items, next);
  }

  lemma {:induction false} EntriesAreComplete(
    t: Text, node: Json, entries: seq<Entry>, path: seq<string>, depth: nat, w: Walk,
    e: Entry, below: seq<string>, items: seq<Json>, next: Json)
    requires node.JObject? && depth <= MAX_ADAPTIVE_DEPTH
    requires forall x :: x in entries ==> x in Inspected(node.entries)
    requires e in entries && below != [] && EntryHolds(t, node, e, below, items, next)
    requires depth + |below| <= MAX_ADAPTIVE_DEPTH + 1
    requires VisitEntries(t, node, entries, path, depth, w).visited < MAX_ADAPTIVE_NODES
    ensures CandidateFor(path + below, items, next) in VisitEntries(t, node, entries, path, depth, w).candidates
    decreases MAX_ADAPTIVE_DEPTH + 1 - depth, |entries|
  {
    hide CandidateFor, NextValue, Inspected;
    var mid := VisitEntry(t, node, entries[0], path, depth, w);
    EntriesAreSound(t, node, entries[1..], path, depth, mid);
    if entries[0] == e {
      var key := t.safeKey(e.key);
      assert below == [key] + below[1..];
      assert path + below == path + [key] + below[1..];
      if |below| == 1 {
        assert below == [key];
        assert CandidateFor(path + below, items, next) in mid.candidates;
      } else {
        assert e.value.JObject?;
        VisitIsComplete(t, e.value, path + [key], depth + 1, w, below[1..], items, next);
      }
    } else {
      EntriesAreComplete(t, node, entries[1..], path, depth, mid, e, below, items, next);
    }
  }

  /**
   * On any payload the search inspects at most 80 objects; its candidates are lists of the payload
   * no deeper than six keys, and all of them when it stayed below its budget.
   */
  lemma SearchIsBoundedAndExact(t: Text, payload: Json, path: seq<string>, items: seq<Json>, next: Json)
    ensures Search(t, payload).visited <= 80
    ensures forall c :: c in Search(t, payload).candidates ==> |c.path| <= 6
    ensures payload.JObject? && Search(t, payload).visited < 80
      && Holds(t, payload, path, items, next) && |path| <= 6
      ==> CandidateFor(path, items, next) in Search(t, payload).candidates
  {
    if !payload.JList? {
      VisitIsSound(t, payload, [], 0, Walk(0, []));
      var all := Search(t, payload).candidates;
      assert all[0..] == all;
      forall c | c in all ensures |c.path| <= MAX_ADAPTIVE_DEPTH + 1 {
        var below, items' :| 1 <= |below| <= MAX_ADAPTIVE_DEPTH + 1 && Holds(t, payload, below, items', c.next)
          && c == CandidateFor([] + below, items', c.next);
      }
      if payload.JObject? && Search(t, payload).visited < MAX_ADAPTIVE_NODES
         && Holds(t, payload, path, items, next) && |path| <= MAX_ADAPTIVE_DEPTH + 1 {
        VisitIsComplete(t, payload, [], 0, Walk(0, []), path, items, next);
        assert [] + path == path;
      }
    }
  }

  /** Every candidate stands for one list of the payload, cut off after 501 elements. */
  lemma CandidateIsAList(t: Text, payload: Json, c: Candidate) returns (items: seq<Json>)
    requires c in Search(t, payload).candidates
    ensures payload == JList(items) || (c.path != [] && Holds(t, payload, c.path, items, c.next))
    ensures c == CandidateFor(c.path, items, c.next)
    ensures c.rows <= items && (c.oversized <==> |items| > 500) && |c.rows| == if |items| > 500 then 501 else |items|
  {
    if payload.JList? {
      items := payload.items;
      assert c == CandidateFor([], payload.items, JNull);
    } else {
      VisitIsSound(t, payload, [], 0, Walk(0, []));
      var all := Search(t, payload).candidates;
      assert all[0..] == all;
      var below, items' :| 1 <= |below| <= MAX_ADAPTIVE_DEPTH + 1 && Holds(t, payload, below, items', c.next)
        && c == CandidateFor([] + below, items', c.next);
      assert [] + below == below;
      items := items';
    }
  }
}
