/** How a page of Castells lots is read, case by case and in counts, whatever the payload. */
module CastellsReading {
  import opened Wrappers
  import opened Sequences
  import opened Domain
  import opened Validation
  import opened CastellsDecoder
  import opened CastellsPages
  import P = CastellsPages

  // ----- How sure a candidate list is

  function Later(at: set<nat>): set<nat> { set i <- at :: i + 1 }

  lemma {:induction false} LaterSize(at: set<nat>)
    ensures |Later(at)| == |at|
  {
    if at != {} {
      var x :| x in at;
      LaterSize(at - {x});
      forall y ensures y in Later(at) <==> y in Later(at - {x}) || y == x + 1 {
        if y in Later(at) && y != x + 1 { assert (y - 1) in at - {x}; }
      }
      assert x + 1 !in Later(at - {x});
      assert Later(at) == Later(at - {x}) + {x + 1};
    }
  }

  lemma PositionsFirst<T>(p: T -> bool, s: seq<T>)
    requires s != []
    ensures |Positions(p, s)| == (if p(s[0]) then 1 else 0) + |Positions(p, s[1..])|
  {
    var rest := Later(Positions(p, s[1..]));
    LaterSize(Positions(p, s[1..]));
    forall i: nat ensures i in Positions(p, s) <==> (i == 0 && p(s[0])) || i in rest {
      if 0 < i < |s| { assert s[1..][i - 1] == s[i] && (i - 1 in Positions(p, s[1..]) <==> p(s[i])); }
    }
    assert Positions(p, s) == if p(s[0]) then {0} + rest else rest;
  }

  /** The objects of a list are its elements that are objects, in their order. */
  lemma {:induction false} ObjectsCount(s: seq<Json>)
    ensures |Objects(s)| == |Positions((x: Json) => x.JObject?, s)|
    ensures forall x :: x in Objects(s) <==> x in s && x.JObject?
  {
    if s != [] {
      ObjectsCount(s[1..]);
      PositionsFirst((x: Json) => x.JObject?, s);
    }
  }

  datatype Naming = Naming(identity: string, title: string)

  function Namings(t: Text, objects: seq<Json>): (r: seq<Naming>)
    requires forall x :: x in objects ==> x.JObject?
    ensures |r| == |objects|
    ensures forall i :: 0 <= i < |r| ==> r[i] == Naming(LotIdentity(t, objects[i]), LotTitle(t, objects[i]))
  {
    seq(|objects|, i requires 0 <= i < |objects| =>
      assert objects[i] in objects; Naming(LotIdentity(t, objects[i]), LotTitle(t, objects[i])))
  }

  const BOTH := (x: Naming) => x.identity != "" && x.title != ""
  const EITHER := (x: Naming) => x.identity != "" || x.title != ""

  lemma {:induction false} ShapedCount(names: seq<Naming>)
    ensures var ids, titles := Map((x: Naming) => x.identity, names), Map((x: Naming) => x.title, names);
      CountShaped(ids, titles) == |Positions(BOTH, names)|
  {
    if names != [] {
      ShapedCount(names[1..]);
      PositionsFirst(BOTH, names);
      assert Map((x: Naming) => x.identity, names)[1..] == Map((x: Naming) => x.identity, names[1..]);
      assert Map((x: Naming) => x.title, names)[1..] == Map((x: Naming) => x.title, names[1..]);
    }
  }

  lemma {:induction false} NamedDistinct(ids: seq<string>)
    ensures NoDuplicates(Filter((s: string) => s != "", ids)) <==>
      forall i, j :: 0 <= i < j < |ids| && ids[i] != "" ==> ids[i] != ids[j]
  {
    if ids != [] {
      var front, last := ids[..|ids| - 1], ids[|ids| - 1];
      var kept := Filter((s: string) => s != "", front);
      NamedDistinct(front);
      assert ids == front + [last];
      if last != "" {
        assert NoDuplicates(kept + [last]) <==> NoDuplicates(kept) && last !in kept by { OneMoreDistinct(kept, last); }
        assert last in kept <==> last in front;
      }
    }
  }

  lemma OneMoreDistinct(s: seq<string>, x: string)
    ensures NoDuplicates(s + [x]) <==> NoDuplicates(s) && x !in s
  {
    var longer := s + [x];
    if NoDuplicates(longer) {
      forall i | 0 <= i < |s| ensures s[i] != x { assert longer[i] != longer[|s|]; }
      forall i, j | 0 <= i < j < |s| ensures s[i] != s[j] { assert longer[i] != longer[j]; }
    }
  }

  function Sample(c: Candidate): seq<Json> { if |c.rows| > 50 then c.rows[..50] else c.rows }

  /**
   * A candidate is rated high exactly when it is a whole list in whose first 50 elements at least four fifths
   * are objects, at least four fifths of these have an identity and a title, and no two share an identity;
   * and at least medium when half are objects, and some object has an identity or a title.
   */
  lemma RatingMeans(t: Text, c: Candidate)
    ensures var s := Sample(c);
      var objects := |Positions((x: Json) => x.JObject?, s)|;
      var names := Namings(t, Objects(s));
      && |names| == objects
      && (ConfidenceOf(t, c) == High <==>
            && !c.oversized && s != [] && 5 * objects >= 4 * |s| && 5 * |Positions(BOTH, names)| >= 4 * objects
            && forall i, j :: 0 <= i < j < |names| && names[i].identity != "" ==>
                 names[i].identity != names[j].identity)
      && (ConfidenceOf(t, c) != Low <==>
            !c.oversized && s != [] && 2 * objects >= |s| && exists i :: 0 <= i < |names| && EITHER(names[i]))
  {
    hide LotIdentity, LotTitle, Objects, Identities, Titles, CountShaped, Filter, Positions, NoDuplicates, SetOf, First,
      Map;
    var s := Sample(c);
    var objects, names := Objects(s), Namings(t, Objects(s));
    assert s == First(c.rows, MAX_ADAPTIVE_ROWS) by {
      if |c.rows| > 50 { assert First(c.rows, 50) == c.rows[..50]; }
    }
    ObjectsCount(s);
    ShapedCount(names);
    var ids, titles := Identities(t, objects), Titles(t, objects);
    assert ids == Map((x: Naming) => x.identity, names);
    TitlesMeans(t, objects);
    assert titles == Map((x: Naming) => x.title, names);
    NamedDistinct(ids);
    DistinctBySize(Filter((x: string) => x != "", ids));
    SomeText(names, ids, titles);
  }

  lemma TitlesMeans(t: Text, objects: seq<Json>)
    requires forall x :: x in objects ==> x.JObject?
    ensures forall i :: 0 <= i < |objects| ==> objects[i].JObject? && Titles(t, objects)[i] == LotTitle(t, objects[i])
  {
    forall i | 0 <= i < |objects| ensures objects[i].JObject? { assert objects[i] in objects; }
  }

  lemma SomeText(names: seq<Naming>, ids: seq<string>, titles: seq<string>)
    requires |ids| == |titles| == |names|
    requires forall i :: 0 <= i < |names| ==> names[i] == Naming(ids[i], titles[i])
    ensures (exists i :: 0 <= i < |names| && EITHER(names[i])) <==>
            (exists s :: s in ids && s != "") || (exists s :: s in titles && s != "")
    ensures Positions(BOTH, names) != {} ==> exists i :: 0 <= i < |names| && EITHER(names[i])
  {
    if i :| 0 <= i < |names| && EITHER(names[i]) { assert ids[i] in ids && titles[i] in titles; }
    if s :| s in ids && s != "" {
      var i :| 0 <= i < |ids| && ids[i] == s;
      assert EITHER(names[i]);
    }
    if s :| s in titles && s != "" {
      var i :| 0 <= i < |titles| && titles[i] == s;
      assert EITHER(names[i]);
    }
    if i :| i in Positions(BOTH, names) { assert EITHER(names[i]); }
  }

  // ----- Errors

  /** An object reached from the payload through this many objects, each among the first 24 entries. */
  ghost predicate Under(payload: Json, node: Json, steps: nat) {
    if steps == 0 then payload == node
    else
      && payload.JObject?
      && exists e :: e in First(payload.entries, 24) && e.value.JObject? && Under(e.value, node, steps - 1)
  }

  ghost predicate ErrorWithin(t: Text, payload: Json, steps: nat) {
    exists k: nat, node :: k <= steps && ErrorUnder(t, payload, node, k)
  }

  ghost predicate ErrorUnder(t: Text, payload: Json, node: Json, k: nat) {
    Under(payload, node, k) && node.JObject? && exists e :: e in First(node.entries, 24) && ErrorEntry(t, e)
  }

  lemma {:induction false} ErrorDepth(t: Text, payload: Json, depth: nat)
    requires depth <= 3
    ensures P.ErrorPayload(t, payload, depth) <==> ErrorWithin(t, payload, 3 - depth)
    decreases 3 - depth
  {
    hide ErrorEntry;
    if P.ErrorPayload(t, payload, depth) {
      var e :| e in First(payload.entries, 24)
        && (ErrorEntry(t, e) || (e.value.JObject? && P.ErrorPayload(t, e.value, depth + 1)));
      if ErrorEntry(t, e) {
        assert ErrorUnder(t, payload, payload, 0);
      } else {
        ErrorDepth(t, e.value, depth + 1);
        var k: nat, node :| k <= 3 - (depth + 1) && ErrorUnder(t, e.value, node, k);
        assert Under(payload, node, k + 1);
        assert ErrorUnder(t, payload, node, k + 1);
      }
    }
    if ErrorWithin(t, payload, 3 - depth) {
      var k: nat, node :| k <= 3 - depth && ErrorUnder(t, payload, node, k);
      if k > 0 {
        var e :| e in First(payload.entries, 24) && e.value.JObject? && Under(e.value, node, k - 1);
        assert ErrorUnder(t, e.value, node, k - 1);
        ErrorDepth(t, e.value, depth + 1);
      }
    }
  }

  /** A payload is an error exactly when it, or an object at most three levels below it, has an error among its
      first 24 entries. */
  lemma ErrorMeans(t: Text, payload: Json)
    ensures P.ErrorPayload(t, payload, 0) <==> ErrorWithin(t, payload, 3)
  {
    ErrorDepth(t, payload, 0);
  }

  /** An entry is an error when it is one that is neither null, empty nor false, a failing status, or a status code
      from 400 on. */
  lemma ErrorEntryMeans(t: Text, e: Entry)
    ensures var key := t.fold(e.key);
      ErrorEntry(t, e) <==>
        || (key in {"error", "errors", "exception"} && e.value != JNull && e.value != JString("")
            && e.value != JBool(false))
        || (key in {"status", "result"} && e.value.JString? && t.fold(e.value.s) in {"error", "failed", "failure"})
        || (key in {"status", "statuscode"} && e.value.JInt? && e.value.i >= 400)
  {
  }

  // ----- Documented envelopes

  const IS_LIST := (j: Json) => j.JList?
  const IS_OBJECT := (j: Json) => j.JObject?

  /** Name number k is the first under which the object holds a fitting value. */
  predicate FirstFits(entries: seq<Entry>, names: seq<string>, fits: Json -> bool, k: nat) {
    && k < |names| && fits(GetOrNull(entries, names[k]))
    && forall j :: 0 <= j < k ==> !fits(GetOrNull(entries, names[j]))
  }

  lemma {:induction false} FirstListMeans(entries: seq<Entry>, names: seq<string>)
    ensures match FirstList(entries, names)
      case Some(list) => exists k: nat :: FirstFits(entries, names, IS_LIST, k) && list == GetOrNull(entries, names[k])
      case None => forall j :: 0 <= j < |names| ==> !GetOrNull(entries, names[j]).JList?
  {
    hide Get;
    if names != [] {
      if GetOrNull(entries, names[0]).JList? {
        assert FirstFits(entries, names, IS_LIST, 0);
      } else {
        FirstListMeans(entries, names[1..]);
        LaterFits(entries, names, IS_LIST);
      }
    }
  }

  lemma {:induction false} FirstObjectMeans(entries: seq<Entry>, names: seq<string>)
    ensures match FirstObject(entries, names)
      case Some(inner) =>
        exists k: nat :: FirstFits(entries, names, IS_OBJECT, k) && inner == GetOrNull(entries, names[k])
      case None => forall j :: 0 <= j < |names| ==> !GetOrNull(entries, names[j]).JObject?
  {
    hide Get;
    if names != [] {
      if GetOrNull(entries, names[0]).JObject? {
        assert FirstFits(entries, names, IS_OBJECT, 0);
      } else {
        FirstObjectMeans(entries, names[1..]);
        LaterFits(entries, names, IS_OBJECT);
      }
    }
  }

  lemma LaterFits(entries: seq<Entry>, names: seq<string>, fits: Json -> bool)
    requires names != [] && !fits(GetOrNull(entries, names[0]))
    ensures forall k: nat :: FirstFits(entries, names[1..], fits, k) ==>
      FirstFits(entries, names, fits, k + 1) && names[1..][k] == names[k + 1]
    ensures forall j :: 0 < j < |names| ==> names[1..][j - 1] == names[j]
  {
    hide GetOrNull;
    forall k: nat | FirstFits(entries, names[1..], fits, k) ensures FirstFits(entries, names, fits, k + 1) {
      forall j | 0 <= j < k + 1 ensures !fits(GetOrNull(entries, names[j])) {
        if j > 0 { assert names[1..][j - 1] == names[j]; }
      }
    }
  }

  lemma OneFits(entries: seq<Entry>, names: seq<string>, fits: Json -> bool, a: nat, b: nat)
    requires FirstFits(entries, names, fits, a) && FirstFits(entries, names, fits, b)
    ensures a == b
  {
  }

  /** The node holds the list itself, under one of the documented keys. */
  ghost predicate HoldsList(node: Json, known: Known) {
    && node.JObject?
    && (exists k: nat :: FirstFits(node.entries, ["data", "Data", "rows", "Rows"], IS_LIST, k)
          && GetOrNull(node.entries, ["data", "Data", "rows", "Rows"][k]) == JList(known.rows))
    && known.next == NextValue(node.entries)
  }

  /** The node holds no such list, but under one of the wrapping keys the next node. */
  ghost predicate Wraps(node: Json, inner: Json) {
    && node.JObject?
    && (forall k :: 0 <= k < 4 ==> !GetOrNull(node.entries, ["data", "Data", "rows", "Rows"][k]).JList?)
    && exists k: nat :: FirstFits(node.entries, ["result", "Result", "payload"], IS_OBJECT, k)
         && GetOrNull(node.entries, ["result", "Result", "payload"][k]) == inner
  }

  ghost predicate Envelope(nodes: seq<Json>, known: Known) {
    && nodes != [] && HoldsList(nodes[|nodes| - 1], known)
    && forall i :: 0 <= i < |nodes| - 1 ==> Wraps(nodes[i], nodes[i + 1])
  }

  lemma KnownHere(node: Json, levels: nat)
    requires levels > 0
    ensures forall known :: HoldsList(node, known) ==> KnownShape(node, levels) == Some(known)
    ensures node.JObject? && FirstList(node.entries, LIST_KEYS).Some? && KnownShape(node, levels).Some? ==>
      HoldsList(node, KnownShape(node, levels).value)
  {
    hide NextValue, GetOrNull, Get;
    if node.JObject? {
      FirstListMeans(node.entries, LIST_KEYS);
      forall known | HoldsList(node, known) ensures KnownShape(node, levels) == Some(known) {
        var k: nat :| FirstFits(node.entries, LIST_KEYS, IS_LIST, k)
          && GetOrNull(node.entries, LIST_KEYS[k]) == JList(known.rows);
        var list := FirstList(node.entries, LIST_KEYS);
        var m: nat :| FirstFits(node.entries, LIST_KEYS, IS_LIST, m)
          && list.value == GetOrNull(node.entries, LIST_KEYS[m]);
        OneFits(node.entries, LIST_KEYS, IS_LIST, k, m);
      }
    }
  }

  lemma KnownBelow(node: Json, inner: Json, levels: nat)
    requires levels > 0
    ensures Wraps(node, inner) ==> KnownShape(node, levels) == KnownShape(inner, levels - 1)
    ensures
      (node.JObject? && FirstList(node.entries, LIST_KEYS).None?
       && FirstObject(node.entries, NESTED_KEYS) == Some(inner)) ==> Wraps(node, inner)
  {
    hide NextValue, GetOrNull, Get;
    if node.JObject? {
      FirstListMeans(node.entries, LIST_KEYS);
      FirstObjectMeans(node.entries, NESTED_KEYS);
      if Wraps(node, inner) {
        var k: nat :| FirstFits(node.entries, NESTED_KEYS, IS_OBJECT, k)
          && GetOrNull(node.entries, NESTED_KEYS[k]) == inner;
        var found := FirstObject(node.entries, NESTED_KEYS);
        if found.Some? {
          var m: nat :| FirstFits(node.entries, NESTED_KEYS, IS_OBJECT, m)
            && found.value == GetOrNull(node.entries, NESTED_KEYS[m]);
          OneFits(node.entries, NESTED_KEYS, IS_OBJECT, k, m);
        }
      }
    }
  }

  lemma {:induction false} KnownIsEnveloped(payload: Json, levels: nat, known: Known)
    requires KnownShape(payload, levels) == Some(known)
    ensures exists nodes :: 1 <= |nodes| <= levels && nodes[0] == payload && Envelope(nodes, known)
    decreases levels
  {
    hide HoldsList, Wraps, FirstFits;
    KnownHere(payload, levels);
    if FirstList(payload.entries, LIST_KEYS).Some? {
      assert Envelope([payload], known);
    } else {
      var inner := FirstObject(payload.entries, NESTED_KEYS).value;
      KnownBelow(payload, inner, levels);
      KnownIsEnveloped(inner, levels - 1, known);
      var nodes :| 1 <= |nodes| <= levels - 1 && nodes[0] == inner && Envelope(nodes, known);
      WrapMore(payload, nodes, known);
    }
  }

  lemma {:induction false} EnvelopedIsKnown(nodes: seq<Json>, levels: nat, known: Known)
    requires 1 <= |nodes| <= levels && Envelope(nodes, known)
    ensures KnownShape(nodes[0], levels) == Some(known)
    decreases levels
  {
    hide HoldsList, Wraps, KnownShape;
    KnownHere(nodes[0], levels);
    if |nodes| > 1 {
      KnownBelow(nodes[0], nodes[1], levels);
      assert Wraps(nodes[0], nodes[1]);
      UnwrapOne(nodes, known);
      EnvelopedIsKnown(nodes[1..], levels - 1, known);
    }
  }

  /** A payload has a known shape exactly when it, or what it wraps at most `levels - 1` times over, holds a list. */
  lemma KnownMeans(payload: Json, levels: nat, known: Known)
    ensures KnownShape(payload, levels) == Some(known) <==>
      exists nodes :: 1 <= |nodes| <= levels && nodes[0] == payload && Envelope(nodes, known)
  {
    hide KnownShape, Envelope;
    if KnownShape(payload, levels) == Some(known) { KnownIsEnveloped(payload, levels, known); }
    if nodes :| 1 <= |nodes| <= levels && nodes[0] == payload && Envelope(nodes, known) {
      EnvelopedIsKnown(nodes, levels, known);
    }
  }

  lemma WrapMore(payload: Json, nodes: seq<Json>, known: Known)
    requires Envelope(nodes, known) && Wraps(payload, nodes[0])
    ensures Envelope([payload] + nodes, known)
  {
    hide HoldsList, Wraps;
    var longer := [payload] + nodes;
    forall i | 0 <= i < |longer| - 1 ensures Wraps(longer[i], longer[i + 1]) {
      if i > 0 { assert longer[i] == nodes[i - 1] && longer[i + 1] == nodes[i - 1 + 1]; }
    }
  }

  lemma UnwrapOne(nodes: seq<Json>, known: Known)
    requires Envelope(nodes, known) && |nodes| > 1
    ensures Envelope(nodes[1..], known)
  {
    hide HoldsList, Wraps;
    forall i | 0 <= i < |nodes[1..]| - 1 ensures Wraps(nodes[1..][i], nodes[1..][i + 1]) {
      assert Wraps(nodes[i + 1], nodes[i + 1 + 1]);
    }
  }

  // ----- Which case applies

  /** An empty page is believed when its meta object announces no more and no list is there. */
  lemma EmptinessMeans(payload: Json)
    ensures VerifiedEmpty(payload) <==>
      && payload.JObject?
      && (forall k :: 0 <= k < 4 ==> !GetOrNull(payload.entries, ["data", "Data", "rows", "Rows"][k]).JList?)
      && var lower := GetOrNull(payload.entries, "meta");
         var meta := if Truthy(lower) then lower else GetOrNull(payload.entries, "Meta");
      meta.JObject? && !Truthy(GetOrNull(meta.entries, "hasMore")) && !Truthy(GetOrNull(meta.entries, "HasMore"))
  {
    hide GetOrNull, Get, Truthy;
    if payload.JObject? { FirstListMeans(payload.entries, LIST_KEYS); }
  }

  predicate IsProblem(d: Decoded, issue: Issue, confidence: Confidence) {
    d.Problem? && d.issue == issue && d.evidence.confidence == confidence
  }

  /** The order in which a body is judged, and what comes of each case. */
  lemma BodyMeans(t: Text, group: string, body: Json)
    ensures var d, known := DecodeBody(t, group, body), KnownShape(body, 3);
      var adaptive := DecodeAdaptively(t, group, body, Search(t, body).candidates);
      && (P.ErrorPayload(t, body, 0) ==> IsProblem(d, Issue.ErrorPayload, High))
      && (!P.ErrorPayload(t, body, 0) && known.Some? ==> d == Page(known.value.rows, known.value.next, None))
      && (!P.ErrorPayload(t, body, 0) && known.None? && VerifiedEmpty(body) ==> d == Page([], JNull, None))
      && (!P.ErrorPayload(t, body, 0) && known.None? && !VerifiedEmpty(body) ==> d == adaptive)
  {
    hide Search, P.ErrorPayload, KnownShape, VerifiedEmpty, DecodeAdaptively;
  }

  /** Without a known shape the ratings decide. One high candidate is the page, and several are ambiguous. */
  lemma HighMeans(t: Text, group: string, payload: Json, all: seq<Candidate>, i: nat)
    requires i < |all| && ConfidenceOf(t, all[i]) == High
    ensures var d := DecodeAdaptively(t, group, payload, all);
      if forall j :: 0 <= j < |all| && j != i ==> ConfidenceOf(t, all[j]) != High
      then d.Page? && d.rows == all[i].rows && d.next == all[i].next
      else IsProblem(d, AmbiguousEnvelope, Medium)
  {
    hide ConfidenceOf, PathText, Filter;
    var high := (c: Candidate) => ConfidenceOf(t, c) == High;
    if forall j :: 0 <= j < |all| && j != i ==> !high(all[j]) {
      OnlyOneKept(high, all, i);
    } else {
      var j :| 0 <= j < |all| && j != i && high(all[j]);
      TwoKept(high, all, if i < j then i else j, if i < j then j else i);
    }
  }

  /** With no high candidate only an empty list under a lot-list key is a page. */
  lemma NoHighMeans(t: Text, group: string, payload: Json, all: seq<Candidate>)
    requires forall i :: 0 <= i < |all| ==> ConfidenceOf(t, all[i]) != High
    ensures var d := DecodeAdaptively(t, group, payload, all);
      && (|all| == 0 ==> IsProblem(d, StructureDrift, Low))
      && (|all| > 1 ==> IsProblem(d, AmbiguousEnvelope, Low))
      && (|all| == 1 && all[0].rows != [] ==> IsProblem(d, LotShapeDrift, ConfidenceOf(t, all[0])))
      && (|all| == 1 && all[0].rows == [] ==>
            var path := all[0].path;
            if path != [] && t.fold(path[|path| - 1])
                 in {"data", "rows", "items", "lotes", "lots", "records", "entries"}
            then d.Page? && d.rows == [] && d.next == all[0].next
            else IsProblem(d, UnverifiedEmpty, Low))
  {
    hide ConfidenceOf, PathText, Filter;
    NothingKept((c: Candidate) => ConfidenceOf(t, c) == High, all);
    if |all| == 1 { OneRated(t, all); }
  }

  lemma OneRated(t: Text, all: seq<Candidate>)
    requires |all| == 1
    ensures Filter((c: Candidate) => ConfidenceOf(t, c) == Medium, all) ==
      if ConfidenceOf(t, all[0]) == Medium then [all[0]] else []
  {
    hide ConfidenceOf;
    assert all[..0] == [] && all[|all| - 1] == all[0];
  }

  lemma {:induction false} TwoKept<T>(p: T -> bool, s: seq<T>, i: nat, j: nat)
    requires i < j < |s| && p(s[i]) && p(s[j])
    ensures |Filter(p, s)| > 1
  {
    var front := s[..|s| - 1];
    if j < |s| - 1 {
      TwoKept(p, front, i, j);
    } else {
      assert front[i] in Filter(p, front);
    }
  }

  /** A text answer that is no JSON is a page of HTML when its first visible character says so. */
  lemma AnswerMeans(t: Text, group: string, payload: Json)
    ensures !payload.JString? ==> DecodePage(t, group, payload) == DecodeBody(t, group, payload)
    ensures payload.JString? && t.parse(payload.s).Some? ==>
      DecodePage(t, group, payload) == DecodeBody(t, group, t.parse(payload.s).value)
    ensures payload.JString? && t.parse(payload.s).None? ==>
      var s := payload.s;
      if exists k :: 0 <= k < |s| && s[k] == '<' && !t.unicode.isSpace('<')
           && forall j :: 0 <= j < k ==> t.unicode.isSpace(s[j])
      then IsProblem(DecodePage(t, group, payload), HtmlResponse, Low)
      else IsProblem(DecodePage(t, group, payload), StructureDrift, Low)
  {
    hide DecodeBody, StripLeft;
    if payload.JString? { FirstVisible(t.unicode, payload.s, '<'); }
  }

  lemma {:induction false} FirstVisible(u: Unicode, s: string, c: char)
    ensures var r := StripLeft(u, s);
      r != "" && r[0] == c <==>
      exists k :: 0 <= k < |s| && s[k] == c && !u.isSpace(c) && forall j :: 0 <= j < k ==> u.isSpace(s[j])
  {
    if s != "" && u.isSpace(s[0]) {
      FirstVisible(u, s[1..], c);
      if k :| 0 <= k < |s[1..]| && s[1..][k] == c && !u.isSpace(c) && forall j :: 0 <= j < k ==> u.isSpace(s[1..][j]) {
        forall j | 0 <= j < k + 1 ensures u.isSpace(s[j]) { if j > 0 { assert s[1..][j - 1] == s[j]; } }
        assert s[k + 1] == c;
      }
      if k :| 0 <= k < |s| && s[k] == c && !u.isSpace(c) && forall j :: 0 <= j < k ==> u.isSpace(s[j]) {
        assert k > 0 && s[1..][k - 1] == c;
        assert forall j :: 0 <= j < k - 1 ==> s[1..][j] == s[j + 1];
      }
    }
  }
}
