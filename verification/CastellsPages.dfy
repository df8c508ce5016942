/** Reading one page of Castells lots: known shapes, verified emptiness, adaptive recovery. */
module CastellsPages {
  import opened Wrappers
  import opened Sequences
  import opened Domain
  import opened Validation
  import opened CastellsDecoder

  datatype Decoded =
    | Page(rows: seq<Json>, next: Json, diagnostic: Option<Diagnostic>)
    | Problem(issue: Issue, evidence: Diagnostic)

  function Objects(rows: seq<Json>): (r: seq<Json>)
    ensures |r| <= |rows| && forall x :: x in r ==> x.JObject? && x in rows
  {
    if rows == [] then []
    else if rows[0].JObject? then [rows[0]] + Objects(rows[1..])
    else Objects(rows[1..])
  }

  function Identities(t: Text, items: seq<Json>): (r: seq<string>)
    requires forall x :: x in items ==> x.JObject?
    ensures |r| == |items| && forall i :: 0 <= i < |r| ==> r[i] == LotIdentity(t, items[i])
  {
    seq(|items|, i requires 0 <= i < |items| => assert items[i] in items; LotIdentity(t, items[i]))
  }

  function Titles(t: Text, items: seq<Json>): (r: seq<string>)
    requires forall x :: x in items ==> x.JObject?
    ensures |r| == |items|
  {
    seq(|items|, i requires 0 <= i < |items| => assert items[i] in items; LotTitle(t, items[i]))
  }

  function CountShaped(identities: seq<string>, titles: seq<string>): nat
    requires |identities| == |titles|
  {
    if identities == [] then 0
    else (if identities[0] != "" && titles[0] != "" then 1 else 0) + CountShaped(identities[1..], titles[1..])
  }

  /** The shares 0.5 and 0.8 are compared as exact fractions. */
  function ConfidenceOf(t: Text, c: Candidate): Confidence {
    var sample := First(c.rows, MAX_ADAPTIVE_ROWS);
    var objects := Objects(sample);
    if c.oversized || sample == [] || 2 * |objects| < |sample| then Low
    else
      var identities, titles := Identities(t, objects), Titles(t, objects);
      var named := Filter((s: string) => s != "", identities);
      if 5 * |objects| >= 4 * |sample| && 5 * CountShaped(identities, titles) >= 4 * |objects| && !Repeats(named)
      then High
      else if (exists s :: s in identities && s != "") || (exists s :: s in titles && s != "") then Medium
      else Low
  }

  const ERROR_KEYS := {"error", "errors", "exception"}
  const FAILURE_WORDS := {"error", "failed", "failure"}

  predicate ErrorEntry(t: Text, e: Entry) {
    var key := t.fold(e.key);
    || (key in ERROR_KEYS && e.value !in {JNull, JString(""), JBool(false)})
    || (key in {"status", "result"} && e.value.JString? && t.fold(e.value.s) in FAILURE_WORDS)
    || (key in {"status", "statuscode"} && e.value.JInt? && e.value.i >= 400)
  }

  predicate ErrorPayload(t: Text, payload: Json, depth: nat)
    decreases 4 - depth
  {
    && depth <= 3 && payload.JObject?
    && exists e :: e in First(payload.entries, MAX_ADAPTIVE_KEYS)
         && (ErrorEntry(t, e) || (e.value.JObject? && ErrorPayload(t, e.value, depth + 1)))
  }

  datatype Known = Known(rows: seq<Json>, next: Json)

  function FirstList(entries: seq<Entry>, names: seq<string>): Option<Json> {
    if names == [] then None
    else if GetOrNull(entries, names[0]).JList? then Get(entries, names[0])
    else FirstList(entries, names[1..])
  }

  function FirstObject(entries: seq<Entry>, names: seq<string>): Option<Json> {
    if names == [] then None
    else if GetOrNull(entries, names[0]).JObject? then Get(entries, names[0])
    else FirstObject(entries, names[1..])
  }

  /** The documented envelopes, unwrapped through at most three objects. */
  function KnownShape(node: Json, levels: nat): Option<Known>
    decreases levels
  {
    if levels == 0 || !node.JObject? then None
    else
      var list := FirstList(node.entries, LIST_KEYS);
      if list.Some? && list.value.JList? then Some(Known(list.value.items, NextValue(node.entries)))
      else
        var inner := FirstObject(node.entries, NESTED_KEYS);
        if inner.None? then None else KnownShape(inner.value, levels - 1)
  }

  predicate VerifiedEmpty(payload: Json) {
    && payload.JObject?
    && var lower, upper := GetOrNull(payload.entries, "meta"), GetOrNull(payload.entries, "Meta");
       var meta := if Truthy(lower) then lower else upper;
    && meta.JObject? && FirstList(payload.entries, LIST_KEYS).None?
    && !Truthy(GetOrNull(meta.entries, "hasMore")) && !Truthy(GetOrNull(meta.entries, "HasMore"))
  }

  function PathText(path: seq<string>): string {
    if path == [] then "$" else PathText(path[..|path| - 1]) + "." + path[|path| - 1]
  }

  function Shadow(t: Text, group: string, category: Issue, confidence: Confidence, payload: Json,
                  candidates: seq<Candidate>, path: Option<seq<string>>): Decoded
  {
    var text := match path case Some(p) => Some(PathText(p)) case None => None;
    Problem(category, Diagnostic(group, ShadowOnly, Some(category), confidence, text,
                                 t.fingerprint(payload, candidates)))
  }

  function Recovered(t: Text, group: string, rows: seq<Json>, next: Json, payload: Json,
                     candidates: seq<Candidate>, path: seq<string>): Decoded
  {
    Page(rows, next, Some(Diagnostic(group, AdaptiveRecovered, None, High, Some(PathText(path)),
                                     t.fingerprint(payload, candidates))))
  }

  function Rated(t: Text, candidates: seq<Candidate>, confidence: Confidence): seq<Candidate> {
    Filter((c: Candidate) => ConfidenceOf(t, c) == confidence, candidates)
  }

  function DecodeAdaptively(t: Text, group: string, payload: Json, candidates: seq<Candidate>): Decoded {
    var high, medium := Rated(t, candidates, High), Rated(t, candidates, Medium);
    if |high| == 1 then Recovered(t, group, high[0].rows, high[0].next, payload, candidates, high[0].path)
    else if |high| > 1 then Shadow(t, group, AmbiguousEnvelope, Medium, payload, candidates, None)
    else if |candidates| == 1 && candidates[0].rows == [] then
      var only := candidates[0];
      if only.path != [] && t.fold(only.path[|only.path| - 1]) in SEMANTIC_LOT_LIST_KEYS
      then Recovered(t, group, [], only.next, payload, candidates, only.path)
      else Shadow(t, group, UnverifiedEmpty, Low, payload, candidates, Some(only.path))
    else if |medium| == 1 && |candidates| == 1 then
      Shadow(t, group, LotShapeDrift, Medium, payload, candidates, Some(medium[0].path))
    else if |candidates| > 1 then Shadow(t, group, AmbiguousEnvelope, Low, payload, candidates, None)
    else if |candidates| == 1 then Shadow(t, group, LotShapeDrift, Low, payload, candidates, Some(candidates[0].path))
    else Shadow(t, group, StructureDrift, Low, payload, candidates, None)
  }

  function DecodeBody(t: Text, group: string, payload: Json): Decoded {
    var candidates := Search(t, payload).candidates;
    if ErrorPayload(t, payload, 0) then Shadow(t, group, Issue.ErrorPayload, High, payload, candidates, None)
    else
      match KnownShape(payload, 3)
      case Some(known) => Page(known.rows, known.next, None)
      case None =>
        if VerifiedEmpty(payload) then Page([], JNull, None)
        else DecodeAdaptively(t, group, payload, candidates)
  }

  /** A text answer is parsed first; one that is no JSON is an issue by itself. */
  function DecodePage(t: Text, group: string, payload: Json): Decoded {
    if payload.JString? then
      match t.parse(payload.s)
      case Some(body) => DecodeBody(t, group, body)
      case None =>
        var trimmed := StripLeft(t.unicode, payload.s);
        var category := if trimmed != "" && trimmed[0] == '<' then HtmlResponse else StructureDrift;
        Shadow(t, group, category, Low, payload, [], None)
    else DecodeBody(t, group, payload)
  }

  function BodyOf(t: Text, payload: Json): Json {
    if payload.JString? && t.parse(payload.s).Some? then t.parse(payload.s).value else payload
  }

  // ----- What decoding guarantees

  /** A list of the payload: the payload itself, or one held at a path of keys. */
  ghost predicate ListOf(t: Text, payload: Json, path: seq<string>, items: seq<Json>, next: Json) {
    if path == [] then payload == JList(items) && next == JNull
    else Holds(t, payload, path, items, next)
  }

  /** The only candidate rated high. */
  ghost predicate OnlyHigh(t: Text, candidates: seq<Candidate>, i: nat) {
    && i < |candidates| && ConfidenceOf(t, candidates[i]) == High
    && forall j :: 0 <= j < |candidates| && j != i ==> ConfidenceOf(t, candidates[j]) != High
  }

  lemma {:induction false} NothingKept<T>(p: T -> bool, s: seq<T>)
    requires forall j :: 0 <= j < |s| ==> !p(s[j])
    ensures Filter(p, s) == []
  {
    if s != [] { NothingKept(p, s[..|s| - 1]); }
  }

  lemma {:induction false} SingleFilter<T>(p: T -> bool, s: seq<T>) returns (i: nat)
    requires |Filter(p, s)| == 1
    ensures i < |s| && p(s[i]) && Filter(p, s) == [s[i]]
    ensures forall j :: 0 <= j < |s| && j != i ==> !p(s[j])
  {
    var front := s[..|s| - 1];
    if p(s[|s| - 1]) {
      i := |s| - 1;
      forall j | 0 <= j < |s| && j != i ensures !p(s[j]) { assert front[j] in front; }
    } else {
      i := SingleFilter(p, front);
      forall j | 0 <= j < |s| && j != i ensures !p(s[j]) {
        if j < |front| { assert front[j] == s[j]; }
      }
    }
  }

  /** A high rating rests on a whole, non-empty list whose sampled lots have distinct identities. */
  lemma HighMeansWhole(t: Text, payload: Json, c: Candidate)
    requires c in Search(t, payload).candidates && ConfidenceOf(t, c) == High
    ensures c.rows != [] && ListOf(t, payload, c.path, c.rows, c.next)
    ensures NoDuplicates(Filter((s: string) => s != "", Identities(t, Objects(First(c.rows, MAX_ADAPTIVE_ROWS)))))
  {
    var items := CandidateIsAList(t, payload, c);
    assert c.rows == items;
    hide CandidateFor, Search;
    assert payload.JList? ==> c.path == [] && c.next == JNull by {
      if payload.JList? { TopLevelCandidate(t, payload, c); }
    }
    DistinctBySize(Filter((s: string) => s != "", Identities(t, Objects(First(c.rows, MAX_ADAPTIVE_ROWS)))));
  }

  lemma TopLevelCandidate(t: Text, payload: Json, c: Candidate)
    requires payload.JList? && c in Search(t, payload).candidates
    ensures c.path == [] && c.next == JNull
  {
    assert c == CandidateFor([], payload.items, JNull);
  }

  /** Whatever cannot be decoded is one of six issues, with evidence of the same category for this group. */
  lemma ProblemsAreClassified(t: Text, group: string, payload: Json)
    ensures match DecodePage(t, group, payload)
      case Page(_, _, d) =>
        d.Some? ==> d.value.group == group && d.value.status == AdaptiveRecovered && d.value.category == None
      case Problem(issue, d) =>
        && d.group == group && d.status == ShadowOnly && d.category == Some(issue)
        && issue in {HtmlResponse, Issue.ErrorPayload, AmbiguousEnvelope, UnverifiedEmpty, LotShapeDrift,
                     StructureDrift}
  {
    hide Search, ConfidenceOf, ErrorPayload, VerifiedEmpty, KnownShape;
  }

  predicate SoleEmptyLotList(t: Text, candidates: seq<Candidate>) {
    && |candidates| == 1 && candidates[0].rows == [] && candidates[0].path != []
    && t.fold(candidates[0].path[|candidates[0].path| - 1]) in SEMANTIC_LOT_LIST_KEYS
  }

  /**
   * A page decoded without a known shape is empty for a stated reason, or it is all the elements of
   * exactly one list of the payload: the only candidate rated high.
   */
  lemma AdaptivePageIsOneWholeList(t: Text, group: string, payload: Json)
    requires DecodePage(t, group, payload).Page? && KnownShape(BodyOf(t, payload), 3).None?
    ensures
      var page, body := DecodePage(t, group, payload), BodyOf(t, payload);
      var candidates := Search(t, body).candidates;
      && (page.rows == [] ==> VerifiedEmpty(body) || SoleEmptyLotList(t, candidates))
      && (page.rows != [] ==>
            exists i: nat :: OnlyHigh(t, candidates, i)
              && page.rows == candidates[i].rows && page.next == candidates[i].next
              && ListOf(t, body, candidates[i].path, page.rows, page.next))
  {
    hide Search, ConfidenceOf, ErrorPayload, VerifiedEmpty, KnownShape, ListOf, DecodeBody;
    AdaptiveBody(t, group, BodyOf(t, payload));
  }

  lemma AdaptiveBody(t: Text, group: string, body: Json)
    requires DecodeBody(t, group, body).Page? && KnownShape(body, 3).None?
    ensures
      var page, candidates := DecodeBody(t, group, body), Search(t, body).candidates;
      && (page.rows == [] ==> VerifiedEmpty(body) || SoleEmptyLotList(t, candidates))
      && (page.rows != [] ==>
            exists i: nat :: OnlyHigh(t, candidates, i)
              && page.rows == candidates[i].rows && page.next == candidates[i].next
              && ListOf(t, body, candidates[i].path, page.rows, page.next))
  {
    hide Search, ConfidenceOf, ErrorPayload, VerifiedEmpty, KnownShape, ListOf;
    var candidates := Search(t, body).candidates;
    if !VerifiedEmpty(body) && |Rated(t, candidates, High)| == 1 {
      var i := SingleFilter((c: Candidate) => ConfidenceOf(t, c) == High, candidates);
      assert OnlyHigh(t, candidates, i);
      HighMeansWhole(t, body, candidates[i]);
    }
  }

  /** Conversely, one high candidate is enough whenever nothing before it decides. */
  lemma OneHighIsRecovered(t: Text, group: string, body: Json, i: nat)
    requires !ErrorPayload(t, body, 0) && KnownShape(body, 3).None? && !VerifiedEmpty(body)
    requires OnlyHigh(t, Search(t, body).candidates, i)
    ensures DecodeBody(t, group, body).Page?
    ensures DecodeBody(t, group, body).rows == Search(t, body).candidates[i].rows
  {
    hide Search, ConfidenceOf, ErrorPayload, VerifiedEmpty, KnownShape;
    OnlyOneKept((c: Candidate) => ConfidenceOf(t, c) == High, Search(t, body).candidates, i);
  }

  lemma {:induction false} OnlyOneKept<T>(p: T -> bool, s: seq<T>, i: nat)
    requires i < |s| && p(s[i]) && forall j :: 0 <= j < |s| && j != i ==> !p(s[j])
    ensures Filter(p, s) == [s[i]]
  {
    var front := s[..|s| - 1];
    if i == |s| - 1 {
      NothingKept(p, front);
    } else {
      OnlyOneKept(p, front, i);
    }
  }

  /** Objects reached from the payload through the wrapper keys. */
  ghost predicate Unwraps(payload: Json, node: Json, steps: nat) {
    || payload == node
    || (steps > 0 && payload.JObject?
        && exists key :: key in NESTED_KEYS && Get(payload.entries, key).Some?
             && Unwraps(Get(payload.entries, key).value, node, steps - 1))
  }

  lemma {:induction false} FirstListFound(entries: seq<Entry>, names: seq<string>)
    ensures FirstList(entries, names).Some? <==> exists name :: name in names && GetOrNull(entries, name).JList?
    ensures FirstList(entries, names).Some? ==>
      exists name :: name in names && Get(entries, name) == FirstList(entries, names)
  {
    if names != [] && !GetOrNull(entries, names[0]).JList? { FirstListFound(entries, names[1..]); }
  }

  lemma {:induction false} FirstObjectFound(entries: seq<Entry>, names: seq<string>)
    requires FirstObject(entries, names).Some?
    ensures exists name :: name in names && Get(entries, name) == FirstObject(entries, names)
  {
    if !GetOrNull(entries, names[0]).JObject? { FirstObjectFound(entries, names[1..]); }
  }

  /** A page in a known shape is one whole list under a documented key, at most two wrappers deep. */
  lemma {:induction false} KnownPageIsOneWholeList(payload: Json, levels: nat)
    requires KnownShape(payload, levels).Some?
    ensures exists entries, key ::
      Unwraps(payload, JObject(entries), levels - 1) && key in LIST_KEYS
      && Get(entries, key) == Some(JList(KnownShape(payload, levels).value.rows))
      && KnownShape(payload, levels).value.next == NextValue(entries)
  {
    hide NextValue, Get;
    FirstListFound(payload.entries, LIST_KEYS);
    if FirstList(payload.entries, LIST_KEYS).None? || !FirstList(payload.entries, LIST_KEYS).value.JList? {
      var inner := FirstObject(payload.entries, NESTED_KEYS).value;
      FirstObjectFound(payload.entries, NESTED_KEYS);
      KnownPageIsOneWholeList(inner, levels - 1);
      var entries, key :| Unwraps(inner, JObject(entries), levels - 2) && key in LIST_KEYS
        && Get(entries, key) == Some(JList(KnownShape(payload, levels).value.rows))
        && KnownShape(payload, levels).value.next == NextValue(entries);
      assert Unwraps(payload, JObject(entries), levels - 1);
    }
  }
}
