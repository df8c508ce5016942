/** Bounded requests and verifiable lot pagination of one Castells auction. */
module CastellsPaging {
  import opened Wrappers
  import opened Sequences
  import opened Domain
  import opened Cleaning
  import opened CastellsDecoder
  import opened CastellsPages

  datatype Reply = Answer(payload: Json) | Failure(issue: Issue)

  /** Where a "next" link leads: to the lot endpoint, elsewhere, or nowhere a URL can name. */
  datatype Target = Follow(url: string) | Foreign | Malformed(issue: Issue)

  datatype Site = Site(
    text: Text,
    homeUrl: string,
    lotsUrl: (string, int, string) -> string,           // auction, kind, cursor
    join: (string, Json) -> Target)                     // current page, link

  /** Everything outside the adapter: what the clock shows and how the server answers, call by call. */
  datatype World = World(clock: nat -> real, reply: (nat, string) -> Reply)

  const MAX_PAGES := 20

  datatype Limits = Limits(pageSize: nat, maxPages: nat, maxRequests: nat, seconds: real) {
    predicate Accepted() {
      1 <= pageSize <= LOT_PAGE_SIZE && 1 <= maxPages <= MAX_PAGES && maxRequests >= 1 && seconds > 0.0
    }
  }

  /** One page as it was read. */
  datatype PageRead = PageRead(url: string, rows: seq<Json>, next: Json)

  datatype Fetch =
    | Fetched(rows: seq<Json>, invalid: nat, issue: Option<Issue>, diagnostics: seq<Diagnostic>)
    | Aborted(cause: Issue, diagnostics: seq<Diagnostic>)

  function LotCursor(t: Text, item: Json): string {
    if item.JObject? then AfterLast(LotIdentity(t, item), ':') else ""
  }

  function AllRows(pages: seq<PageRead>): seq<Json> {
    if pages == [] then [] else AllRows(pages[..|pages| - 1]) + pages[|pages| - 1].rows
  }

  /** A page that ends the list: short, and without a link to another. */
  predicate Final(limits: Limits, p: PageRead) { !Truthy(p.next) && |p.rows| < limits.pageSize }

  /** The page a page leads to: its link, or else the cursor of its last lot. */
  function Successor(site: Site, group: string, kind: int, p: PageRead): Option<string> {
    if Truthy(p.next) then
      match site.join(p.url, p.next) case Follow(url) => Some(url) case _ => None
    else if p.rows == [] then None
    else
      var cursor := LotCursor(site.text, p.rows[|p.rows| - 1]);
      if cursor == "" then None else Some(site.lotsUrl(group, kind, cursor))
  }

  /** The pages form one walk from the first page, and none but the last ends the list. */
  ghost predicate Walked(site: Site, limits: Limits, group: string, kind: int, pages: seq<PageRead>) {
    && (pages != [] ==> pages[0].url == site.lotsUrl(group, kind, "0"))
    && (forall i :: 0 <= i < |pages| - 1 ==>
          !Final(limits, pages[i]) && Successor(site, group, kind, pages[i]) == Some(pages[i + 1].url))
  }

  /** The pages are what the server answered, in order, to the requests made from `start` on. */
  ghost predicate ReadFrom(
    site: Site, world: World, group: string, log: seq<string>, start: nat, pages: seq<PageRead>) {
    && start + |pages| <= |log|
    && forall i :: 0 <= i < |pages| ==>
         log[start + i] == pages[i].url && ReadAt(site, world, group, start + i, pages[i])
  }

  /** Request number `n` was answered with this page. */
  ghost predicate ReadAt(site: Site, world: World, group: string, n: nat, p: PageRead) {
    && world.reply(n, p.url).Answer?
    && var decoded := DecodePage(site.text, group, world.reply(n, p.url).payload);
       decoded.Page? && decoded.rows == p.rows && decoded.next == p.next
  }

  ghost predicate Finished(limits: Limits, pages: seq<PageRead>) {
    pages != [] && Final(limits, pages[|pages| - 1])
  }

  /** Rows and invalid entries account for every entry of every page. */
  ghost predicate AccountsFor(f: Fetch, pages: seq<PageRead>) {
    f.Fetched? ==> f.rows == Objects(AllRows(pages)) && |f.rows| + f.invalid == |AllRows(pages)|
  }

  /** The address to read next, given the pages read so far. */
  ghost predicate LeadsTo(
    site: Site, limits: Limits, group: string, kind: int, pages: seq<PageRead>, url: string)
  {
    if pages == [] then url == site.lotsUrl(group, kind, "0")
    else !Final(limits, pages[|pages| - 1]) && Successor(site, group, kind, pages[|pages| - 1]) == Some(url)
  }

  /** Why a walk stopped. */
  datatype Ending = EndOfList | PageLimit | DeadEnd | Cycle(url: string) | Unreadable(url: string) | Refused

  /** A request that was answered, but not with a page. */
  ghost predicate UnreadableAt(site: Site, world: World, group: string, n: nat, url: string) {
    world.reply(n, url).Failure? || DecodePage(site.text, group, world.reply(n, url).payload).Problem?
  }

  /** The walk stopped for this reason, and the reported issue says so. */
  ghost predicate Ended(
    why: Ending, site: Site, limits: Limits, world: World, group: string, kind: int,
    log: seq<string>, start: nat, pages: seq<PageRead>, f: Fetch)
  {
    && start + |pages| <= |log| && (why.EndOfList? || !Finished(limits, pages))
    && match why
       case EndOfList => Finished(limits, pages) && f.Fetched? && f.issue.None?
       case PageLimit => |pages| == limits.maxPages && f.Fetched? && f.issue == Some(Pagination)
       case DeadEnd =>
         && pages != [] && Successor(site, group, kind, pages[|pages| - 1]).None?
         && (if BreaksOff(site, pages[|pages| - 1]) then f.Aborted? else f.Fetched? && f.issue == Some(Pagination))
       case Cycle(url) =>
         && LeadsTo(site, limits, group, kind, pages, url) && url in SetOf(log[start..])
         && f.Fetched? && f.issue == Some(Pagination)
       case Unreadable(url) =>
         && LeadsTo(site, limits, group, kind, pages, url) && |log| == start + |pages| + 1
         && log[|log| - 1] == url && UnreadableAt(site, world, group, |log| - 1, url) && CutShort(pages, f)
       case Refused => |log| == start + |pages| && CutShort(pages, f)
  }

  /** A link no URL can be made of breaks the walk off. */
  predicate BreaksOff(site: Site, p: PageRead) { Truthy(p.next) && site.join(p.url, p.next).Malformed? }

  /** What was read so far is kept with the issue, unless that is nothing. */
  predicate CutShort(pages: seq<PageRead>, f: Fetch) {
    if Objects(AllRows(pages)) == [] then f.Aborted? else f.Fetched? && f.issue.Some?
  }

  datatype Step = Continue(url: string) | Done | Stuck(cause: Issue) | Raised(cause: Issue)

  predicate AboutGroup(diagnostics: seq<Diagnostic>, group: string) {
    forall d :: d in diagnostics ==> d.group == group
  }

  lemma {:induction false} ObjectsOfBoth(a: seq<Json>, b: seq<Json>)
    ensures Objects(a + b) == Objects(a) + Objects(b)
  {
    if a == [] {
      assert a + b == b;
    } else {
      assert (a + b)[1..] == a[1..] + b;
      ObjectsOfBoth(a[1..], b);
    }
  }

  lemma NothingRead(site: Site, limits: Limits, world: World, group: string, kind: int, log: seq<string>)
    ensures AllRows([]) == [] && Objects([]) == []
    ensures Walked(site, limits, group, kind, []) && ReadFrom(site, world, group, log, |log|, [])
    ensures NoDuplicates(log[|log|..]) && SetOf(log[|log|..]) == {}
  {
  }

  lemma WalkMore(site: Site, limits: Limits, group: string, kind: int, pages: seq<PageRead>, p: PageRead)
    requires Walked(site, limits, group, kind, pages) && LeadsTo(site, limits, group, kind, pages, p.url)
    ensures Walked(site, limits, group, kind, pages + [p])
  {
    hide Final, Successor;
  }

  lemma ReadMore(
    site: Site, world: World, group: string, log: seq<string>, start: nat, pages: seq<PageRead>, p: PageRead)
    requires |log| == start + |pages| + 1 && log[|log| - 1] == p.url
    requires ReadFrom(site, world, group, log, start, pages) && ReadAt(site, world, group, |log| - 1, p)
    ensures ReadFrom(site, world, group, log, start, pages + [p])
  {
    hide ReadAt;
  }

  /** Asking for a new address keeps what was read and repeats nothing. */
  lemma AskMore(
    site: Site, world: World, group: string, log: seq<string>, start: nat, pages: seq<PageRead>, url: string)
    requires start <= |log| && url !in SetOf(log[start..]) && NoDuplicates(log[start..])
    requires ReadFrom(site, world, group, log, start, pages)
    ensures (log + [url])[start..] == log[start..] + [url]
    ensures NoDuplicates((log + [url])[start..])
    ensures SetOf((log + [url])[start..]) == SetOf(log[start..]) + {url}
    ensures ReadFrom(site, world, group, log + [url], start, pages)
  {
    hide ReadAt;
    assert (log + [url])[start..] == log[start..] + [url];
  }

  lemma OnePageMore(pages: seq<PageRead>, p: PageRead)
    ensures AllRows(pages + [p]) == AllRows(pages) + p.rows
    ensures Objects(AllRows(pages + [p])) == Objects(AllRows(pages)) + Objects(p.rows)
  {
    assert (pages + [p])[..|pages|] == pages;
    ObjectsOfBoth(AllRows(pages), p.rows);
  }

  // ----- What a walk is, read off its pages alone

  lemma FalseValues(j: Json)
    ensures Truthy(j) <==> j !in {JNull, JBool(false), JInt(0), JFloat(0.0), JString(""), JList([]), JObject([])}
  {
  }

  /** Without an issue the last page is short and has no link; and only then is there none. */
  lemma FinishedMeans(limits: Limits, pages: seq<PageRead>)
    ensures Finished(limits, pages) <==>
      pages != [] && !Truthy(pages[|pages| - 1].next) && |pages[|pages| - 1].rows| < limits.pageSize
  {
  }

  /** The walk begins at the list's own address; a page with a link leads where the link does, and one without
      is full and leads to the lots after its last one. */
  lemma WalkMeans(site: Site, limits: Limits, group: string, kind: int, pages: seq<PageRead>, i: nat)
    requires Walked(site, limits, group, kind, pages) && i < |pages|
    ensures pages[0].url == site.lotsUrl(group, kind, "0")
    ensures i + 1 < |pages| ==>
      var p, url := pages[i], pages[i + 1].url;
      if Truthy(p.next) then site.join(p.url, p.next) == Follow(url)
      else |p.rows| >= limits.pageSize && p.rows != []
           && url == site.lotsUrl(group, kind, LotCursor(site.text, p.rows[|p.rows| - 1]))
  {
    hide LotCursor, Truthy;
    if i + 1 < |pages| {
      assert !Final(limits, pages[i]) && Successor(site, group, kind, pages[i]) == Some(pages[i + 1].url);
    }
  }

  /** A walk only dies on a link that leads nowhere, or on a full page whose last lot gives no cursor; and it only
      turns back on an address that was asked for and that the last page leads to. */
  lemma EndingMeans(
    why: Ending, site: Site, limits: Limits, world: World, group: string, kind: int,
    log: seq<string>, start: nat, pages: seq<PageRead>, f: Fetch)
    requires Ended(why, site, limits, world, group, kind, log, start, pages, f) && !why.EndOfList?
    requires f.Fetched? && f.issue.None? <==> Finished(limits, pages)
    ensures !(f.Fetched? && f.issue.None?)
    ensures why.PageLimit? || why.Cycle? ==> f.Fetched? && f.issue == Some(Pagination)
    ensures why.PageLimit? ==> |pages| == limits.maxPages
    ensures why.Unreadable? || why.Refused? ==>
      (f.Aborted? <==> forall j, x :: 0 <= j < |pages| && x in pages[j].rows ==> !x.JObject?)
    ensures why.DeadEnd? ==> pages != []
    ensures why.DeadEnd? ==>
      var p := pages[|pages| - 1];
      if Truthy(p.next) then
        !site.join(p.url, p.next).Follow? && (f.Aborted? <==> site.join(p.url, p.next).Malformed?)
      else f.Fetched? && |p.rows| >= limits.pageSize
           && (p.rows == [] || LotCursor(site.text, p.rows[|p.rows| - 1]) == "")
    ensures why.Cycle? ==> exists n :: start <= n < |log| && log[n] == why.url
    ensures why.Unreadable? ==> |log| == start + |pages| + 1 && log[|log| - 1] == why.url
    ensures why.Unreadable? ==>
      var reply := world.reply(|log| - 1, why.url);
      reply.Failure? || DecodePage(site.text, group, reply.payload).Problem?
    ensures (why.Cycle? || why.Unreadable?) && pages == [] ==> why.url == site.lotsUrl(group, kind, "0")
    ensures (why.Cycle? || why.Unreadable?) && pages != [] ==>
      var p := pages[|pages| - 1];
      if Truthy(p.next) then site.join(p.url, p.next) == Follow(why.url)
      else |p.rows| >= limits.pageSize && p.rows != []
           && why.url == site.lotsUrl(group, kind, LotCursor(site.text, p.rows[|p.rows| - 1]))
    ensures why.Refused? ==> |log| == start + |pages|
  {
    hide LotCursor, Truthy, DecodePage, ReadAt, AllRows, Objects;
    NoObjects(pages);
    if why.Cycle? {
      var n :| 0 <= n < |log[start..]| && log[start..][n] == why.url;
      assert log[start + n] == why.url;
    }
  }

  lemma NoObjects(pages: seq<PageRead>)
    ensures Objects(AllRows(pages)) == [] <==>
      forall j, x :: 0 <= j < |pages| && x in pages[j].rows ==> !x.JObject?
  {
    ObjectsMeans(AllRows(pages));
    forall x ensures x in AllRows(pages) <==> exists j :: 0 <= j < |pages| && x in pages[j].rows {
      AllRowsMeans(pages, x);
    }
    if Objects(AllRows(pages)) != [] { assert Objects(AllRows(pages))[0] in AllRows(pages); }
  }

  lemma {:induction false} ObjectsMeans(rows: seq<Json>)
    ensures forall x :: x in rows && x.JObject? ==> x in Objects(rows)
  {
    if rows != [] { ObjectsMeans(rows[1..]); }
  }

  /** The page at this position is what the server answered to that request. */
  lemma PageMeans(
    site: Site, world: World, group: string, log: seq<string>, start: nat, pages: seq<PageRead>, i: nat)
    requires ReadFrom(site, world, group, log, start, pages) && i < |pages|
    ensures start + i < |log| && log[start + i] == pages[i].url
    ensures world.reply(start + i, pages[i].url).Answer?
    ensures var d := DecodePage(site.text, group, world.reply(start + i, pages[i].url).payload);
      d.Page? && d.rows == pages[i].rows && d.next == pages[i].next
  {
    hide DecodePage;
    assert ReadAt(site, world, group, start + i, pages[i]);
  }

  /** All the rows are those of some page. */
  lemma {:induction false} AllRowsMeans(pages: seq<PageRead>, x: Json)
    ensures x in AllRows(pages) <==> exists j :: 0 <= j < |pages| && x in pages[j].rows
  {
    if pages != [] {
      var front := pages[..|pages| - 1];
      AllRowsMeans(front, x);
      assert forall j :: 0 <= j < |front| ==> front[j] == pages[j];
      if x in pages[|pages| - 1].rows { assert 0 <= |pages| - 1 < |pages|; }
    }
  }

  class CastellsSource {
    const site: Site
    const limits: Limits
    const world: World
    var requestCount: nat
    var deadline: Option<real>
    var readings: nat
    var sent: nat
    ghost var log: seq<string>

    ghost predicate Valid()
      reads this
    {
      limits.Accepted() && requestCount <= limits.maxRequests && requestCount <= sent == |log|
    }

    constructor (site: Site, limits: Limits, world: World)
      requires limits.Accepted()
      ensures Valid() && this.site == site && this.limits == limits && this.world == world && log == []
    {
      this.site, this.limits, this.world := site, limits, world;
      requestCount, deadline, readings, sent, log := 0, None, 0, 0, [];
    }

    /** Starting a scan clears the budget and sets the deadline. */
    method Begin()
      requires Valid()
      modifies this
      ensures Valid() && requestCount == 0 && log == old(log) && readings == old(readings) + 1
      ensures deadline == Some(world.clock(old(readings)) + limits.seconds)
    {
      requestCount, deadline, readings := 0, Some(world.clock(readings) + limits.seconds), readings + 1;
    }

    /** A request goes out exactly while time and budget remain. */
    method Get(url: string) returns (r: Reply)
      requires Valid()
      modifies this
      ensures Valid() && deadline == old(deadline)
      ensures readings == old(readings) + if deadline.Some? then 1 else 0
      ensures var goes := deadline.Some? && deadline.value > world.clock(old(readings))
                && old(requestCount) < limits.maxRequests;
        if goes
        then log == old(log) + [url] && requestCount == old(requestCount) + 1 && r == world.reply(|old(log)|, url)
        else log == old(log) && requestCount == old(requestCount) && r.Failure? && r.issue in {Timeout, RequestBudget}
    {
      if deadline.None? { return Failure(Timeout); }
      var remaining := deadline.value - world.clock(readings);
      readings := readings + 1;
      if remaining <= 0.0 { return Failure(Timeout); }
      if requestCount >= limits.maxRequests { return Failure(RequestBudget); }
      requestCount, log := requestCount + 1, log + [url];
      r := world.reply(sent, url);
      sent := sent + 1;
    }

    /** Nothing more goes out: the deadline has passed, or the budget is used up. */
    ghost predicate Spent(reading: nat)
      reads this
    {
      deadline.None? || deadline.value <= world.clock(reading) || requestCount == limits.maxRequests
    }

    /** One request and its decoding. */
    method ReadPage(group: string, url: string) returns (d: Decoded, issue: Option<Issue>)
      requires Valid()
      modifies this
      ensures Valid() && deadline == old(deadline)
      ensures requestCount - old(requestCount) == |log| - |old(log)|
      ensures log == old(log) || log == old(log) + [url]
      ensures issue.None? ==> d.Page? && log == old(log) + [url]
      ensures issue.Some? && log != old(log) ==> UnreadableAt(site, world, group, |old(log)|, url)
      ensures readings >= old(readings)
      ensures issue.Some? && log == old(log) ==> Spent(old(readings)) && (deadline.Some? ==> readings > old(readings))
      ensures issue.None? ==> ReadAt(site, world, group, |old(log)|, PageRead(url, d.rows, d.next))
      ensures issue.Some? && d.Problem? ==> d.evidence.group == group
      ensures issue.None? && d.diagnostic.Some? ==> d.diagnostic.value.group == group
    {
      var reply := Get(url);
      match reply
      case Failure(cause) =>
        return Page([], JNull, None), Some(cause);
      case Answer(payload) =>
        ProblemsAreClassified(site.text, group, payload);
        hide DecodePage;
        d := DecodePage(site.text, group, payload);
        issue := if d.Problem? then Some(d.issue) else None;
    }

    /** After a page: on to its successor, done, or stuck. */
    method Advance(group: string, kind: int, p: PageRead, seenCursors: set<string>)
      returns (step: Step, cursors: set<string>)
      requires Valid()
      ensures step.Continue? ==> !Final(limits, p) && Successor(site, group, kind, p) == Some(step.url)
      ensures step.Done? <==> Final(limits, p)
      ensures step.Stuck? ==> step.cause == Pagination
      ensures step.Stuck? ==>
        Successor(site, group, kind, p).None? || (exists c ::
          c in seenCursors && Successor(site, group, kind, p) == Some(site.lotsUrl(group, kind, c)))
      ensures step.Raised? ==> Successor(site, group, kind, p).None?
      ensures step.Raised? <==> BreaksOff(site, p)
      ensures step.Continue? ==>
        forall c :: c in cursors ==> c in seenCursors || step.url == site.lotsUrl(group, kind, c)
    {
      cursors := seenCursors;
      if Truthy(p.next) {
        match site.join(p.url, p.next)
        case Follow(target) => step := Continue(target);
        case Foreign => step := Stuck(Pagination);
        case Malformed(cause) => step := Raised(cause);
      } else if |p.rows| < limits.pageSize {
        step := Done;
      } else {
        var cursor := LotCursor(site.text, p.rows[|p.rows| - 1]);
        if cursor == "" || cursor in seenCursors { return Stuck(Pagination), cursors; }
        cursors := cursors + {cursor};
        step := Continue(site.lotsUrl(group, kind, cursor));
      }
    }

    /**
     * Follow the pages of one auction. Without an issue the walk ended on a final page, and only then.
     * No address is requested twice and at most `maxPages` are.
     */
    method FetchLots(group: string, kind: int)
      returns (f: Fetch, ghost pages: seq<PageRead>, ghost why: Ending)
      requires Valid()
      modifies this
      ensures Valid() && deadline == old(deadline)
      ensures requestCount - old(requestCount) == |log| - |old(log)|
      ensures old(log) <= log && NoDuplicates(log[|old(log)|..])
      ensures |pages| <= |log| - |old(log)| <= limits.maxPages
      ensures Walked(site, limits, group, kind, pages)
      ensures ReadFrom(site, world, group, log, |old(log)|, pages)
      ensures AccountsFor(f, pages) && AboutGroup(f.diagnostics, group)
      ensures f.Fetched? && f.issue.None? <==> Finished(limits, pages)
      ensures Ended(why, site, limits, world, group, kind, log, |old(log)|, pages, f)
      ensures why.Refused? && deadline.Some? ==> exists n :: old(readings) <= n < readings && Spent(n)
    {
      hide ReadAt, UnreadableAt, LotCursor, Objects, AllRows, Truthy, Final, Walked, ReadFrom, Successor,
        NoDuplicates, SetOf, BreaksOff;
      var rows: seq<Json>, invalid: nat, diagnostics: seq<Diagnostic> := [], 0, [];
      var url := site.lotsUrl(group, kind, "0");
      var seenUrls: set<string>, seenCursors: set<string> := {}, {};
      ghost var start := |log|;
      pages := [];
      NothingRead(site, limits, world, group, kind, log);
      var n := 0;
      while n < limits.maxPages
        invariant Valid() && deadline == old(deadline) && n <= limits.maxPages
        invariant old(log) <= log && |log| == start + n && |pages| == n
        invariant requestCount - old(requestCount) == n
        invariant seenUrls == SetOf(log[start..]) && NoDuplicates(log[start..])
        invariant Walked(site, limits, group, kind, pages) && ReadFrom(site, world, group, log, start, pages)
        invariant !Finished(limits, pages)
        invariant LeadsTo(site, limits, group, kind, pages, url)
        invariant readings >= old(readings)
        invariant forall c :: c in seenCursors ==>
          site.lotsUrl(group, kind, c) == url || site.lotsUrl(group, kind, c) in seenUrls
        invariant AboutGroup(diagnostics, group)
        invariant rows == Objects(AllRows(pages)) && |rows| + invalid == |AllRows(pages)|
      {
        if url in seenUrls {
          return Fetched(rows, invalid, Some(Pagination), diagnostics), pages, Cycle(url);
        }
        AskMore(site, world, group, log, start, pages, url);
        var page, issue := ReadPage(group, url);
        if issue.Some? {
          var evidence := if page.Problem? then [page.evidence] else [];
          why := if |log| == start + n then Refused else Unreadable(url);
          if rows != [] { return Fetched(rows, invalid, issue, diagnostics + evidence), pages, why; }
          return Aborted(issue.value, evidence), pages, why;
        }
        seenUrls := seenUrls + {url};
        if page.diagnostic.Some? { diagnostics := diagnostics + [page.diagnostic.value]; }
        var objects := Objects(page.rows);
        var read := PageRead(url, page.rows, page.next);
        OnePageMore(pages, read);
        WalkMore(site, limits, group, kind, pages, read);
        ReadMore(site, world, group, log, start, pages, read);
        pages := pages + [read];
        rows, invalid, n := rows + objects, invalid + (|page.rows| - |objects|), n + 1;
        var step, cursors := Advance(group, kind, read, seenCursors);
        match step
        case Done => return Fetched(rows, invalid, None, diagnostics), pages, EndOfList;
        case Stuck(cause) =>
          why := match Successor(site, group, kind, read) case Some(again) => Cycle(again) case None => DeadEnd;
          return Fetched(rows, invalid, Some(cause), diagnostics), pages, why;
        case Raised(cause) => return Aborted(cause, []), pages, DeadEnd;
        case Continue(next) => url, seenCursors := next, cursors;
      }
      f, why := Fetched(rows, invalid, Some(Pagination), diagnostics), PageLimit;
    }
  }
}
