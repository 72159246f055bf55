/**
 The crawl frontier (server/crawl.js): what the crawl knows of each URL, what an answer makes of it, and what adding
 URLs does. A page whose canonical is another page is a duplicate; its content is never lost to a cycle of canonicals.
 */
module Frontier {
  import opened Basics

  type Url = string

  datatype Kind = Page | Sitemap

  datatype Via = Seed | RobotsTxt | Guess | InSitemap | Link | CanonicalLink

  datatype State =
    | New | Kept | Hub | Unstructured | NoIndex | Duplicate | NotHtml | TooBig | Excluded | Denied | Missing | Gone
    | Failing | Read

  /** A row of the frontier. `next` is when it is due again; None is never. */
  datatype Row = Row(
    kind: Kind, depth: nat, via: Via, state: State, next: Option<int>, last: Option<int>, interval: Option<nat>,
    lastmod: Option<int>, status: Option<nat>, bodyHash: Option<string>, lastOk: Option<string>, items: nat, fails: nat)

  type Pages = map<Url, Row>

  datatype Config = Config(
    maxPages: nat, maxSitemaps: nat, pagesPerRun: nat, recrawlSec: nat, followLinks: bool, maxDepth: nat,
      robotsTtlMs: nat)

  /** Which URLs are on the crawl's hosts, match its patterns, and are allowed by robots.txt. */
  datatype Scope = Scope(inHost: Url -> bool, wanted: Url -> bool, allowed: Url -> bool)

  const DAY_MS := 86400 * 1000
  const GONE_RECHECK_MS := 30 * DAY_MS

  // ----- intervals -----

  /** Math.round(1.5 * n), halves up. */
  function OneAndAHalf(n: nat): nat {
    (3 * n + 1) / 2
  }

  function Grown(recrawl: nat, prev: Option<nat>): nat {
    Min(OneAndAHalf(if prev.None? || prev.value == 0 then recrawl else prev.value), recrawl * 4)
  }

  predicate IntervalOk(recrawl: nat, interval: Option<nat>) {
    interval.None? || recrawl <= interval.value <= 4 * recrawl
  }

  lemma GrownOk(recrawl: nat, prev: Option<nat>)
    requires IntervalOk(recrawl, prev)
    ensures IntervalOk(recrawl, Some(Grown(recrawl, prev)))
  {}

  function Power2(n: nat): nat {
    if n == 0 then 1 else 2 * Power2(n - 1)
  }

  function Backoff(recrawl: nat, fails: nat): nat
    requires fails > 0
  {
    Min(recrawl * 4000, 15 * 60 * 1000 * Power2(Min(fails - 1, 10)))
  }

  // ----- what an answer makes of a row -----

  datatype RetryAfter = Absent | Unreadable | Wait(ms: nat)

  /** What came of a request; a crash is an unexpected error, after it may have added URLs. */
  datatype Reply<B> =
    | HostClosed
    | Disallowed
    | AddressRefused
    | HopRefused
    | TooLarge
    | BadRedirect
    | NoAnswer
    | Answer(status: nat, retryAfter: RetryAfter, body: B)
    | Crash(tried: seq<Listed>, how: How)

  datatype PageBody = PageBody(
    html: bool, hash: string, noindex: bool, finalUrl: Url, canonical: Option<Url>, links: seq<Url>, found: nat,
    changed: bool, run: string)

  datatype SitemapBody = SitemapBody(hash: string, readable: bool, index: bool, entries: seq<Listed>)

  /** A URL to add, with the last change its sitemap names. */
  datatype Listed = Listed(url: Url, lastmod: Option<int>)

  /** How URLs are added: as what, found how, when, and up to how many of that kind. */
  datatype How = How(kind: Kind, depth: nat, via: Via, at: int, cap: nat)

  datatype Outcome = Answered | Unanswered | Neither

  /** What the run is told of a URL it handled. */
  datatype Report = Report(ran: bool, requested: bool, outcome: Outcome, stop: bool, notBefore: int)

  /** What becomes of a handled row (None: it stays as it is), and what the run is told. */
  datatype Handled = Handled(row: Option<Row>, report: Report)

  function Requested(row: Row, outcome: Outcome): Handled {
    Handled(Some(row), Report(true, true, outcome, false, 0))
  }

  function Failed(cfg: Config, r: Row, at: int): Row {
    r.(state := if r.state == New then Failing else r.state, fails := r.fails + 1, last := Some(at),
       next := Some(at + Backoff(cfg.recrawlSec, r.fails + 1)))
  }

  /** robots.txt and the request; None when there is a body to read. */
  function Request<B>(cfg: Config, r: Row, reply: Reply<B>, at: int): Option<Handled>
    requires !reply.Crash?
  {
    match reply
    case HostClosed => Some(Handled(None, Report(true, false, Neither, true, 0)))
    case Disallowed =>
      Some(Handled(Some(r.(state := Denied, next := Some(at + cfg.robotsTtlMs))),
        Report(true, false, Neither, false, 0)))
    case AddressRefused => Some(Handled(None, Report(true, false, Neither, true, 0)))
    case HopRefused =>
      Some(Requested(r.(state := Denied, last := Some(at), next := Some(at + cfg.recrawlSec * 1000)), Answered))
    case TooLarge => Some(Requested(r.(state := TooBig, last := Some(at), next := None), Answered))
    case BadRedirect =>
      Some(Requested(r.(state := Failing, last := Some(at), next := Some(at + cfg.recrawlSec * 4000)), Answered))
    case NoAnswer => Some(Requested(Failed(cfg, r, at), Unanswered))
    case Answer(status, retryAfter, _) => Common(cfg, r, status, retryAfter, at)
  }

  /** Statuses a page and a sitemap answer alike; None when the body is to be read. */
  function Common(cfg: Config, r: Row, status: nat, retryAfter: RetryAfter, at: int): Option<Handled> {
    if status == 429 || (status == 503 && retryAfter != Absent) then
      var wait := Min(if retryAfter.Wait? then retryAfter.ms else 10 * 60 * 1000, DAY_MS);
      Some(Handled(Some(r.(next := Some(at + wait))), Report(true, true, Neither, true, at + wait)))
    else if status == 404 || status == 410 then
      var gone := status == 410 || r.status == Some(404) || r.status == Some(410);
      Some(Requested(r.(state := if gone then Gone else Missing, status := Some(status), last := Some(at),
                        next := Some(at + if gone then GONE_RECHECK_MS else DAY_MS)), Answered))
    else if status != 200 && status != 203 && status != 304 then
      Some(Requested(Failed(cfg, r, at).(status := Some(status)),
                     if status >= 500 || status == 401 || status == 403 then Unanswered else Answered))
    else None
  }

  function Fetched(r: Row, status: nat, at: int): Row {
    r.(status := Some(status), last := Some(at), fails := 0)
  }

  function Same(cfg: Config, r: Row, status: nat, at: int): Row {
    var interval := Grown(cfg.recrawlSec, r.interval);
    Fetched(r, status, at).(interval := Some(interval), next := Some(at + interval * 1000))
  }

  /** A page up to where its canonical or its links may be added; None when it gets there. */
  function EarlyPage(cfg: Config, scope: Scope, u: Url, r: Row, reply: Reply<PageBody>, at: int): Option<Handled>
    requires !reply.Crash?
  {
    if !scope.inHost(u) || (r.via != Seed && !scope.wanted(u)) then
      Some(Handled(Some(r.(state := Excluded, next := None)), Report(false, false, Neither, false, 0)))
    else
      var early := Request(cfg, r, reply, at);
      if early.Some? then early
      else
        var status, body := reply.status, reply.body;
        if status == 304 then Some(Requested(Same(cfg, r, status, at), Answered))
        else if !body.html then
          Some(Requested(r.(state := NotHtml, status := Some(status), last := Some(at), next := None), Answered))
        else if r.bodyHash == Some(body.hash) && (r.state == Kept || r.state == Hub) then
          Some(Requested(Same(cfg, r, status, at), Answered))
        else if body.noindex then
          Some(Requested(Fetched(r, status, at).(state := NoIndex, next := Some(at + GONE_RECHECK_MS),
                                                 bodyHash := Some(body.hash), items := 0), Answered))
        else None
  }

  /** A page that stands for itself, once its links are added. */
  function ReadPage(cfg: Config, r: Row, status: nat, body: PageBody, at: int): Row {
    var row := Fetched(r, status, at).(bodyHash := Some(body.hash), items := body.found);
    if body.found > 0 then
      var interval := if body.changed then cfg.recrawlSec else Grown(cfg.recrawlSec, r.interval);
      row.(state := Kept, interval := Some(interval), next := Some(at + interval * 1000), lastOk := Some(body.run))
    else if Follows(cfg, r) && body.links != [] then
      var interval := Grown(cfg.recrawlSec, r.interval);
      row.(state := Hub, interval := Some(interval), next := Some(at + interval * 1000))
    else
      row.(state := Unstructured, next := if r.state == Kept then Some(at + cfg.recrawlSec * 4000) else None)
  }

  function DuplicateOf(r: Row, status: nat, body: PageBody, at: int): Row {
    Fetched(r, status, at).(state := Duplicate, next := None, bodyHash := Some(body.hash))
  }

  predicate Follows(cfg: Config, r: Row) {
    cfg.followLinks && r.depth < cfg.maxDepth
  }

  /** The canonical a page names, when it is another page of the crawl. */
  function CanonicalFor(scope: Scope, u: Url, body: PageBody): Option<Url> {
    if body.canonical.Some? && body.canonical.value != u && body.canonical.value != body.finalUrl
       && scope.inHost(body.canonical.value) && scope.wanted(body.canonical.value)
    then body.canonical else None
  }

  function Unlisted(urls: seq<Url>): seq<Listed> {
    seq(|urls|, i requires 0 <= i < |urls| => Listed(urls[i], None))
  }

  // ----- what adding URLs does -----

  function Urls(list: seq<Listed>): set<Url> {
    set i | 0 <= i < |list| :: list[i].url
  }

  lemma UrlsSnoc(list: seq<Listed>, l: Listed)
    ensures Urls(list + [l]) == Urls(list) + {l.url}
  {
    var more := list + [l];
    assert more[|list|] == l;
    forall u | u in Urls(list) ensures u in Urls(more) {
      var i :| 0 <= i < |list| && list[i].url == u;
      assert more[i].url == u;
    }
  }

  predicate Admits(scope: Scope, kind: Kind, u: Url) {
    scope.inHost(u) && (kind == Page ==> scope.wanted(u)) && scope.allowed(u)
  }

  /** The URLs that may be added, each once, as first listed. */
  function Admitted(scope: Scope, kind: Kind, list: seq<Listed>): (r: seq<Listed>)
    ensures forall u :: u in Urls(r) <==> u in Urls(list) && Admits(scope, kind, u)
  {
    if list == [] then []
    else
      var last := list[|list| - 1];
      var before := Admitted(scope, kind, list[..|list| - 1]);
      assert list == list[..|list| - 1] + [last];
      UrlsSnoc(list[..|list| - 1], last);
      UrlsSnoc(before, last);
      if last.url in Urls(before) || !Admits(scope, kind, last.url) then before else before + [last]
  }

  ghost predicate DistinctUrls(list: seq<Listed>) {
    forall i, j :: 0 <= i < j < |list| ==> list[i].url != list[j].url
  }

  lemma {:induction false} AdmittedDistinct(scope: Scope, kind: Kind, list: seq<Listed>)
    ensures DistinctUrls(Admitted(scope, kind, list))
  {
    if list != [] {
      AdmittedDistinct(scope, kind, list[..|list| - 1]);
    }
  }

  function LastmodOf(list: seq<Listed>, u: Url): Option<int> {
    if list == [] then None
    else if list[|list| - 1].url == u then list[|list| - 1].lastmod
    else LastmodOf(list[..|list| - 1], u)
  }

  /** A sitemap that names a change after the last fetch makes a page due, unless it was set aside for good. */
  function Touched(row: Row, lastmod: Option<int>, now: int): Row {
    if lastmod.Some? && row.last.Some? && lastmod.value > row.last.value
       && row.state != NoIndex && row.state != Duplicate && row.state != Excluded
    then row.(lastmod := lastmod, next := Some(if row.next.Some? then Min(row.next.value, now) else now))
    else row
  }

  function NewRow(how: How, lastmod: Option<int>): Row {
    Row(how.kind, how.depth, how.via, New, Some(how.at), None, None, lastmod, None, None, None, 0, 0)
  }

  function Of(f: Pages, kind: Kind): set<Url> {
    set u | u in f && f[u].kind == kind
  }

  function Refreshed(row: Row, u: Url, list: seq<Listed>, how: How): Row {
    if how.kind == Page then Touched(row, LastmodOf(list, u), how.at) else row
  }

  /**
   What adding a list of distinct URLs does, however it is cut into statements: known pages are made due where the list
   says so, unknown ones are added as new, the kind's count stays within the larger of its cap and what it was, and a
   URL is left out only once the cap is reached.
   */
  ghost predicate Enqueued(f: Pages, g: Pages, list: seq<Listed>, how: How) {
    && f.Keys <= g.Keys
    && (forall u :: u in f ==> g[u] == Refreshed(f[u], u, list, how))
    && (forall u :: u in g && u !in f ==> u in Urls(list) && g[u] == NewRow(how, LastmodOf(list, u)))
    && |Of(g, how.kind)| <= Max(how.cap, |Of(f, how.kind)|)
    && (forall u :: u in Urls(list) && u !in g ==> |Of(g, how.kind)| >= how.cap)
  }

  // ----- duplicates -----

  /** Ghost history: the pages marked duplicate, in order, and the canonical each was marked for. */
  datatype History = History(marked: seq<Url>, target: map<Url, Url>)

  ghost predicate MarkedOnce(h: History) {
    && (forall i, j :: 0 <= i < j < |h.marked| ==> h.marked[i] != h.marked[j])
    && (forall u :: u in h.target ==> u in h.marked)
  }

  ghost predicate TargetsKnown(f: Pages, h: History) {
    forall i :: 0 <= i < |h.marked| ==> h.marked[i] in h.target && h.target[h.marked[i]] in f
  }

  ghost predicate TargetsNotMarked(h: History) {
    forall i, j :: 0 <= j <= i < |h.marked| && h.marked[i] in h.target ==> h.target[h.marked[i]] != h.marked[j]
  }

  /** Each page was marked once, while its target was known and not itself a duplicate. */
  ghost predicate Chained(f: Pages, h: History) {
    MarkedOnce(h) && TargetsKnown(f, h) && TargetsNotMarked(h)
  }

  /**
   What every run keeps: duplicates are the marked pages and never due; intervals stay between one and four recrawls.
   */
  ghost predicate Sound(recrawl: nat, f: Pages, h: History) {
    && (forall u :: u in h.marked <==> u in f && f[u].state == Duplicate)
    && (forall u :: u in f && f[u].state == Duplicate ==> f[u].next.None?)
    && (forall u :: u in f ==> IntervalOk(recrawl, f[u].interval))
    && Chained(f, h)
  }

  /** Following canonical targets, n steps. */
  function Follow(target: map<Url, Url>, u: Url, n: nat): Url
    decreases n
  {
    if n == 0 then u else Follow(target, if u in target then target[u] else u, n - 1)
  }

  lemma {:induction false} FollowFrom(f: Pages, h: History, i: nat) returns (n: nat)
    requires Chained(f, h) && i < |h.marked|
    ensures 0 < n <= |h.marked| - i
    ensures Follow(h.target, h.marked[i], n) in f && Follow(h.target, h.marked[i], n) !in h.marked
    ensures forall k :: 0 <= k < n ==> Follow(h.target, h.marked[i], k) in h.marked
    decreases |h.marked| - i
  {
    var t := h.target[h.marked[i]];
    if t in h.marked {
      var j :| 0 <= j < |h.marked| && h.marked[j] == t;
      assert j > i;
      var m := FollowFrom(f, h, j);
      n := m + 1;
      forall k | 0 <= k < n ensures Follow(h.target, h.marked[i], k) in h.marked {
        assert k > 0 ==> Follow(h.target, h.marked[i], k) == Follow(h.target, t, k - 1);
      }
    } else {
      n := 1;
      assert Follow(h.target, h.marked[i], 1) == Follow(h.target, t, 0);
    }
  }

  /**
   A duplicate page never loses its content: following canonical targets from it stays on duplicates in the frontier and
   reaches, in at most as many steps as there are duplicates, a page of the frontier that is not a duplicate.
   */
  lemma DuplicateReachesContent(recrawl: nat, f: Pages, h: History, u: Url) returns (n: nat)
    requires Sound(recrawl, f, h) && u in f && f[u].state == Duplicate
    ensures 0 < n <= |h.marked|
    ensures var v := Follow(h.target, u, n); v in f && f[v].state != Duplicate
    ensures forall k :: 0 <= k < n ==> var w := Follow(h.target, u, k); w in f && f[w].state == Duplicate
  {
    assert u in h.marked;
    var i :| 0 <= i < |h.marked| && h.marked[i] == u;
    n := FollowFrom(f, h, i);
    forall k | 0 <= k < n ensures var w := Follow(h.target, u, k); w in f && f[w].state == Duplicate {
      assert Follow(h.target, u, k) in h.marked;
    }
  }

  /** Pages in a circle, each of which, if it was marked duplicate at all, was marked for the next one. */
  ghost predicate Circle(h: History, cycle: seq<Url>) {
    && cycle != []
    && forall i :: 0 <= i < |cycle| && cycle[i] in h.target ==> h.target[cycle[i]] == cycle[(i + 1) % |cycle|]
  }

  /** Following targets from a page of a circle stays in the circle as long as the pages are duplicates. */
  lemma {:induction false} CircleFollows(h: History, cycle: seq<Url>, i: nat, n: nat)
    requires Circle(h, cycle) && i < |cycle| && forall k :: 0 <= k < n ==> Follow(h.target, cycle[i], k) in h.target
    ensures Follow(h.target, cycle[i], n) in cycle
    decreases n
  {
    if n > 0 {
      var next := (i + 1) % |cycle|;
      assert Follow(h.target, cycle[i], 0) in h.target;
      forall k | 0 <= k < n - 1 ensures Follow(h.target, cycle[next], k) in h.target {
        assert Follow(h.target, cycle[i], k + 1) == Follow(h.target, cycle[next], k);
      }
      CircleFollows(h, cycle, next, n - 1);
    }
  }

  /** A page of the circle that holds its own content. */
  ghost predicate Content(f: Pages, cycle: seq<Url>, u: Url) {
    u in cycle && u in f && f[u].state != Duplicate
  }

  /**
   Following canonical targets from `u` reaches content in the circle, in at most as many steps as there are
   duplicates.
   */
  ghost predicate ReachesContent(f: Pages, h: History, cycle: seq<Url>, u: Url) {
    exists n :: 0 < n <= |h.marked| && Content(f, cycle, Follow(h.target, u, n))
  }

  lemma CircleReachesContent(recrawl: nat, f: Pages, h: History, cycle: seq<Url>, i: nat)
    requires Sound(recrawl, f, h) && Circle(h, cycle) && i < |cycle|
    requires cycle[i] in f && f[cycle[i]].state == Duplicate
    ensures ReachesContent(f, h, cycle, cycle[i])
  {
    var n := DuplicateReachesContent(recrawl, f, h, cycle[i]);
    forall k | 0 <= k < n ensures Follow(h.target, cycle[i], k) in h.target {
      assert Follow(h.target, cycle[i], k) in h.marked;
    }
    CircleFollows(h, cycle, i, n);
  }

  /**
   Canonicals that point in a circle, of any length, are never all duplicates: whatever pages of the circle were
   marked, from each of them following targets reaches a page of the circle that is in the frontier and no duplicate.
   */
  lemma NoDuplicateCycle(recrawl: nat, f: Pages, h: History, cycle: seq<Url>)
    requires Sound(recrawl, f, h) && Circle(h, cycle)
    ensures exists i :: 0 <= i < |cycle| && (cycle[i] !in f || f[cycle[i]].state != Duplicate)
    ensures forall i :: 0 <= i < |cycle| && cycle[i] in f && f[cycle[i]].state == Duplicate ==>
              ReachesContent(f, h, cycle, cycle[i])
  {
    forall i | 0 <= i < |cycle| && cycle[i] in f && f[cycle[i]].state == Duplicate
      ensures ReachesContent(f, h, cycle, cycle[i])
    {
      CircleReachesContent(recrawl, f, h, cycle, i);
    }
    if cycle[0] in f && f[cycle[0]].state == Duplicate {
      var n :| 0 < n <= |h.marked| && Content(f, cycle, Follow(h.target, cycle[0], n));
      var j :| 0 <= j < |cycle| && cycle[j] == Follow(h.target, cycle[0], n);
      assert f[cycle[j]].state != Duplicate;
    }
  }
}
