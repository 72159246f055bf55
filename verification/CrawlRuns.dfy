/**
 The crawler over its mutable frontier (server/crawl.js): one run ends within its bounds whatever the clock and the
 site do.
 */
module CrawlRuns {
  import opened Basics
  import opened Frontier
  import opened Crawl
  import opened Queueing

  /** What a run meets, by how often it has looked: whether it may go on, the time, and what URLs answer. */
  datatype World = World(alive: nat -> bool, clock: nat -> int, page: nat -> Got<PageBody>,
    sitemap: nat -> Got<SitemapBody>)

  datatype Seeded = Seeded(url: Url, kind: Kind, via: Via)

  // ----- what a run reports -----

  function Requests(reports: seq<Report>): nat {
    if reports == [] then 0
    else Requests(reports[..|reports| - 1]) + if reports[|reports| - 1].requested then 1 else 0
  }

  /** Requests in a row that got no usable answer. */
  function Streak(reports: seq<Report>): nat {
    if reports == [] then 0
    else
      var last, before := reports[|reports| - 1], Streak(reports[..|reports| - 1]);
      match last.outcome
      case Answered => 0
      case Unanswered => before + 1
      case Neither => before
  }

  const STREAK_LIMIT := 5

  /** The site failed: it asked the run to stop, or did not answer five times in a row. */
  predicate SiteFailed(reports: seq<Report>) {
    reports != [] && (reports[|reports| - 1].stop || Streak(reports) >= STREAK_LIMIT)
  }

  predicate AnyAnswered(reports: seq<Report>) {
    exists i :: 0 <= i < |reports| && reports[i].outcome == Answered
  }

  predicate AnyRan(reports: seq<Report>) {
    exists i :: 0 <= i < |reports| && reports[i].ran
  }

  /** A URL handled: its row as the batch read it, at which look at the clock. */
  datatype Visit = Visit(url: Url, row: Row, look: nat)

  /** Why a run ended; `look` is when it looked last. */
  datatype Ending = SiteStopped | BudgetSpent | OutOfTime(look: nat) | NothingDue(look: nat)

  datatype Summary = Summary(
    visits: seq<Visit>, reports: seq<Report>, anyFailure: bool, anySuccess: bool, ending: Ending, looks: nat,
      more: bool)

  /** Each URL was handled at most once, and only when it was due. */
  ghost predicate VisitsOk(world: World, visits: seq<Visit>) {
    && (forall i, j :: 0 <= i < j < |visits| ==> visits[i].url != visits[j].url)
    && (forall i :: 0 <= i < |visits| ==> IsDue(visits[i].row, visits[i].row.kind, world.clock(visits[i].look)))
  }

  /**
   What a run tells: each URL was handled at most once, when due; no more requests were made than the source allows; and
   the run failed exactly when the site did, at the last URL and not before.
   */
  ghost predicate Summarizes(cfg: Config, world: World, s: Summary) {
    && |s.visits| == |s.reports| && VisitsOk(world, s.visits)
    && Requests(s.reports) <= cfg.pagesPerRun
    && (s.anyFailure <==> SiteFailed(s.reports))
    && (forall n :: 0 <= n < |s.reports| ==> !SiteFailed(s.reports[..n]))
    && (s.anySuccess <==> AnyAnswered(s.reports) || (!s.anyFailure && !AnyRan(s.reports)))
  }

  /** The sitemaps that would be next are all done, and then the pages too. */
  ghost predicate NothingLeft(f: Pages, done: set<Url>, now: int, budget: nat) {
    && (exists sitemaps :: IsBatch(f, Due(f, Sitemap, now), 5, sitemaps) && Undone(sitemaps, done) == [])
    && (exists pages :: IsBatch(f, Due(f, Page, now), Min(budget, 50), pages) && Undone(pages, done) == [])
  }

  /**
   A run goes on until the site fails, its requests or its time are used up, or nothing is due that it has not
   handled.
   */
  ghost predicate EndedRightly(cfg: Config, world: World, f: Pages, s: Summary) {
    && match s.ending {
         case SiteStopped => s.anyFailure
         case BudgetSpent => Requests(s.reports) == cfg.pagesPerRun
         case OutOfTime(look) => !world.alive(look)
         case NothingDue(look) => NothingLeft(f, Visited(s.visits), world.clock(look),
           Max(0, cfg.pagesPerRun - Requests(s.reports)))
       }
    && (s.more <==> exists u :: u in f && f[u].next.Some? && f[u].next.value <= world.clock(s.looks))
  }

  // ----- what a run does to the frontier -----

  /** The handling of one URL: at which look, and the frontier and history before, on the way and after. */
  datatype Handling = Handling(
    look: nat, before: Pages, history: History, mid: Pages, grown: Pages, after: Pages, historyAfter: History)

  /** A handling is the step its row's kind and the answer call for. */
  ghost predicate HandledAs(cfg: Config, scope: Scope, world: World, v: Visit, x: Handling, report: Report) {
    && v.url in x.before
    && if v.row.kind == Sitemap then
         var got := world.sitemap(x.look);
         && x.historyAfter == x.history
         && if got.reply.Crash? then CrashStep(cfg, scope, x.before, v.url, v.row, got, x.mid, x.after, report)
            else SitemapStep(cfg, scope, x.before, v.url, v.row, got, x.grown, x.after, report)
       else
         var got := world.page(x.look);
         if got.reply.Crash? then
           x.historyAfter == x.history && CrashStep(cfg, scope, x.before, v.url, v.row, got, x.mid, x.after, report)
         else
           PageStep(cfg, scope, x.before, x.history, v.url, v.row, got, x.mid, x.grown, x.after, x.historyAfter, report)
  }

  /** From frontier `f` and history `h`, the visits' handlings, one after the other, lead to `g` and `k`. */
  ghost predicate Traced(cfg: Config, scope: Scope, world: World, f: Pages, h: History, visits: seq<Visit>,
                         reports: seq<Report>,
                         trace: seq<Handling>, g: Pages, k: History)
    decreases |trace|
  {
    && |trace| == |visits| == |reports|
    && if trace == [] then f == g && h == k
       else
         var n := |trace| - 1;
         && trace[n].after == g && trace[n].historyAfter == k
              && HandledAs(cfg, scope, world, visits[n], trace[n], reports[n])
         && Traced(cfg, scope, world, f, h, visits[..n], reports[..n], trace[..n], trace[n].before, trace[n].history)
  }

  lemma TracedNext(cfg: Config, scope: Scope, world: World, f: Pages, h: History, visits: seq<Visit>,
                   reports: seq<Report>, trace: seq<Handling>, v: Visit, report: Report, x: Handling)
    requires Traced(cfg, scope, world, f, h, visits, reports, trace, x.before, x.history)
             && HandledAs(cfg, scope, world, v, x, report)
    ensures Traced(cfg, scope, world, f, h, visits + [v], reports + [report], trace + [x], x.after, x.historyAfter)
  {
    var n := |trace|;
    assert (visits + [v])[..n] == visits && (reports + [report])[..n] == reports && (trace + [x])[..n] == trace;
  }

  /** The seeds not known yet are added as new, due at once; known rows stay. */
  ghost predicate SeedsAdded(f: Pages, g: Pages, seeds: seq<Seeded>, at: int) {
    && f.Keys <= g.Keys && (forall u :: u in f ==> g[u] == f[u])
    && (forall i :: 0 <= i < |seeds| ==> seeds[i].url in g)
    && (forall u :: u in g && u !in f ==> exists i :: 0 <= i < |seeds| && IsSeed(seeds[i], u, g[u], at))
  }

  predicate IsSeed(s: Seeded, u: Url, row: Row, at: int) {
    s.url == u && row == NewRow(How(s.kind, 0, s.via, at, 0), None)
  }

  // ----- the books of a run under way -----

  function Visited(visits: seq<Visit>): set<Url> {
    set i | 0 <= i < |visits| :: visits[i].url
  }

  /** What the run loop carries from URL to URL. */
  datatype Book = Book(
    visits: seq<Visit>, reports: seq<Report>, done: set<Url>, budget: nat, streak: nat, answered: bool, ran: bool,
      failed: bool)

  /** The book agrees with the reports in it, and the run has gone on only while the site had not failed. */
  ghost predicate Balanced(cfg: Config, world: World, b: Book) {
    && |b.visits| == |b.reports| && VisitsOk(world, b.visits) && b.done == Visited(b.visits)
    && b.budget + Requests(b.reports) == cfg.pagesPerRun && b.streak == Streak(b.reports)
    && (b.answered <==> AnyAnswered(b.reports)) && (b.ran <==> AnyRan(b.reports))
         && (b.failed <==> SiteFailed(b.reports))
    && (forall n :: 0 <= n < |b.reports| ==> !SiteFailed(b.reports[..n]))
  }

  predicate Live(world: World, look: nat, b: Book) {
    !b.failed && b.budget > 0 && world.alive(look)
  }

  function Entered(b: Book, v: Visit, r: Report): Book
    requires b.budget > 0
  {
    var streak := match r.outcome case Answered => 0 case Unanswered => b.streak + 1 case Neither => b.streak;
    Book(b.visits + [v], b.reports + [r], b.done + {v.url}, if r.requested then b.budget - 1 else b.budget, streak,
         b.answered || r.outcome == Answered, b.ran || r.ran, r.stop || streak >= STREAK_LIMIT)
  }

  lemma VisitedSnoc(visits: seq<Visit>, v: Visit)
    ensures Visited(visits + [v]) == Visited(visits) + {v.url}
  {
    var more := visits + [v];
    assert more[|visits|] == v;
    forall u | u in Visited(visits) ensures u in Visited(more) {
      var i :| 0 <= i < |visits| && visits[i].url == u;
      assert more[i].url == u;
    }
  }

  lemma AnySnoc(reports: seq<Report>, r: Report)
    ensures AnyAnswered(reports + [r]) <==> AnyAnswered(reports) || r.outcome == Answered
    ensures AnyRan(reports + [r]) <==> AnyRan(reports) || r.ran
  {
    var more := reports + [r];
    assert more[|reports|] == r && forall i :: 0 <= i < |reports| ==> more[i] == reports[i];
  }

  lemma FailedSnoc(reports: seq<Report>, r: Report)
    requires !SiteFailed(reports) && forall n :: 0 <= n < |reports| ==> !SiteFailed(reports[..n])
    ensures forall n :: 0 <= n < |reports + [r]| ==> !SiteFailed((reports + [r])[..n])
  {
    forall n | 0 <= n < |reports + [r]| ensures !SiteFailed((reports + [r])[..n]) {
      assert (reports + [r])[..n] == if n < |reports| then reports[..n] else reports;
    }
  }

  lemma EnteredBalanced(cfg: Config, world: World, b: Book, v: Visit, r: Report)
    requires Balanced(cfg, world, b) && !b.failed && b.budget > 0
    requires v.url !in b.done && IsDue(v.row, v.row.kind, world.clock(v.look))
    ensures Balanced(cfg, world, Entered(b, v, r))
  {
    assert Visited(b.visits + [v]) == b.done + {v.url} by { VisitedSnoc(b.visits, v); }
    assert VisitsOk(world, b.visits + [v]) by { VisitsNext(world, b.visits, v); }
    AnySnoc(b.reports, r);
    FailedSnoc(b.reports, r);
    ReportsSnoc(b.reports, r);
  }

  lemma VisitsNext(world: World, visits: seq<Visit>, v: Visit)
    requires VisitsOk(world, visits) && v.url !in Visited(visits) && IsDue(v.row, v.row.kind, world.clock(v.look))
    ensures VisitsOk(world, visits + [v])
  {
    assert forall i :: 0 <= i < |visits| ==> visits[i].url in Visited(visits);
  }

  lemma ReportsSnoc(reports: seq<Report>, r: Report)
    ensures var more, before := reports + [r], Streak(reports);
            && Requests(more) == Requests(reports) + (if r.requested then 1 else 0)
            && Streak(more) == (match r.outcome case Answered => 0 case Unanswered => before + 1 case Neither => before)
            && (SiteFailed(more) <==> r.stop || Streak(more) >= STREAK_LIMIT)
  {
    assert (reports + [r])[..|reports|] == reports;
  }

  function Closed(b: Book, ending: Ending, looks: nat, more: bool): Summary {
    Summary(b.visits, b.reports, b.failed, b.answered || (!b.failed && !b.ran), ending, looks, more)
  }

  function Why(b: Book, nothing: Option<Ending>, look: nat): Ending {
    if nothing.Some? then nothing.value
    else if b.failed then SiteStopped
    else if b.budget == 0 then BudgetSpent
    else OutOfTime(look)
  }

  lemma EndsRightly(cfg: Config, world: World, f: Pages, b: Book, nothing: Option<Ending>, look: nat, more: bool)
    requires Balanced(cfg, world, b)
    requires if nothing.Some? then
               nothing.value == NothingDue(look) && NothingLeft(f, b.done, world.clock(look), b.budget)
             else !Live(world, look, b)
    requires more <==> exists u :: u in f && f[u].next.Some? && f[u].next.value <= world.clock(look)
    ensures Summarizes(cfg, world, Closed(b, Why(b, nothing, look), look, more))
    ensures EndedRightly(cfg, world, f, Closed(b, Why(b, nothing, look), look, more))
  {}

  /** What a whole run keeps, from frontier `f` and history `h`: it is sound, and loses no page and no duplicate. */
  ghost predicate Since(cfg: Config, f: Pages, h: History, g: Pages, k: History) {
    && Sound(cfg.recrawlSec, g, k)
    && f.Keys <= g.Keys && h.marked <= k.marked
    && forall u :: u in f && f[u].state == Duplicate ==> g[u] == f[u]
  }

  lemma SinceNext(cfg: Config, f: Pages, h: History, m: Pages, j: History, u: Url, g: Pages, k: History,
                  requested: bool)
    requires Since(cfg, f, h, m, j) && Keeps(cfg, m, j, u, g, k, requested) && u in m && m[u].state != Duplicate
    ensures Since(cfg, f, h, g, k)
  {
    forall v | v in f && f[v].state == Duplicate ensures g[v] == f[v] {
      assert SameButDue(m[v], g[v]);
    }
  }

  /** The rest of a batch: still in the frontier as it was read, but for when it is due, and not handled. */
  ghost predicate Pending(rows: Pages, f: Pages, batch: seq<Url>, i: nat, done: set<Url>) {
    && (forall j :: i <= j < |batch| ==> batch[j] in f && batch[j] in rows && SameButDue(rows[batch[j]], f[batch[j]]))
    && (forall j :: i <= j < |batch| ==> batch[j] !in done && rows[batch[j]].state != Duplicate)
  }

  /** A batch that is due is pending: a duplicate never is due. */
  lemma PendingAll(recrawl: nat, f: Pages, h: History, batch: seq<Url>, now: int, done: set<Url>)
    requires Sound(recrawl, f, h) && forall u :: u in batch ==> u !in done && u in f && IsDue(f[u], f[u].kind, now)
    ensures Pending(f, f, batch, 0, done)
  {
    forall j | 0 <= j < |batch| ensures batch[j] in f && batch[j] !in done && f[batch[j]].state != Duplicate {
      assert batch[j] in batch;
    }
  }

  lemma PendingNext(cfg: Config, rows: Pages, f: Pages, h: History, g: Pages, k: History, batch: seq<Url>, i: nat,
                    done: set<Url>, requested: bool)
    requires i < |batch| && NoRepeats(batch) && Pending(rows, f, batch, i, done)
    requires Keeps(cfg, f, h, batch[i], g, k, requested)
    ensures Pending(rows, g, batch, i + 1, done + {batch[i]})
  {
    forall j | i + 1 <= j < |batch| ensures batch[j] in g && SameButDue(rows[batch[j]], g[batch[j]]) {
      assert SameButDue(f[batch[j]], g[batch[j]]);
    }
  }

  lemma SeedNext(f: Pages, g: Pages, seeds: seq<Seeded>, i: nat, at: int)
    requires i < |seeds| && SeedsAdded(f, g, seeds[..i], at)
    ensures var s := seeds[i];
            SeedsAdded(f, if s.url in g then g
              else g[s.url := NewRow(How(s.kind, 0, s.via, at, 0), None)], seeds[..i + 1], at)
  {
    var s := seeds[i];
    var more := seeds[..i + 1];
    var g' := if s.url in g then g else g[s.url := NewRow(How(s.kind, 0, s.via, at, 0), None)];
    assert more[i] == s && forall j :: 0 <= j < i ==> more[j] == seeds[..i][j];
    forall u | u in g' && u !in f ensures exists j :: 0 <= j < |more| && IsSeed(more[j], u, g'[u], at) {
      if u in g {
        var j :| 0 <= j < i && IsSeed(seeds[..i][j], u, g[u], at);
        assert IsSeed(more[j], u, g'[u], at);
      } else {
        assert IsSeed(more[i], u, g'[u], at);
      }
    }
  }

  lemma NewKeeps(recrawl: nat, f: Pages, h: History, s: Seeded, at: int)
    requires Sound(recrawl, f, h)
    ensures Sound(recrawl, if s.url in f then f else f[s.url := NewRow(How(s.kind, 0, s.via, at, 0), None)], h)
  {}

  class Crawler {
    const cfg: Config
    const scope: Scope
    var frontier: Pages
    ghost var history: History

    constructor (cfg: Config, scope: Scope)
      ensures this.cfg == cfg && this.scope == scope && frontier == map[] && history == History([], map[])
      ensures Sound(cfg.recrawlSec, frontier, history)
    {
      this.cfg, this.scope := cfg, scope;
      frontier, history := map[], History([], map[]);
    }

    // ----- adding URLs -----

    method TouchLastmod(list: seq<Listed>, how: How)
      requires DistinctUrls(list) && how.kind == Page
      modifies this`frontier
      ensures frontier.Keys == old(frontier).Keys
      ensures forall u :: u in frontier ==> frontier[u] == Refreshed(old(frontier)[u], u, list, how)
    {
      var i := 0;
      while i < |list|
        invariant 0 <= i <= |list| && frontier.Keys == old(frontier).Keys
        invariant forall u :: u in frontier ==> frontier[u] == Refreshed(old(frontier)[u], u, list[..i], how)
      {
        var l := list[i];
        assert list[..i + 1] == list[..i] + [l];
        forall u ensures LastmodOf(list[..i + 1], u) == if l.url == u then l.lastmod else LastmodOf(list[..i], u) {
          LastmodSnoc(list[..i], l, u);
        }
        assert LastmodOf(list[..i], l.url) == None by { LastmodAbsent(list[..i], l.url); }
        if l.url in frontier {
          frontier := frontier[l.url := Touched(frontier[l.url], l.lastmod, how.at)];
        }
        i := i + 1;
      }
      assert list[..i] == list;
    }

    method AddMany(list: seq<Listed>, how: How, room: nat) returns (added: nat)
      requires DistinctUrls(list)
      modifies this`frontier
      ensures AddedUpTo(old(frontier), frontier, list, how, room, added)
    {
      ghost var m := frontier;
      AddedNothing(m, list, how, room);
      added := 0;
      var i := 0;
      while i < |list|
        invariant 0 <= i <= |list|
        invariant AddedUpTo(m, frontier, list[..i], how, room, added)
      {
        added := AddNext(m, list, i, how, room, added);
        i := i + 1;
      }
      AddedAll(m, frontier, list, how, room, added);
    }

    method AddNext(ghost m: Pages, list: seq<Listed>, i: nat, how: How, room: nat, before: nat) returns (added: nat)
      requires DistinctUrls(list) && i < |list| && AddedUpTo(m, frontier, list[..i], how, room, before)
      modifies this`frontier
      ensures AddedUpTo(m, frontier, list[..i + 1], how, room, added)
    {
      AddedNext(m, frontier, list, i, how, room, before);
      added := before;
      if list[i].url !in frontier && added < room {
        frontier := frontier[list[i].url := NewRow(how, list[i].lastmod)];
        added := added + 1;
      }
    }

    method EnqueueChunk(list: seq<Listed>, how: How) returns (added: nat)
      requires DistinctUrls(list)
      modifies this`frontier
      ensures Enqueued(old(frontier), frontier, list, how) && added == |frontier| - |old(frontier)|
    {
      ghost var f := frontier;
      if how.kind == Page {
        TouchLastmod(list, how);
      }
      ghost var m := frontier;
      assert Of(m, how.kind) == Of(f, how.kind) by {
        assert forall u :: u in f ==> m[u].kind == f[u].kind;
      }
      assert |m| == |m.Keys| && |f| == |f.Keys|;
      added := AddMany(list, how, Max(how.cap - |Of(frontier, how.kind)|, 0));
      TouchedAndAdded(f, m, frontier, list, how, added);
    }

    /** Adds what may be added of a list, and tells how many URLs that were. */
    method Enqueue(list: seq<Listed>, how: How) returns (added: nat)
      modifies this`frontier
      ensures Enqueued(old(frontier), frontier, Admitted(scope, how.kind, list), how)
      ensures added == |frontier| - |old(frontier)|
    {
      var urls: seq<Listed> := [];
      var seen: set<Url> := {};
      var i := 0;
      while i < |list|
        invariant 0 <= i <= |list| && frontier == old(frontier)
        invariant urls == Admitted(scope, how.kind, list[..i]) && seen == Urls(urls)
      {
        assert list[..i + 1][..i] == list[..i];
        if list[i].url !in seen && Admits(scope, how.kind, list[i].url) {
          UrlsSnoc(urls, list[i]);
          seen := seen + {list[i].url};
          urls := urls + [list[i]];
        }
        i := i + 1;
      }
      assert list[..i] == list;
      AdmittedDistinct(scope, how.kind, list);
      added := EnqueueAll(urls, how);
    }

    method EnqueueAll(urls: seq<Listed>, how: How) returns (added: nat)
      requires DistinctUrls(urls)
      modifies this`frontier
      ensures Enqueued(old(frontier), frontier, urls, how) && added == |frontier| - |old(frontier)|
    {
      added := 0;
      var i := 0;
      ghost var f := frontier;
      EnqueuedNothing(f, how);
      while i < |urls|
        invariant 0 <= i <= |urls|
        invariant Enqueued(f, frontier, urls[..i], how) && added == |frontier| - |f|
      {
        var next := Min(i + CHUNK, |urls|);
        ghost var m := frontier;
        var more := EnqueueChunk(urls[i..next], how);
        added := added + more;
        assert Enqueued(f, frontier, urls[..next], how) by {
          EnqueuedNext(f, m, frontier, urls, i, next, how);
        }
        i := next;
      }
      assert urls[..i] == urls;
    }

    /** Every run: the seeds, and the sitemaps robots.txt names. Known rows are left as they are. */
    method AddSeeds(seeds: seq<Seeded>, at: int)
      requires Sound(cfg.recrawlSec, frontier, history)
      modifies this`frontier
      ensures Sound(cfg.recrawlSec, frontier, history) && SeedsAdded(old(frontier), frontier, seeds, at)
    {
      ghost var f := frontier;
      var i := 0;
      while i < |seeds|
        invariant 0 <= i <= |seeds| && Sound(cfg.recrawlSec, frontier, history)
                  && SeedsAdded(f, frontier, seeds[..i], at)
      {
        var s := seeds[i];
        ghost var g := frontier;
        if s.url !in frontier {
          frontier := frontier[s.url := NewRow(How(s.kind, 0, s.via, at, 0), None)];
        }
        assert SeedsAdded(f, frontier, seeds[..i + 1], at) by { SeedNext(f, g, seeds, i, at); }
        assert Sound(cfg.recrawlSec, frontier, history) by { NewKeeps(cfg.recrawlSec, g, history, s, at); }
        i := i + 1;
      }
      assert seeds[..i] == seeds;
    }

    // ----- handling one URL -----

    method Save(u: Url, row: Option<Row>)
      requires u in frontier
      modifies this`frontier
      ensures frontier == Saved(old(frontier), u, row)
    {
      if row.Some? {
        frontier := frontier[u := row.value.(lastmod := frontier[u].lastmod)];
      }
    }

    method FetchPage(u: Url, r: Row, got: Got<PageBody>) returns (report: Report, ghost mid: Pages, ghost grown: Pages)
      requires Sound(cfg.recrawlSec, frontier, history)
      requires u in frontier && SameButDue(r, frontier[u]) && r.state != Duplicate && !got.reply.Crash?
      modifies this`frontier, this`history
      ensures PageStep(cfg, scope, old(frontier), old(history), u, r, got, mid, grown, frontier, history, report)
    {
      mid, grown := frontier, frontier;
      var early := EarlyPage(cfg, scope, u, r, got.reply, got.at);
      if early.Some? {
        Save(u, early.value.row);
        return early.value.report, mid, grown;
      }
      report, mid, grown := ReadBody(u, r, got);
    }

    /** A body that is read: its canonical looked up and maybe added, then the page marked, or its links added. */
    method ReadBody(u: Url, r: Row, got: Got<PageBody>) returns (report: Report, ghost mid: Pages, ghost grown: Pages)
      requires u in frontier && got.reply.Answer?
      modifies this`frontier, this`history
      ensures PageRead(cfg, scope, old(frontier), old(history), u, r, got, mid, grown, frontier, history, report)
    {
      var status, body := got.reply.status, got.reply.body;
      var canonical := CanonicalFor(scope, u, body);
      var marks := LookUp(r, canonical, got.later);
      mid, grown, report := frontier, frontier, Report(true, true, Answered, false, 0);
      if marks {
        Save(u, Some(DuplicateOf(r, status, body, got.at)));
        history := History(history.marked + [u], history.target[u := canonical.value]);
      } else {
        var how := PagesHow(cfg, r.depth + 1, Link, got.later);
        if Follows(cfg, r) {
          var _ := Enqueue(Unlisted(body.links), how);
        } else {
          var _ := EnqueueAll([], how);
        }
        grown := frontier;
        Save(u, Some(ReadPage(cfg, r, status, body, got.at)));
      }
    }

    /** Is the canonical known and no duplicate, or could it be added just now? */
    method LookUp(r: Row, canonical: Option<Url>, at: int) returns (marks: bool)
      modifies this`frontier
      ensures CanonicalStep(cfg, scope, old(frontier), r, canonical, at, frontier)
      ensures old(frontier).Keys <= frontier.Keys && marks == Marks(old(frontier), frontier, canonical)
    {
      marks := false;
      if canonical.Some? {
        if canonical.value in frontier {
          marks := frontier[canonical.value].state != Duplicate;
        } else {
          var added := Enqueue(Unlisted([canonical.value]), PagesHow(cfg, r.depth, CanonicalLink, at));
          marks := added > 0;
        }
      }
    }

    method FetchSitemap(u: Url, r: Row, got: Got<SitemapBody>) returns (report: Report, ghost grown: Pages)
      requires u in frontier && !got.reply.Crash?
      modifies this`frontier
      ensures SitemapStep(cfg, scope, old(frontier), u, r, got, grown, frontier, report)
    {
      grown := frontier;
      var early := EarlySitemap(cfg, r, got.reply, got.at);
      if early.Some? {
        Save(u, early.value.row);
        return early.value.report, grown;
      }
      var body := got.reply.body;
      var how := EntriesHow(cfg, body, got.later);
      var _ := Enqueue(body.entries, how);
      grown, report := frontier, Report(true, true, Answered, false, 0);
      Save(u, Some(ReadSitemap(cfg, r, got.reply.status, body, got.at)));
    }

    method Fail<B>(u: Url, r: Row, got: Got<B>) returns (report: Report, ghost mid: Pages)
      requires u in frontier && got.reply.Crash?
      modifies this`frontier
      ensures CrashStep(cfg, scope, old(frontier), u, r, got, mid, frontier, report)
    {
      var _ := Enqueue(got.reply.tried, got.reply.how);
      mid, report := frontier, Report(true, true, Unanswered, false, 0);
      Save(u, Some(Crashed(cfg, r, got.later)));
    }

    /** One URL of a batch: its page or sitemap, or the failure of it. */
    method Handle(u: Url, r: Row, world: World, look: nat, ghost v: Visit) returns (report: Report, ghost x: Handling)
      requires Sound(cfg.recrawlSec, frontier, history)
      requires u in frontier && SameButDue(r, frontier[u]) && r.state != Duplicate && v.url == u && v.row == r
      modifies this`frontier, this`history
      ensures Keeps(cfg, old(frontier), old(history), u, frontier, history, report.requested)
      ensures x.before == old(frontier) && x.history == old(history) && x.after == frontier && x.historyAfter == history
      ensures HandledAs(cfg, scope, world, v, x, report)
    {
      ghost var f, h, mid, grown := frontier, history, frontier, frontier;
      if r.kind == Sitemap {
        var got := world.sitemap(look);
        if got.reply.Crash? {
          report, mid := Fail(u, r, got);
          CrashStepKeeps(cfg, scope, f, h, u, r, got, mid, frontier, report);
        } else {
          report, grown := FetchSitemap(u, r, got);
          SitemapStepKeeps(cfg, scope, f, h, u, r, got, grown, frontier, report);
        }
      } else {
        var got := world.page(look);
        if got.reply.Crash? {
          report, mid := Fail(u, r, got);
          CrashStepKeeps(cfg, scope, f, h, u, r, got, mid, frontier, report);
        } else {
          report, mid, grown := FetchPage(u, r, got);
          PageStepKeeps(cfg, scope, f, h, u, r, got, mid, grown, frontier, history, report);
        }
      }
      x := Handling(look, f, h, mid, grown, frontier, history);
    }

    // ----- a run -----

    /** The next batch: sitemaps that are due, else pages, without what this run has handled. */
    method NextBatch(now: int, budget: nat, done: set<Url>) returns (batch: seq<Url>, ghost sitemaps: seq<Url>,
                     ghost pages: seq<Url>)
      ensures IsBatch(frontier, Due(frontier, Sitemap, now), 5, sitemaps)
      ensures Undone(sitemaps, done) == [] ==> IsBatch(frontier, Due(frontier, Page, now), Min(budget, 50), pages)
      ensures batch == if Undone(sitemaps, done) != [] then Undone(sitemaps, done) else Undone(pages, done)
      ensures NoRepeats(batch) && (batch == [] ==> NothingLeft(frontier, done, now, budget))
      ensures forall u :: u in batch ==> u !in done && u in frontier && IsDue(frontier[u], frontier[u].kind, now)
    {
      var due := TakeDue(frontier, Due(frontier, Sitemap, now), 5);
      BatchDistinct(frontier, Due(frontier, Sitemap, now), 5, due);
      UndoneDistinct(due, done);
      batch, sitemaps, pages := Undone(due, done), due, [];
      if batch == [] {
        due := TakeDue(frontier, Due(frontier, Page, now), Min(budget, 50));
        BatchDistinct(frontier, Due(frontier, Page, now), Min(budget, 50), due);
        UndoneDistinct(due, done);
        batch, pages := Undone(due, done), due;
      }
    }

    /**
     One run: seeds, then sitemaps and pages as they are due, until the requests or the time are used up, the site
     fails, or nothing is due. It ends whatever `world` holds.
     */
    method Run(seeds: seq<Seeded>, world: World) returns (s: Summary, ghost seeded: Pages, ghost trace: seq<Handling>)
      requires Sound(cfg.recrawlSec, frontier, history)
      modifies this`frontier, this`history
      ensures Since(cfg, old(frontier), old(history), frontier, history)
      ensures Summarizes(cfg, world, s) && EndedRightly(cfg, world, frontier, s)
      ensures SeedsAdded(old(frontier), seeded, seeds, world.clock(0))
      ensures Traced(cfg, scope, world, seeded, old(history), s.visits, s.reports, trace, frontier, history)
    {
      ghost var f0, h0 := frontier, history;
      AddSeeds(seeds, world.clock(0));
      seeded := frontier;
      var b, look, nothing;
      b, look, nothing, trace := HandleDue(world, f0, h0);
      var more := exists u :: u in frontier && frontier[u].next.Some? && frontier[u].next.value <= world.clock(look);
      s := Closed(b, Why(b, nothing, look), look, more);
      EndsRightly(cfg, world, frontier, b, nothing, look, more);
    }

    /** The loop over batches. It ends: every round that asks nothing of the site leaves fewer URLs to handle. */
    method HandleDue(world: World, ghost f0: Pages, ghost h0: History)
      returns (b: Book, look: nat, nothing: Option<Ending>, ghost trace: seq<Handling>)
      requires Since(cfg, f0, h0, frontier, history)
      modifies this`frontier, this`history
      ensures Since(cfg, f0, h0, frontier, history) && Balanced(cfg, world, b)
      ensures Traced(cfg, scope, world, old(frontier), old(history), b.visits, b.reports, trace, frontier, history)
      ensures if nothing.Some? then nothing.value == NothingDue(look)
              && NothingLeft(frontier, b.done, world.clock(look), b.budget)
              else !Live(world, look, b)
    {
      ghost var seeded, h := frontier, history;
      b, look, nothing, trace := Book([], [], {}, cfg.pagesPerRun, 0, false, false, false), 0, None, [];
      while Live(world, look, b)
        invariant Since(cfg, f0, h0, frontier, history)
        invariant Balanced(cfg, world, b)
        invariant Traced(cfg, scope, world, seeded, h, b.visits, b.reports, trace, frontier, history)
        decreases !b.failed, b.budget, frontier.Keys - b.done
      {
        look := look + 1;
        var batch, _, _ := NextBatch(world.clock(look), b.budget, b.done);
        if batch == [] { return b, look, Some(NothingDue(look)), trace; }
        var ended;
        ghost var more;
        b, look, ended, more := HandleBatch(batch, b, world, look, f0, h0, seeded, h, trace);
        trace := trace + more;
        if ended { return b, look, None, trace; }
      }
    }

    /** A batch, URL by URL, while the run is live. A URL that asks nothing of the site is handled and so not left. */
    method HandleBatch(batch: seq<Url>, b: Book, world: World, look: nat, ghost f0: Pages, ghost h0: History,
                       ghost seeded: Pages, ghost h: History, ghost trace: seq<Handling>)
      returns (c: Book, next: nat, ended: bool, ghost more: seq<Handling>)
      requires batch != [] && NoRepeats(batch) && Since(cfg, f0, h0, frontier, history) && Balanced(cfg, world, b)
               && !b.failed
      requires forall u :: u in batch ==>
                 u !in b.done && u in frontier && IsDue(frontier[u], frontier[u].kind, world.clock(look))
      requires Traced(cfg, scope, world, seeded, h, b.visits, b.reports, trace, frontier, history)
      modifies this`frontier, this`history
      ensures Since(cfg, f0, h0, frontier, history) && Balanced(cfg, world, c)
      ensures Traced(cfg, scope, world, seeded, h, c.visits, c.reports, trace + more, frontier, history)
      ensures if ended then !Live(world, next, c)
              else
                || c.failed || c.budget < b.budget
                || (c.budget == b.budget && frontier.Keys - c.done < old(frontier).Keys - b.done)
    {
      var rows := frontier;
      c, next, more := b, look, [];
      AppendNothing(trace);
      assert batch[0] in batch;
      assert Pending(rows, frontier, batch, 0, c.done) by {
        PendingAll(cfg.recrawlSec, frontier, history, batch, world.clock(look), c.done);
      }
      var i := 0;
      while i < |batch| && Live(world, next, c)
        invariant 0 <= i <= |batch|
        invariant Since(cfg, f0, h0, frontier, history)
        invariant Balanced(cfg, world, c)
        invariant Traced(cfg, scope, world, seeded, h, c.visits, c.reports, trace + more, frontier, history)
        invariant Pending(rows, frontier, batch, i, c.done)
        invariant c.budget <= b.budget && b.done <= c.done && (i > 0 ==> batch[0] in c.done)
        invariant c.budget == b.budget ==> frontier.Keys == rows.Keys
      {
        next := next + 1;
        var v := Visit(batch[i], rows[batch[i]], look);
        var report;
        ghost var x;
        report, x := HandlePending(rows, batch, i, c.done, world, next, f0, h0, v);
        assert IsDue(v.row, v.row.kind, world.clock(look)) by { assert batch[i] in batch; }
        assert Balanced(cfg, world, Entered(c, v, report)) by { EnteredBalanced(cfg, world, c, v, report); }
        assert Traced(cfg, scope, world, seeded, h, c.visits + [v], c.reports + [report], trace + (more + [x]),
          frontier, history) by {
          TracedNext(cfg, scope, world, seeded, h, c.visits, c.reports, trace + more, v, report, x);
          AppendAssociates(trace, more, [x]);
        }
        c, more := Entered(c, v, report), more + [x];
        i := i + 1;
      }
      ended := i < |batch|;
    }

    /** The next URL of a batch; the rest of the batch stays pending. */
    method HandlePending(rows: Pages, batch: seq<Url>, i: nat, ghost done: set<Url>, world: World, look: nat,
                         ghost f0: Pages, ghost h0: History, ghost v: Visit) returns (report: Report, ghost x: Handling)
      requires i < |batch| && NoRepeats(batch) && Pending(rows, frontier, batch, i, done)
      requires Since(cfg, f0, h0, frontier, history) && v.url == batch[i] && v.row == rows[batch[i]]
      modifies this`frontier, this`history
      ensures Since(cfg, f0, h0, frontier, history)
      ensures Pending(rows, frontier, batch, i + 1, done + {batch[i]})
      ensures old(frontier).Keys <= frontier.Keys && (!report.requested ==> frontier.Keys == old(frontier).Keys)
      ensures x.before == old(frontier) && x.history == old(history) && x.after == frontier && x.historyAfter == history
      ensures HandledAs(cfg, scope, world, v, x, report)
    {
      ghost var f, h := frontier, history;
      report, x := Handle(batch[i], rows[batch[i]], world, look, v);
      PendingNext(cfg, rows, f, h, frontier, history, batch, i, done, report.requested);
      SinceNext(cfg, f0, h0, f, h, batch[i], frontier, history, report.requested);
    }
  }
}
