/**
 The crawler (server/crawl.js): the mutable frontier, the handling of one URL, and a run within its bounds.
 */
module Crawl {
  import opened Basics
  import opened Frontier

  // ----- handling one URL -----

  /** A reply, when the request finished, and when what follows happened. */
  datatype Got<B> = Got(reply: Reply<B>, at: int, later: int)

  /** `save`: the columns a fetch owns; what a sitemap said of the page meanwhile stays. */
  function Saved(f: Pages, u: Url, row: Option<Row>): Pages
    requires u in f
  {
    if row.None? then f else f[u := row.value.(lastmod := f[u].lastmod)]
  }

  function Crashed(cfg: Config, r: Row, at: int): Row {
    r.(fails := r.fails + 1, next := Some(at + Backoff(cfg.recrawlSec, r.fails + 1)))
  }

  function PagesHow(cfg: Config, depth: nat, via: Via, at: int): How {
    How(Page, depth, via, at, cfg.maxPages)
  }

  /** An unexpected error: a failure of that URL, after what it had added. */
  ghost predicate CrashStep<B>(cfg: Config, scope: Scope, f: Pages, u: Url, r: Row, got: Got<B>, mid: Pages, g: Pages,
                               res: Report) {
    && got.reply.Crash?
    && Enqueued(f, mid, Admitted(scope, got.reply.how.kind, got.reply.tried), got.reply.how)
    && u in mid && g == Saved(mid, u, Some(Crashed(cfg, r, got.later)))
    && res == Report(true, true, Unanswered, false, 0)
  }

  /** The canonical is known and no duplicate, or was added just now. */
  predicate Marks(f: Pages, mid: Pages, canonical: Option<Url>) {
    canonical.Some? && if canonical.value in f then f[canonical.value].state != Duplicate else |mid| > |f|
  }

  /** Looking the canonical up, and adding it when it is unknown. */
  ghost predicate CanonicalStep(cfg: Config, scope: Scope, f: Pages, r: Row, canonical: Option<Url>, at: int,
                                mid: Pages)
  {
    if canonical.None? || canonical.value in f then mid == f
    else Enqueued(f, mid, Admitted(scope, Page, Unlisted([canonical.value])), PagesHow(cfg, r.depth, CanonicalLink, at))
  }

  /**
   A page whose body is read: a duplicate of its canonical, or a page that stands for itself and whose links are
   added.
   */
  ghost predicate PageRead(cfg: Config, scope: Scope, f: Pages, h: History, u: Url, r: Row, got: Got<PageBody>,
                           mid: Pages, grown: Pages, g: Pages, k: History, res: Report)
    requires got.reply.Answer?
  {
    var status, body := got.reply.status, got.reply.body;
    var canonical := CanonicalFor(scope, u, body);
    && CanonicalStep(cfg, scope, f, r, canonical, got.later, mid)
    && res == Report(true, true, Answered, false, 0)
    && u in mid
    && if Marks(f, mid, canonical) then
         g == Saved(mid, u, Some(DuplicateOf(r, status, body, got.at))) && k == Mark(h, u, canonical.value)
       else
         && k == h
         && Enqueued(mid, grown, if Follows(cfg, r) then Admitted(scope, Page, Unlisted(body.links)) else [],
                     PagesHow(cfg, r.depth + 1, Link, got.later))
         && u in grown && g == Saved(grown, u, Some(ReadPage(cfg, r, status, body, got.at)))
  }

  /** One page more marked a duplicate of `t`. */
  function Mark(h: History, u: Url, t: Url): History {
    History(h.marked + [u], h.target[u := t])
  }

  /**
   A page's answer: frontier `f` with history `h` becomes `g` with `k`, by way of `mid` (the canonical looked up) and
   `grown` (the links added).
   */
  ghost predicate PageStep(cfg: Config, scope: Scope, f: Pages, h: History, u: Url, r: Row, got: Got<PageBody>,
                           mid: Pages, grown: Pages, g: Pages, k: History, res: Report)
    requires !got.reply.Crash? && u in f
  {
    match EarlyPage(cfg, scope, u, r, got.reply, got.at)
    case Some(early) => g == Saved(f, u, early.row) && k == h && res == early.report
    case None => got.reply.Answer? && PageRead(cfg, scope, f, h, u, r, got, mid, grown, g, k, res)
  }

  function Again(cfg: Config, at: int): int {
    at + Min(cfg.recrawlSec * 1000, DAY_MS)
  }

  /** A sitemap up to where its entries are added; None when it gets there. */
  function EarlySitemap(cfg: Config, r: Row, reply: Reply<SitemapBody>, at: int): Option<Handled>
    requires !reply.Crash?
  {
    var early := Request(cfg, r, reply, at);
    if early.Some? then early
    else
      var status, body := reply.status, reply.body;
      var again := Some(Again(cfg, at));
      if status == 304 then Some(Requested(Fetched(r, status, at).(state := Read, next := again), Answered))
      else if r.bodyHash == Some(body.hash) && r.state == Read then
        Some(Requested(Fetched(r, status, at).(next := again), Answered))
      else if !body.readable then
        Some(Requested(Failed(cfg, r, at).(state := Failing, status := Some(status)), Answered))
      else None
  }

  function ReadSitemap(cfg: Config, r: Row, status: nat, body: SitemapBody, at: int): Row {
    Fetched(r, status, at).(state := Read, next := Some(Again(cfg, at)), bodyHash := Some(body.hash),
      items := |body.entries|)
  }

  function EntriesHow(cfg: Config, body: SitemapBody, at: int): How {
    if body.index then How(Sitemap, 0, InSitemap, at, cfg.maxSitemaps) else PagesHow(cfg, 0, InSitemap, at)
  }

  ghost predicate SitemapStep(cfg: Config, scope: Scope, f: Pages, u: Url, r: Row, got: Got<SitemapBody>, grown: Pages,
                              g: Pages, res: Report)
    requires !got.reply.Crash? && u in f
  {
    match EarlySitemap(cfg, r, got.reply, got.at)
    case Some(early) => g == Saved(f, u, early.row) && res == early.report
    case None =>
      var body := got.reply.body;
      var how := EntriesHow(cfg, body, got.later);
      && Enqueued(f, grown, Admitted(scope, how.kind, body.entries), how)
      && u in grown && g == Saved(grown, u, Some(ReadSitemap(cfg, r, got.reply.status, body, got.at)))
      && res == Report(true, true, Answered, false, 0)
  }

  // ----- what handling keeps -----

  /** The same row, but for when it is due and what a sitemap says of it; a duplicate not even that. */
  ghost predicate SameButDue(a: Row, b: Row) {
    b == a.(next := b.next, lastmod := b.lastmod) && (a.state == Duplicate ==> a == b)
  }

  /**
   What handling `u` keeps: soundness, every other row but for when it is due, and, if nothing was requested, the
   URLs.
   */
  ghost predicate Keeps(cfg: Config, f: Pages, h: History, u: Url, g: Pages, k: History, requested: bool) {
    && Sound(cfg.recrawlSec, g, k)
    && f.Keys <= g.Keys && (!requested ==> f.Keys == g.Keys)
    && (forall v :: v in f && v != u ==> SameButDue(f[v], g[v]))
    && h.marked <= k.marked
  }

  lemma EnqueuedKeeps(recrawl: nat, f: Pages, g: Pages, list: seq<Listed>, how: How, h: History)
    requires Sound(recrawl, f, h) && Enqueued(f, g, list, how)
    ensures Sound(recrawl, g, h)
    ensures forall u :: u in f ==> u in g && SameButDue(f[u], g[u])
  {
    assert forall u :: u in f ==> g[u] == Refreshed(f[u], u, list, how);
    forall u ensures u in h.marked <==> u in g && g[u].state == Duplicate {
      if u in g && u !in f { assert g[u] == NewRow(how, LastmodOf(list, u)); }
    }
  }

  lemma SavedKeeps(recrawl: nat, f: Pages, h: History, u: Url, row: Row)
    requires Sound(recrawl, f, h) && u in f && f[u].state != Duplicate
    requires row.state != Duplicate && IntervalOk(recrawl, row.interval)
    ensures Sound(recrawl, Saved(f, u, Some(row)), h)
  {}

  lemma MarkOnce(h: History, u: Url, t: Url)
    requires MarkedOnce(h) && u !in h.marked
    ensures MarkedOnce(Mark(h, u, t))
  {}

  lemma MarkKnown(f: Pages, g: Pages, h: History, u: Url, t: Url)
    requires TargetsKnown(f, h) && u !in h.marked && f.Keys <= g.Keys && t in g
    ensures TargetsKnown(g, Mark(h, u, t))
  {
    var k := Mark(h, u, t);
    forall i | 0 <= i < |k.marked| ensures k.marked[i] in k.target && k.target[k.marked[i]] in g {
      if i < |h.marked| { assert k.marked[i] == h.marked[i]; }
    }
  }

  lemma MarkNotMarked(h: History, u: Url, t: Url)
    requires TargetsNotMarked(h) && MarkedOnce(h) && u !in h.marked && t !in h.marked && t != u
    requires forall i :: 0 <= i < |h.marked| ==> h.marked[i] in h.target
    ensures TargetsNotMarked(Mark(h, u, t))
  {
    var k := Mark(h, u, t);
    forall i, j | 0 <= j <= i < |k.marked| && k.marked[i] in k.target ensures k.target[k.marked[i]] != k.marked[j] {
      if i < |h.marked| {
        assert k.marked[i] == h.marked[i] && k.marked[j] == h.marked[j];
      } else {
        assert k.marked[j] == if j < |h.marked| then h.marked[j] else u;
      }
    }
  }

  lemma MarkedKeeps(recrawl: nat, f: Pages, h: History, u: Url, row: Row, t: Url)
    requires Sound(recrawl, f, h) && u in f && f[u].state != Duplicate
    requires t in f && t != u && f[t].state != Duplicate
    requires row.state == Duplicate && row.next.None? && IntervalOk(recrawl, row.interval)
    ensures Sound(recrawl, Saved(f, u, Some(row)), Mark(h, u, t))
  {
    var g, k := Saved(f, u, Some(row)), Mark(h, u, t);
    assert u !in h.marked && t !in h.marked;
    assert Chained(g, k) by {
      MarkOnce(h, u, t);
      MarkKnown(f, g, h, u, t);
      MarkNotMarked(h, u, t);
    }
    forall v ensures v in k.marked <==> v in g && g[v].state == Duplicate {
      assert v in k.marked <==> v in h.marked || v == u;
    }
  }

  lemma RequestOk<B>(cfg: Config, r: Row, reply: Reply<B>, at: int)
    requires !reply.Crash? && r.state != Duplicate && IntervalOk(cfg.recrawlSec, r.interval)
    ensures var early := Request(cfg, r, reply, at);
            early.Some? && early.value.row.Some? ==>
              early.value.row.value.state != Duplicate && IntervalOk(cfg.recrawlSec, early.value.row.value.interval)
  {}

  lemma EarlyPageOk(cfg: Config, scope: Scope, u: Url, r: Row, reply: Reply<PageBody>, at: int)
    requires !reply.Crash? && r.state != Duplicate && IntervalOk(cfg.recrawlSec, r.interval)
    ensures var early := EarlyPage(cfg, scope, u, r, reply, at);
            early.Some? && early.value.row.Some? ==>
              early.value.row.value.state != Duplicate && IntervalOk(cfg.recrawlSec, early.value.row.value.interval)
  {
    RequestOk(cfg, r, reply, at);
    GrownOk(cfg.recrawlSec, r.interval);
  }

  lemma ReadPageOk(cfg: Config, r: Row, status: nat, body: PageBody, at: int)
    requires IntervalOk(cfg.recrawlSec, r.interval)
    ensures var row := ReadPage(cfg, r, status, body, at);
            row.state != Duplicate && IntervalOk(cfg.recrawlSec, row.interval)
  {
    GrownOk(cfg.recrawlSec, r.interval);
  }

  /** A newly added canonical is a new page of the frontier. */
  lemma CanonicalAdded(cfg: Config, scope: Scope, f: Pages, r: Row, t: Url, at: int, mid: Pages)
    requires t !in f && CanonicalStep(cfg, scope, f, r, Some(t), at, mid) && |mid| > |f|
    ensures t in mid && mid[t].state == New
  {
    assert |mid| == |mid.Keys| && |f| == |f.Keys|;
    assert mid.Keys != f.Keys;
    var v :| v in mid && v !in f;
    assert v in Urls(Unlisted([t]));
  }

  lemma CanonicalKeeps(cfg: Config, scope: Scope, f: Pages, r: Row, canonical: Option<Url>, at: int, mid: Pages,
                       h: History)
    requires Sound(cfg.recrawlSec, f, h) && CanonicalStep(cfg, scope, f, r, canonical, at, mid)
    ensures Sound(cfg.recrawlSec, mid, h)
    ensures forall u :: u in f ==> u in mid && SameButDue(f[u], mid[u])
  {
    if canonical.Some? && canonical.value !in f {
      EnqueuedKeeps(cfg.recrawlSec, f, mid, Admitted(scope, Page, Unlisted([canonical.value])),
                    PagesHow(cfg, r.depth, CanonicalLink, at), h);
    }
  }

  /**
   A page is marked duplicate only while its canonical is known and no duplicate: every step keeps the frontier sound.
   */
  lemma PageStepKeeps(cfg: Config, scope: Scope, f: Pages, h: History, u: Url, r: Row, got: Got<PageBody>,
                      mid: Pages, grown: Pages, g: Pages, k: History, res: Report)
    requires Sound(cfg.recrawlSec, f, h) && u in f && SameButDue(r, f[u]) && r.state != Duplicate && !got.reply.Crash?
    requires PageStep(cfg, scope, f, h, u, r, got, mid, grown, g, k, res)
    ensures Keeps(cfg, f, h, u, g, k, res.requested)
  {
    assert Keeps(cfg, f, h, u, g, k, res.requested) by {
      if EarlyPage(cfg, scope, u, r, got.reply, got.at).Some? {
        EarlyKeeps(cfg, scope, f, h, u, r, got, g, k, res);
      } else {
        PageReadKeeps(cfg, scope, f, h, u, r, got, mid, grown, g, k, res);
      }
    }
  }

  lemma EarlyKeeps(cfg: Config, scope: Scope, f: Pages, h: History, u: Url, r: Row, got: Got<PageBody>, g: Pages,
                   k: History, res: Report)
    requires Sound(cfg.recrawlSec, f, h) && u in f && SameButDue(r, f[u]) && r.state != Duplicate && !got.reply.Crash?
    requires var early := EarlyPage(cfg, scope, u, r, got.reply, got.at);
             early.Some? && g == Saved(f, u, early.value.row) && k == h && res == early.value.report
    ensures Keeps(cfg, f, h, u, g, k, res.requested)
  {
    var early := EarlyPage(cfg, scope, u, r, got.reply, got.at);
    EarlyPageOk(cfg, scope, u, r, got.reply, got.at);
    if early.value.row.Some? {
      SavedKeeps(cfg.recrawlSec, f, h, u, early.value.row.value);
    }
  }

  lemma PageReadKeeps(cfg: Config, scope: Scope, f: Pages, h: History, u: Url, r: Row, got: Got<PageBody>,
                      mid: Pages, grown: Pages, g: Pages, k: History, res: Report)
    requires Sound(cfg.recrawlSec, f, h) && u in f && SameButDue(r, f[u]) && r.state != Duplicate && !got.reply.Crash?
    requires got.reply.Answer? && PageRead(cfg, scope, f, h, u, r, got, mid, grown, g, k, res)
    ensures Keeps(cfg, f, h, u, g, k, res.requested)
  {
    var status, body := got.reply.status, got.reply.body;
    var canonical := CanonicalFor(scope, u, body);
    CanonicalKeeps(cfg, scope, f, r, canonical, got.later, mid, h);
    if Marks(f, mid, canonical) {
      if canonical.value !in f { CanonicalAdded(cfg, scope, f, r, canonical.value, got.later, mid); }
      MarkKeeps(cfg, f, h, u, mid, DuplicateOf(r, status, body, got.at), canonical.value);
    } else {
      ReadPageOk(cfg, r, status, body, got.at);
      ReadKeeps(cfg, f, h, u, mid, if Follows(cfg, r) then Admitted(scope, Page, Unlisted(body.links)) else [],
                PagesHow(cfg, r.depth + 1, Link, got.later), grown, ReadPage(cfg, r, status, body, got.at));
    }
  }

  lemma MarkKeeps(cfg: Config, f: Pages, h: History, u: Url, mid: Pages, row: Row, t: Url)
    requires Sound(cfg.recrawlSec, mid, h) && u in f && f[u].state != Duplicate
    requires forall v :: v in f ==> v in mid && SameButDue(f[v], mid[v])
    requires t in mid && t != u && mid[t].state != Duplicate
    requires row.state == Duplicate && row.next.None? && IntervalOk(cfg.recrawlSec, row.interval)
    ensures Keeps(cfg, f, h, u, Saved(mid, u, Some(row)), Mark(h, u, t), true)
  {
    MarkedKeeps(cfg.recrawlSec, mid, h, u, row, t);
  }

  lemma ReadKeeps(cfg: Config, f: Pages, h: History, u: Url, mid: Pages, list: seq<Listed>, how: How, grown: Pages,
                  row: Row)
    requires Sound(cfg.recrawlSec, mid, h) && u in f && f[u].state != Duplicate
    requires forall v :: v in f ==> v in mid && SameButDue(f[v], mid[v])
    requires Enqueued(mid, grown, list, how)
    requires row.state != Duplicate && IntervalOk(cfg.recrawlSec, row.interval)
    ensures u in grown && Keeps(cfg, f, h, u, Saved(grown, u, Some(row)), h, true)
  {
    EnqueuedKeeps(cfg.recrawlSec, mid, grown, list, how, h);
    assert SameButDue(f[u], mid[u]) && SameButDue(mid[u], grown[u]);
    SavedKeeps(cfg.recrawlSec, grown, h, u, row);
  }

  lemma SitemapStepKeeps(cfg: Config, scope: Scope, f: Pages, h: History, u: Url, r: Row, got: Got<SitemapBody>,
                         grown: Pages,
                         g: Pages, res: Report)
    requires Sound(cfg.recrawlSec, f, h) && u in f && SameButDue(r, f[u]) && r.state != Duplicate && !got.reply.Crash?
    requires SitemapStep(cfg, scope, f, u, r, got, grown, g, res)
    ensures Keeps(cfg, f, h, u, g, h, res.requested)
  {
    var early := EarlySitemap(cfg, r, got.reply, got.at);
    if early.Some? {
      RequestOk(cfg, r, got.reply, got.at);
      if early.value.row.Some? {
        SavedKeeps(cfg.recrawlSec, f, h, u, early.value.row.value);
      }
    } else {
      var body := got.reply.body;
      var how := EntriesHow(cfg, body, got.later);
      ReadKeeps(cfg, f, h, u, f, Admitted(scope, how.kind, body.entries), how, grown,
                ReadSitemap(cfg, r, got.reply.status, body, got.at));
    }
  }

  lemma CrashStepKeeps<B>(cfg: Config, scope: Scope, f: Pages, h: History, u: Url, r: Row, got: Got<B>, mid: Pages,
                          g: Pages, res: Report)
    requires Sound(cfg.recrawlSec, f, h) && u in f && SameButDue(r, f[u]) && r.state != Duplicate
    requires CrashStep(cfg, scope, f, u, r, got, mid, g, res)
    ensures Keeps(cfg, f, h, u, g, h, res.requested)
  {
    ReadKeeps(cfg, f, h, u, f, Admitted(scope, got.reply.how.kind, got.reply.tried), got.reply.how, mid,
              Crashed(cfg, r, got.later));
  }
}
