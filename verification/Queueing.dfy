/**
 The frontier's queue (server/crawl.js): what adding URLs chunk by chunk comes to, and which rows are due, the soonest
 first.
 */
module Queueing {
  import opened Basics
  import opened Frontier

  // ----- adding URLs, chunk by chunk -----

  const CHUNK := 1000

  lemma OfSnoc(f: Pages, u: Url, row: Row)
    requires u !in f
    ensures Of(f[u := row], row.kind) == Of(f, row.kind) + {u}
    ensures |Of(f[u := row], row.kind)| == |Of(f, row.kind)| + 1
  {
    assert Of(f[u := row], row.kind) == Of(f, row.kind) + {u};
  }

  lemma {:induction false} LastmodAbsent(list: seq<Listed>, u: Url)
    requires u !in Urls(list)
    ensures LastmodOf(list, u) == None
  {
    if list != [] {
      var init := list[..|list| - 1];
      assert list == init + [list[|list| - 1]];
      UrlsSnoc(init, list[|list| - 1]);
      LastmodAbsent(init, u);
    }
  }

  lemma {:induction false} LastmodJoin(a: seq<Listed>, b: seq<Listed>, u: Url)
    ensures LastmodOf(a + b, u) == if u in Urls(b) then LastmodOf(b, u) else LastmodOf(a, u)
  {
    if b == [] {
      AppendNothing(a);
    } else {
      var init, last := b[..|b| - 1], b[|b| - 1];
      assert b == init + [last];
      UrlsSnoc(init, last);
      assert (a + b)[..|a + b| - 1] == a + init;
      LastmodJoin(a, init, u);
    }
  }

  lemma UrlsJoin(a: seq<Listed>, b: seq<Listed>)
    ensures Urls(a + b) == Urls(a) + Urls(b)
  {
    var all := a + b;
    forall u | u in Urls(a) ensures u in Urls(all) {
      var i :| 0 <= i < |a| && a[i].url == u;
      assert all[i].url == u;
    }
    forall u | u in Urls(b) ensures u in Urls(all) {
      var i :| 0 <= i < |b| && b[i].url == u;
      assert all[|a| + i].url == u;
    }
  }

  lemma OfGrows(f: Pages, g: Pages, kind: Kind)
    requires forall u :: u in Of(f, kind) ==> u in Of(g, kind)
    ensures |Of(f, kind)| <= |Of(g, kind)|
  {
    SubsetSize(Of(f, kind), Of(g, kind));
  }

  lemma {:induction false} SubsetSize(a: set<Url>, b: set<Url>)
    requires a <= b
    ensures |a| <= |b|
    decreases a
  {
    if a != {} {
      var u :| u in a;
      SubsetSize(a - {u}, b - {u});
    }
  }

  /** Lists added one after the other are added as one list: how they are cut does not show. */
  lemma EnqueuedJoin(f: Pages, m: Pages, g: Pages, a: seq<Listed>, b: seq<Listed>, how: How)
    requires Enqueued(f, m, a, how) && Enqueued(m, g, b, how) && Urls(a) !! Urls(b)
    ensures Enqueued(f, g, a + b, how)
  {
    UrlsJoin(a, b);
    forall u | u in f ensures g[u] == Refreshed(f[u], u, a + b, how) {
      LastmodJoin(a, b, u);
      assert m[u] == Refreshed(f[u], u, a, how) && g[u] == Refreshed(m[u], u, b, how);
      if u in Urls(b) { LastmodAbsent(a, u); } else { LastmodAbsent(b, u); }
    }
    forall u | u in g && u !in f ensures u in Urls(a + b) && g[u] == NewRow(how, LastmodOf(a + b, u)) {
      LastmodJoin(a, b, u);
      if u in m {
        assert m[u] == NewRow(how, LastmodOf(a, u)) && g[u] == Refreshed(m[u], u, b, how);
      }
    }
    assert |Of(m, how.kind)| <= |Of(g, how.kind)| by {
      assert forall u :: u in m ==> g[u] == Refreshed(m[u], u, b, how);
      OfGrows(m, g, how.kind);
    }
  }

  lemma EnqueuedNothing(f: Pages, how: How)
    ensures Enqueued(f, f, [], how)
  {}

  /** Making known pages due, then adding up to the room left, is adding the list. */
  lemma TouchedAndAdded(f: Pages, m: Pages, g: Pages, list: seq<Listed>, how: How, added: nat)
    requires m.Keys == f.Keys && forall u :: u in f ==> m[u] == Refreshed(f[u], u, list, how)
    requires AddedUpTo(m, g, list, how, Max(how.cap - |Of(f, how.kind)|, 0), added)
    ensures Enqueued(f, g, list, how)
  {
    assert forall u :: u in f ==> m[u].kind == f[u].kind;
    assert Of(m, how.kind) == Of(f, how.kind);
  }

  /** New rows are listed ones, and the others are as they were. */
  ghost predicate Additions(m: Pages, g: Pages, list: seq<Listed>, how: How) {
    && m.Keys <= g.Keys
    && (forall u :: u in m ==> g[u] == m[u])
    && (forall u :: u in g && u !in m ==> u in Urls(list) && g[u] == NewRow(how, LastmodOf(list, u)))
  }

  /** There are `added` rows more, all of one kind. */
  ghost predicate More(m: Pages, g: Pages, kind: Kind, added: nat) {
    |g| == |m| + added && |Of(g, kind)| == |Of(m, kind)| + added
  }

  /** `added` listed pages are new, no more than `room`; one is left out only when the room is used up. */
  ghost predicate AddedUpTo(m: Pages, g: Pages, list: seq<Listed>, how: How, room: nat, added: nat) {
    && Additions(m, g, list, how)
    && More(m, g, how.kind, added)
    && added <= room
    && (added < room ==> Urls(list) <= g.Keys)
  }

  lemma LastmodSnoc(list: seq<Listed>, l: Listed, u: Url)
    ensures LastmodOf(list + [l], u) == if l.url == u then l.lastmod else LastmodOf(list, u)
  {
    assert (list + [l])[..|list|] == list;
  }

  lemma AddedOne(m: Pages, g: Pages, list: seq<Listed>, l: Listed, how: How, room: nat, added: nat)
    requires AddedUpTo(m, g, list, how, room, added) && l.url !in g && added < room
    ensures AddedUpTo(m, g[l.url := NewRow(how, l.lastmod)], list + [l], how, room, added + 1)
  {
    var g', list' := g[l.url := NewRow(how, l.lastmod)], list + [l];
    assert Additions(m, g', list', how) by { AdditionsOne(m, g, list, l, how); }
    assert More(m, g', how.kind, added + 1) by { MoreOne(m, g, l.url, NewRow(how, l.lastmod), added); }
    assert Urls(list') <= g'.Keys by { UrlsSnoc(list, l); }
  }

  lemma MoreOne(m: Pages, g: Pages, u: Url, row: Row, added: nat)
    requires More(m, g, row.kind, added) && u !in g
    ensures More(m, g[u := row], row.kind, added + 1)
  {
    OfSnoc(g, u, row);
  }

  lemma AdditionsOne(m: Pages, g: Pages, list: seq<Listed>, l: Listed, how: How)
    requires Additions(m, g, list, how) && l.url !in g
    ensures Additions(m, g[l.url := NewRow(how, l.lastmod)], list + [l], how)
  {
    UrlsSnoc(list, l);
    var g' := g[l.url := NewRow(how, l.lastmod)];
    forall u | u in g' && u !in m ensures u in Urls(list + [l]) && g'[u] == NewRow(how, LastmodOf(list + [l], u)) {
      LastmodSnoc(list, l, u);
    }
  }

  lemma AddedNone(m: Pages, g: Pages, list: seq<Listed>, l: Listed, how: How, room: nat, added: nat)
    requires AddedUpTo(m, g, list, how, room, added) && (l.url in g || added == room) && l.url !in Urls(list)
    ensures AddedUpTo(m, g, list + [l], how, room, added)
  {
    assert Additions(m, g, list + [l], how) by { AdditionsNone(m, g, list, l, how); }
    assert added < room ==> Urls(list + [l]) <= g.Keys by { UrlsSnoc(list, l); }
  }

  lemma AdditionsNone(m: Pages, g: Pages, list: seq<Listed>, l: Listed, how: How)
    requires Additions(m, g, list, how) && l.url !in Urls(list)
    ensures Additions(m, g, list + [l], how)
  {
    UrlsSnoc(list, l);
    forall u | u in g && u !in m ensures u in Urls(list + [l]) && g[u] == NewRow(how, LastmodOf(list + [l], u)) {
      LastmodSnoc(list, l, u);
    }
  }

  lemma AddedNothing(m: Pages, list: seq<Listed>, how: How, room: nat)
    ensures AddedUpTo(m, m, list[..0], how, room, 0)
  {}

  lemma AddedAll(m: Pages, g: Pages, list: seq<Listed>, how: How, room: nat, added: nat)
    requires AddedUpTo(m, g, list[..|list|], how, room, added)
    ensures AddedUpTo(m, g, list, how, room, added)
  {
    assert list[..|list|] == list;
  }

  lemma AddedNext(m: Pages, g: Pages, list: seq<Listed>, i: nat, how: How, room: nat, added: nat)
    requires DistinctUrls(list) && i < |list| && AddedUpTo(m, g, list[..i], how, room, added)
    ensures var l := list[i];
            if l.url !in g && added < room then
              AddedUpTo(m, g[l.url := NewRow(how, l.lastmod)], list[..i + 1], how, room, added + 1)
            else AddedUpTo(m, g, list[..i + 1], how, room, added)
  {
    var l := list[i];
    assert list[..i + 1] == list[..i] + [l];
    if l.url !in g && added < room {
      AddedOne(m, g, list[..i], l, how, room, added);
    } else {
      AddedNone(m, g, list[..i], l, how, room, added);
    }
  }

  /** One chunk more. */
  lemma EnqueuedNext(f: Pages, m: Pages, g: Pages, list: seq<Listed>, i: nat, j: nat, how: How)
    requires DistinctUrls(list) && i <= j <= |list|
    requires Enqueued(f, m, list[..i], how) && Enqueued(m, g, list[i..j], how)
    ensures Enqueued(f, g, list[..j], how)
  {
    ChunksDistinct(list, i, j);
    EnqueuedJoin(f, m, g, list[..i], list[i..j], how);
    assert list[..i] + list[i..j] == list[..j];
  }

  lemma ChunksDistinct(list: seq<Listed>, i: nat, j: nat)
    requires DistinctUrls(list) && i <= j <= |list|
    ensures Urls(list[..i]) !! Urls(list[i..j])
  {}

  // ----- what is due -----

  predicate IsDue(row: Row, kind: Kind, now: int) {
    row.kind == kind && row.next.Some? && row.next.value <= now
  }

  function Due(f: Pages, kind: Kind, now: int): set<Url> {
    set u | u in f && IsDue(f[u], kind, now)
  }

  /** Due earlier, ties by URL. */
  predicate Sooner(f: Pages, u: Url, v: Url)
    requires u in f && v in f && f[u].next.Some? && f[v].next.Some?
  {
    f[u].next.value < f[v].next.value || (f[u].next == f[v].next && StringLess(u, v))
  }

  /** The first `limit` of `due`, soonest first. */
  ghost predicate IsBatch(f: Pages, due: set<Url>, limit: nat, batch: seq<Url>)
    requires forall u :: u in due ==> u in f && f[u].next.Some?
  {
    && |batch| <= limit
    && (forall i :: 0 <= i < |batch| ==> batch[i] in due)
    && (forall i, j :: 0 <= i < j < |batch| ==> Sooner(f, batch[i], batch[j]))
    && (forall u :: u in due && u !in batch ==> |batch| == limit && forall i :: 0 <= i < |batch| ==>
         Sooner(f, batch[i], u))
  }

  lemma SoonerOrder(f: Pages, u: Url, v: Url)
    requires u in f && v in f && f[u].next.Some? && f[v].next.Some?
    ensures Sooner(f, u, v) || Sooner(f, v, u) || u == v
    ensures !Sooner(f, u, u)
  {
    StringLessTotal(u, v);
    StringLessIrreflexive(u);
  }

  lemma SoonerTransitive(f: Pages, u: Url, v: Url, w: Url)
    requires u in f && v in f && w in f && f[u].next.Some? && f[v].next.Some? && f[w].next.Some?
    requires Sooner(f, u, v) && Sooner(f, v, w)
    ensures Sooner(f, u, w)
  {
    if StringLess(u, v) && StringLess(v, w) { StringLessTransitive(u, v, w); }
  }

  method Soonest(f: Pages, due: set<Url>) returns (first: Url)
    requires due != {} && forall u :: u in due ==> u in f && f[u].next.Some?
    ensures first in due && forall u :: u in due && u != first ==> Sooner(f, first, u)
  {
    first :| first in due;
    var rest := due - {first};
    while rest != {}
      invariant rest <= due && first in due && first !in rest
      invariant forall u :: u in due && u !in rest && u != first ==> Sooner(f, first, u)
      decreases rest
    {
      var u :| u in rest;
      rest := rest - {u};
      SoonerOrder(f, u, first);
      if Sooner(f, u, first) {
        forall v | v in due && v !in rest && v != u ensures Sooner(f, u, v) {
          if v != first { SoonerTransitive(f, u, first, v); }
        }
        first := u;
      }
    }
  }

  method TakeDue(f: Pages, due: set<Url>, limit: nat) returns (batch: seq<Url>)
    requires forall u :: u in due ==> u in f && f[u].next.Some?
    ensures IsBatch(f, due, limit, batch)
  {
    batch := [];
    var rest := due;
    while rest != {} && |batch| < limit
      invariant |batch| <= limit && rest <= due
      invariant forall u :: u in due <==> u in rest || u in batch
      invariant forall i :: 0 <= i < |batch| ==> batch[i] in due
      invariant forall i, j :: 0 <= i < j < |batch| ==> Sooner(f, batch[i], batch[j])
      invariant forall i, u :: 0 <= i < |batch| && u in rest ==> Sooner(f, batch[i], u)
      decreases rest
    {
      var u := Soonest(f, rest);
      rest := rest - {u};
      batch := batch + [u];
    }
  }

  /** What a run has not handled yet. */
  function Undone(batch: seq<Url>, done: set<Url>): (r: seq<Url>)
    ensures forall u :: u in r <==> u in batch && u !in done
  {
    if batch == [] then []
    else
      var last := batch[|batch| - 1];
      assert batch == batch[..|batch| - 1] + [last];
      Undone(batch[..|batch| - 1], done) + if last in done then [] else [last]
  }

  ghost predicate NoRepeats(urls: seq<Url>) {
    forall i, j :: 0 <= i < j < |urls| ==> urls[i] != urls[j]
  }

  lemma {:induction false} UndoneDistinct(batch: seq<Url>, done: set<Url>)
    requires NoRepeats(batch)
    ensures NoRepeats(Undone(batch, done))
  {
    if batch != [] {
      UndoneDistinct(batch[..|batch| - 1], done);
    }
  }

  lemma BatchDistinct(f: Pages, due: set<Url>, limit: nat, batch: seq<Url>)
    requires (forall u :: u in due ==> u in f && f[u].next.Some?) && IsBatch(f, due, limit, batch)
    ensures NoRepeats(batch)
  {
    forall i, j | 0 <= i < j < |batch| ensures batch[i] != batch[j] {
      SoonerOrder(f, batch[i], batch[j]);
    }
  }
}
