/**
 A run over a source's endpoints and the retirement that may end it (server/ingest.js): what a feed stopped showing is
 removed, what it still shows never is.
 */
module Retirement {
  import opened Basics
  import opened ItemStore
  import opened ChangeFeed

  /** How one endpoint answered: a good parse, a 304, not asked for want of a credential, or a failure. */
  datatype Answer = Parsed(items: seq<Item>) | NotModified | NotAsked | Failed(rateLimited: bool)

  /** One endpoint of a run: its URL, how and when it answered, and the id of the fetch run. */
  datatype Fetch = Fetch(url: string, answer: Answer, at: int, run: string)

  /**
   A run under way: the tables, per endpoint the run of its last good parse and what that parse listed, and the flags
   retirement depends on.
   */
  datatype Progress = Progress(
    store: Store, lastOk: map<string, string>, shows: map<string, set<string>>,
    anyFailure: bool, anySuccess: bool, allAnswered: bool)

  function FetchOne(h: Hash, p: Progress, src: Origin, retires: bool, f: Fetch): (q: Progress)
    requires Indexed(p.store)
    ensures Indexed(q.store)
  {
    match f.answer
    case Parsed(items) =>
      Progress(IngestAll(h, p.store, src, items, f.at, Some(f.run)).0, p.lastOk[f.url := f.run],
               p.shows[f.url := Identities(items)], p.anyFailure, true, p.allAnswered)
    case NotModified =>
      p.(store := if retires && f.url in p.lastOk then SeenAgain(p.store, src.key, p.lastOk[f.url], f.at) else p.store,
         anySuccess := true)
    case NotAsked => p.(allAnswered := false)
    case Failed(_) => p.(anyFailure := true, allAnswered := false)
  }

  /** The endpoints in order; a site that asks to stop ends the run. */
  function FetchAll(h: Hash, p: Progress, src: Origin, retires: bool, fetches: seq<Fetch>): (q: Progress)
    requires Indexed(p.store)
    ensures Indexed(q.store)
    decreases |fetches|
  {
    if fetches == [] then p
    else
      var q := FetchOne(h, p, src, retires, fetches[0]);
      if fetches[0].answer == Failed(true) then q else FetchAll(h, q, src, retires, fetches[1..])
  }

  function Begin(store: Store, lastOk: map<string, string>, shows: map<string, set<string>>): Progress {
    Progress(store, lastOk, shows, false, false, true)
  }

  /** When a run's end may take an unseen item for gone. */
  predicate MayRetire(p: Progress, retireAfter: Option<nat>) {
    retireAfter.Some? && p.anySuccess && p.allAnswered && !p.anyFailure
  }

  const RETIRE_LIMIT := 500
  const GONE := "gone_from_source"

  // ----- what an endpoint shows -----

  ghost predicate Live(s: Store, id: Key) {
    id in s.rows && s.rows[id].removed.None?
  }

  /** What an endpoint's last good parse listed carries, where it is live, that parse's run. */
  ghost predicate Tracks(p: Progress, key: string) {
    && p.shows.Keys == p.lastOk.Keys
    && forall url, identity :: url in p.shows && identity in p.shows[url] && Live(p.store, (key, identity)) ==>
         p.store.rows[(key, identity)].lastRun == Some(p.lastOk[url])
  }

  /** Each identity is listed by at most one endpoint: a parse lists none that another one's last good parse did. */
  ghost predicate Exclusive(p: Progress, f: Fetch) {
    f.answer.Parsed? ==>
      forall url, identity :: url in p.shows && url != f.url && identity in p.shows[url] ==>
        identity !in Identities(f.answer.items)
  }

  ghost predicate AllExclusive(h: Hash, p: Progress, src: Origin, retires: bool, fetches: seq<Fetch>)
    requires Indexed(p.store)
    decreases |fetches|
  {
    fetches != [] ==>
      && Exclusive(p, fetches[0])
      && AllExclusive(h, FetchOne(h, p, src, retires, fetches[0]), src, retires, fetches[1..])
  }

  /** What the endpoints in `urls` show is live only as seen since `start`. */
  ghost predicate Fresh(p: Progress, key: string, urls: set<string>, start: int) {
    forall url, identity ::
      url in urls && url in p.shows && identity in p.shows[url] && Live(p.store, (key, identity)) ==>
        p.store.rows[(key, identity)].retrievedAt >= start
  }

  /**
   What ingesting does to a row: a listed one is there and, if live, seen now by this run; the others are as they
   were.
   */
  ghost predicate IngestedRow(s: Store, t: Store, id: Key, listed: bool, at: int, run: Option<string>) {
    && (listed ==> id in t.rows && (Live(t, id) ==> t.rows[id].lastRun == run && t.rows[id].retrievedAt == at))
    && (!listed ==> (id in t.rows <==> id in s.rows) && (id in s.rows ==> t.rows[id] == s.rows[id]))
  }

  lemma IngestOneRow(h: Hash, s: Store, src: Origin, it: Item, at: int, run: Option<string>, id: Key)
    requires Indexed(s)
    ensures IngestedRow(s, IngestOne(h, s, src, it, at, run).0, id, id == (src.key, it.identity), at, run)
  {}

  lemma IngestedTwice(s: Store, t: Store, u: Store, id: Key, listed: bool, again: bool, at: int, run: Option<string>)
    requires IngestedRow(s, t, id, listed, at, run) && IngestedRow(t, u, id, again, at, run)
    ensures IngestedRow(s, u, id, listed || again, at, run)
  {}

  lemma {:induction false} IngestedRows(h: Hash, s: Store, src: Origin, items: seq<Item>, at: int, run: Option<string>,
                                        identity: string)
    requires Indexed(s)
    ensures IngestedRow(s, IngestAll(h, s, src, items, at, run).0, (src.key, identity), identity in Identities(items),
              at, run)
  {
    if items != [] {
      var init, last := items[..|items| - 1], items[|items| - 1];
      IngestedRows(h, s, src, init, at, run, identity);
      assert items == init + [last];
      IdentitiesAppend(init, last);
      var t := IngestAll(h, s, src, init, at, run).0;
      IngestOneRow(h, t, src, last, at, run, (src.key, identity));
      IngestedTwice(s, t, IngestOne(h, t, src, last, at, run).0, (src.key, identity), identity in Identities(init),
                    identity == last.identity, at, run);
    }
  }

  lemma FetchOneKeeps(h: Hash, p: Progress, src: Origin, retires: bool, f: Fetch, urls: set<string>, start: int)
    requires Indexed(p.store) && Tracks(p, src.key) && Exclusive(p, f) && Fresh(p, src.key, urls, start)
             && f.at >= start
    ensures var q := FetchOne(h, p, src, retires, f);
            && Tracks(q, src.key) && Fresh(q, src.key, urls, start)
            && (retires && (f.answer.Parsed? || f.answer.NotModified?) ==> Fresh(q, src.key, urls + {f.url}, start))
  {
    if f.answer.Parsed? {
      ParsedKeeps(h, p, src, retires, f, urls, start);
    } else if f.answer.NotModified? && retires && f.url in p.lastOk {
      NotModifiedKeeps(p, src.key, f.url, f.at, urls, start);
    } else {
      SameKeeps(h, p, src, retires, f, urls, start);
    }
  }

  /** Answers that leave the tables alone; a 304 of an endpoint that never parsed shows nothing. */
  lemma SameKeeps(h: Hash, p: Progress, src: Origin, retires: bool, f: Fetch, urls: set<string>, start: int)
    requires Indexed(p.store) && Tracks(p, src.key) && Fresh(p, src.key, urls, start)
    requires !f.answer.Parsed? && !(f.answer.NotModified? && retires && f.url in p.lastOk)
    ensures var q := FetchOne(h, p, src, retires, f);
            && Tracks(q, src.key) && Fresh(q, src.key, urls, start)
            && (retires && f.answer.NotModified? ==> Fresh(q, src.key, urls + {f.url}, start))
  {}

  lemma NotModifiedKeeps(p: Progress, key: string, url: string, at: int, urls: set<string>, start: int)
    requires Tracks(p, key) && Fresh(p, key, urls, start) && at >= start && url in p.lastOk
    ensures var q := p.(store := SeenAgain(p.store, key, p.lastOk[url], at), anySuccess := true);
            Tracks(q, key) && Fresh(q, key, urls + {url}, start)
  {
    var q := p.(store := SeenAgain(p.store, key, p.lastOk[url], at), anySuccess := true);
    forall u, identity | u in q.shows && identity in q.shows[u]
      ensures var id := (key, identity);
              && (Live(q.store, id) ==> q.store.rows[id].lastRun == Some(q.lastOk[u]))
              && (Live(q.store, id) && u in urls + {url} ==> q.store.rows[id].retrievedAt >= start)
    {
      assert u in p.shows && identity in p.shows[u];
    }
  }

  lemma ParsedKeeps(h: Hash, p: Progress, src: Origin, retires: bool, f: Fetch, urls: set<string>, start: int)
    requires Indexed(p.store) && Tracks(p, src.key) && Exclusive(p, f) && Fresh(p, src.key, urls, start)
             && f.at >= start
    requires f.answer.Parsed?
    ensures var q := FetchOne(h, p, src, retires, f);
            Tracks(q, src.key) && Fresh(q, src.key, urls + {f.url}, start)
  {
    var q := FetchOne(h, p, src, retires, f);
    forall url, identity | url in q.shows && identity in q.shows[url]
      ensures var id := (src.key, identity);
              && (Live(q.store, id) ==> q.store.rows[id].lastRun == Some(q.lastOk[url]))
              && (Live(q.store, id) && url in urls + {f.url} ==> q.store.rows[id].retrievedAt >= start)
    {
      IngestedRows(h, p.store, src, f.answer.items, f.at, Some(f.run), identity);
      if url != f.url {
        assert url in p.shows && identity in p.shows[url];
      }
    }
  }

  function Urls(fetches: seq<Fetch>): set<string> {
    set i | 0 <= i < |fetches| :: fetches[i].url
  }

  /** A run in which every endpoint answered leaves all that any of them shows seen since its start. */
  lemma {:induction false} RunKeeps(h: Hash, p: Progress, src: Origin, retires: bool, fetches: seq<Fetch>,
                                    urls: set<string>, start: int)
    requires Indexed(p.store) && Tracks(p, src.key) && AllExclusive(h, p, src, retires, fetches)
    requires Fresh(p, src.key, urls, start) && forall i :: 0 <= i < |fetches| ==> fetches[i].at >= start
    ensures var q := FetchAll(h, p, src, retires, fetches);
            && Tracks(q, src.key)
            && (p.anyFailure ==> q.anyFailure) && (!p.allAnswered ==> !q.allAnswered)
            && (retires && q.allAnswered && !q.anyFailure ==> Fresh(q, src.key, urls + Urls(fetches), start))
    decreases |fetches|
  {
    if fetches == [] {
      assert urls + Urls(fetches) == urls;
    } else {
      var f, rest := fetches[0], fetches[1..];
      FetchOneKeeps(h, p, src, retires, f, urls, start);
      var q := FetchOne(h, p, src, retires, f);
      if f.answer != Failed(true) {
        var more := if retires && (f.answer.Parsed? || f.answer.NotModified?) then urls + {f.url} else urls;
        RunKeeps(h, q, src, retires, rest, more, start);
        assert Urls(fetches) == {f.url} + Urls(rest) by {
          assert fetches == [f] + rest;
          UrlsCons(f, rest);
        }
        assert urls + {f.url} + Urls(rest) == urls + Urls(fetches);
      }
    }
  }

  lemma UrlsCons(f: Fetch, rest: seq<Fetch>)
    ensures Urls([f] + rest) == {f.url} + Urls(rest)
  {
    var all := [f] + rest;
    assert all[0] == f;
    forall u | u in Urls(rest) ensures u in Urls(all) {
      var i :| 0 <= i < |rest| && rest[i].url == u;
      assert all[i + 1].url == u;
    }
  }

  /** What an endpoint of the run lists, by a good parse now or its last one kept by a 304. */
  predicate Shown(q: Progress, src: Origin, fetches: seq<Fetch>, id: Key) {
    id.0 == src.key && exists i :: 0 <= i < |fetches| && fetches[i].url in q.shows && id.1 in q.shows[fetches[i].url]
  }

  /** A run whose endpoints list each identity once and which takes no longer than `retireAfter` from its start. */
  ghost predicate Fair(h: Hash, p: Progress, src: Origin, fetches: seq<Fetch>, retireAfter: Option<nat>, start: int,
                       now: int)
    requires Indexed(p.store)
  {
    && AllExclusive(h, p, src, retireAfter.Some?, fetches)
    && (forall i :: 0 <= i < |fetches| ==> fetches[i].at >= start)
    && (retireAfter.Some? ==> now - start <= 1000 * retireAfter.value)
  }

  /** What a run retires: nothing, or up to the limit of what it has not seen for `retireAfter`, longest ago first. */
  ghost predicate Retires(q: Progress, src: Origin, retireAfter: Option<nat>, now: int, retired: seq<Key>) {
    if MayRetire(q, retireAfter) then
      Picked(AllUnseen(q.store.rows, src.key, now - 1000 * retireAfter.value), RetrievalRank(q.store.rows),
        RETIRE_LIMIT, retired)
    else retired == []
  }

  /** One run: nothing retired is shown, and what is shown is tracked into the next run. */
  lemma ShownIsNotRetired(h: Hash, p: Progress, src: Origin, fetches: seq<Fetch>, retireAfter: Option<nat>, start: int,
                          now: int, retired: seq<Key>)
    requires Indexed(p.store) && Tracks(p, src.key) && Fair(h, p, src, fetches, retireAfter, start, now)
    requires Retires(FetchAll(h, p, src, retireAfter.Some?, fetches), src, retireAfter, now, retired)
    ensures var q := FetchAll(h, p, src, retireAfter.Some?, fetches);
            Tracks(q, src.key) && forall id :: id in retired ==> !Shown(q, src, fetches, id)
  {
    RunKeeps(h, p, src, retireAfter.Some?, fetches, {}, start);
    var q := FetchAll(h, p, src, retireAfter.Some?, fetches);
    if MayRetire(q, retireAfter) {
      forall id | id in retired ensures !Shown(q, src, fetches, id) {
        var k :| 0 <= k < |retired| && retired[k] == id;
        assert id in AllUnseen(q.store.rows, src.key, now - 1000 * retireAfter.value);
        if Shown(q, src, fetches, id) { FreshIsSeen(q, src, fetches, start, id); }
      }
    }
  }

  lemma FreshIsSeen(q: Progress, src: Origin, fetches: seq<Fetch>, start: int, id: Key)
    requires Fresh(q, src.key, {} + Urls(fetches), start) && Shown(q, src, fetches, id) && Live(q.store, id)
    ensures q.store.rows[id].retrievedAt >= start
  {
    var i :| 0 <= i < |fetches| && fetches[i].url in q.shows && id.1 in q.shows[fetches[i].url];
    assert fetches[i].url in {} + Urls(fetches) && id == (src.key, id.1);
  }

  /** Removing items, by retirement or by hand, leaves the tracking as it is. */
  lemma {:induction false} RemovalKeepsTracks(p: Progress, key: string, ids: seq<Key>, reason: string, stored: string,
                                              at: int)
    requires Indexed(p.store) && Tracks(p, key)
    ensures Tracks(p.(store := RemoveAll(p.store, ids, reason, stored, at)), key)
  {
    if ids != [] {
      RemovalKeepsTracks(p, key, ids[..|ids| - 1], reason, stored, at);
      var before := RemoveAll(p.store, ids[..|ids| - 1], reason, stored, at);
      RemoveOneKeepsTracks(p.(store := before), key, ids[|ids| - 1], reason, stored, at);
    }
  }

  lemma RemoveOneKeepsTracks(p: Progress, key: string, id: Key, reason: string, stored: string, at: int)
    requires Indexed(p.store) && Tracks(p, key)
    ensures Tracks(p.(store := RemoveOne(p.store, id, reason, stored, at)), key)
  {}

  /** A run in which an endpoint failed or was not answered retires nothing. */
  lemma {:induction false} UnansweredForbids(h: Hash, p: Progress, src: Origin, retires: bool, fetches: seq<Fetch>,
                                             retireAfter: Option<nat>)
    requires Indexed(p.store)
    requires || !p.allAnswered || p.anyFailure
             || exists i :: 0 <= i < |fetches| && (fetches[i].answer.NotAsked? || fetches[i].answer.Failed?)
    ensures !MayRetire(FetchAll(h, p, src, retires, fetches), retireAfter)
    decreases |fetches|
  {
    if fetches != [] && fetches[0].answer != Failed(true) {
      if i :| 0 <= i < |fetches| && (fetches[i].answer.NotAsked? || fetches[i].answer.Failed?) {
        assert i > 0 ==> fetches[1..][i - 1] == fetches[i];
      }
      UnansweredForbids(h, FetchOne(h, p, src, retires, fetches[0]), src, retires, fetches[1..], retireAfter);
    }
  }

  // ----- any number of runs -----

  /** Between two runs of the source: items removed or pruned, or any transaction of another source. */
  datatype Between =
    | Removed(ids: seq<Key>, reason: string, stored: string, at: int)
    | Pruned(gone: set<Key>)
    | Elsewhere(op: Op)

  /** One run, with what it retired, or what happened between runs. */
  datatype Stage =
    | Ran(fetches: seq<Fetch>, retireAfter: Option<nat>, start: int, now: int, retired: seq<Key>)
    | Meanwhile(between: Between)

  predicate Foreign(op: Op, key: string) {
    match op
    case Ingest(src, _, _, _) => src.key != key
    case Remove(ids, _, _, _) => true
    case Again(other, _, _) => other != key
  }

  function Prune(s: Store, ids: set<Key>): (r: Store)
    requires Indexed(s)
    ensures Indexed(r)
  {
    Store(s.rows - ids, s.revisions - ids, s.counter)
  }

  function Meanwhiled(h: Hash, s: Store, b: Between): (r: Store)
    requires Indexed(s)
    ensures Indexed(r)
  {
    match b
    case Removed(ids, reason, stored, at) => RemoveAll(s, ids, reason, stored, at)
    case Pruned(gone) => Prune(s, gone)
    case Elsewhere(op) => Apply(h, s, op)
  }

  function Next(h: Hash, p: Progress, src: Origin, stage: Stage): (q: Progress)
    requires Indexed(p.store)
    ensures Indexed(q.store)
  {
    match stage
    case Ran(fetches, retireAfter, _, now, retired) =>
      var q := FetchAll(h, p, src, retireAfter.Some?, fetches);
      Begin(RemoveAll(q.store, retired, GONE, GONE, now), q.lastOk, q.shows)
    case Meanwhile(b) => p.(store := Meanwhiled(h, p.store, b))
  }

  /** The tables of a source, from those there when it was registered. */
  function AfterStages(h: Hash, s: Store, src: Origin, stages: seq<Stage>): (p: Progress)
    requires Indexed(s)
    ensures Indexed(p.store)
  {
    if stages == [] then Begin(s, map[], map[])
    else Next(h, AfterStages(h, s, src, stages[..|stages| - 1]), src, stages[|stages| - 1])
  }

  /** A run that is fair and retires what its rule says; between runs, nothing of this source is ingested. */
  ghost predicate Regular(h: Hash, p: Progress, src: Origin, stage: Stage)
    requires Indexed(p.store)
  {
    match stage
    case Ran(fetches, retireAfter, start, now, retired) =>
      && Fair(h, p, src, fetches, retireAfter, start, now)
      && Retires(FetchAll(h, p, src, retireAfter.Some?, fetches), src, retireAfter, now, retired)
    case Meanwhile(b) => b.Elsewhere? ==> Foreign(b.op, src.key)
  }

  ghost predicate AllRegular(h: Hash, s: Store, src: Origin, stages: seq<Stage>)
    requires Indexed(s)
  {
    stages != [] ==>
      && AllRegular(h, s, src, stages[..|stages| - 1])
      && Regular(h, AfterStages(h, s, src, stages[..|stages| - 1]), src, stages[|stages| - 1])
  }

  lemma ForeignIngestKeepsTracks(h: Hash, p: Progress, key: string, src: Origin, items: seq<Item>, at: int,
                                 run: Option<string>)
    requires Indexed(p.store) && Tracks(p, key) && src.key != key
    ensures Tracks(p.(store := IngestAll(h, p.store, src, items, at, run).0), key)
  {
    var q := p.(store := IngestAll(h, p.store, src, items, at, run).0);
    forall url, identity | url in q.shows && identity in q.shows[url] && Live(q.store, (key, identity))
      ensures q.store.rows[(key, identity)].lastRun == Some(q.lastOk[url])
    {
      OtherRows(h, p.store, src, items, at, run, (key, identity));
    }
  }

  lemma {:induction false} OtherRows(h: Hash, s: Store, src: Origin, items: seq<Item>, at: int, run: Option<string>,
                                     id: Key)
    requires Indexed(s) && id.0 != src.key
    ensures var t := IngestAll(h, s, src, items, at, run).0;
            (id in t.rows <==> id in s.rows) && (id in s.rows ==> t.rows[id] == s.rows[id])
  {
    if items != [] {
      OtherRows(h, s, src, items[..|items| - 1], at, run, id);
    }
  }

  lemma BetweenKeepsTracks(h: Hash, p: Progress, key: string, b: Between)
    requires Indexed(p.store) && Tracks(p, key) && (b.Elsewhere? ==> Foreign(b.op, key))
    ensures Tracks(p.(store := Meanwhiled(h, p.store, b)), key)
  {
    match b
    case Removed(ids, reason, stored, at) => RemovalKeepsTracks(p, key, ids, reason, stored, at);
    case Pruned(gone) =>
    case Elsewhere(op) =>
      match op
      case Ingest(src, items, at, run) => ForeignIngestKeepsTracks(h, p, key, src, items, at, run);
      case Remove(ids, reason, stored, at) => RemovalKeepsTracks(p, key, ids, reason, stored, at);
      case Again(other, run, at) =>
  }

  lemma RanKeeps(h: Hash, p: Progress, src: Origin, fetches: seq<Fetch>, retireAfter: Option<nat>, start: int, now: int,
                 retired: seq<Key>)
    requires Indexed(p.store) && Tracks(p, src.key) && Fair(h, p, src, fetches, retireAfter, start, now)
    requires Retires(FetchAll(h, p, src, retireAfter.Some?, fetches), src, retireAfter, now, retired)
    ensures var q := FetchAll(h, p, src, retireAfter.Some?, fetches);
            && Tracks(Begin(RemoveAll(q.store, retired, GONE, GONE, now), q.lastOk, q.shows), src.key)
            && forall id :: id in retired ==> !Shown(q, src, fetches, id)
  {
    ShownIsNotRetired(h, p, src, fetches, retireAfter, start, now, retired);
    RemovalKeepsTracks(FetchAll(h, p, src, retireAfter.Some?, fetches), src.key, retired, GONE, GONE, now);
  }

  lemma {:induction false} StagesTrack(h: Hash, s: Store, src: Origin, stages: seq<Stage>)
    requires Indexed(s) && AllRegular(h, s, src, stages)
    ensures Tracks(AfterStages(h, s, src, stages), src.key)
  {
    if stages != [] {
      var init, last := stages[..|stages| - 1], stages[|stages| - 1];
      StagesTrack(h, s, src, init);
      var p := AfterStages(h, s, src, init);
      match last
      case Ran(fetches, retireAfter, start, now, retired) => RanKeeps(h, p, src, fetches, retireAfter, start, now,
        retired);
      case Meanwhile(b) => BetweenKeepsTracks(h, p, src.key, b);
    }
  }

  /**
   Retirement never removes what the feed still shows, run after run: whatever was removed, pruned or done by other
   sources between a source's runs, no run retires an item that one of its endpoints lists, by a good parse now or by
   its last one kept by a 304.
   */
  lemma NeverRetiresShown(h: Hash, s: Store, src: Origin, stages: seq<Stage>)
    requires Indexed(s) && AllRegular(h, s, src, stages) && stages != [] && stages[|stages| - 1].Ran?
    ensures var p, run := AfterStages(h, s, src, stages[..|stages| - 1]), stages[|stages| - 1];
            forall id :: id in run.retired ==>
              !Shown(FetchAll(h, p, src, run.retireAfter.Some?, run.fetches), src, run.fetches, id)
  {
    var init, run := stages[..|stages| - 1], stages[|stages| - 1];
    StagesTrack(h, s, src, init);
    RanKeeps(h, AfterStages(h, s, src, init), src, run.fetches, run.retireAfter, run.start, run.now, run.retired);
  }

  /** What a run leaves, when it was fair. */
  lemma RanFairly(h: Hash, p: Progress, src: Origin, fetches: seq<Fetch>, retireAfter: Option<nat>, start: int,
                  now: int, retired: seq<Key>)
    requires Indexed(p.store) && Tracks(p, src.key)
    requires Retires(FetchAll(h, p, src, retireAfter.Some?, fetches), src, retireAfter, now, retired)
    ensures var q := FetchAll(h, p, src, retireAfter.Some?, fetches);
            Fair(h, p, src, fetches, retireAfter, start, now) ==>
              && Tracks(Begin(RemoveAll(q.store, retired, GONE, GONE, now), q.lastOk, q.shows), src.key)
              && forall id :: id in retired ==> !Shown(q, src, fetches, id)
  {
    if Fair(h, p, src, fetches, retireAfter, start, now) {
      RanKeeps(h, p, src, fetches, retireAfter, start, now, retired);
    }
  }

  // ----- the source's runs -----

  class Runs {
    const items: Items
    const src: Origin
    var lastOk: map<string, string>
    ghost var shows: map<string, set<string>>

    ghost function Now(): Progress
      reads this, items
    {
      Begin(items.State(), lastOk, shows)
    }

    ghost predicate Valid()
      reads this, items
    {
      Indexed(items.State()) && Tracks(Now(), src.key)
    }

    constructor (items: Items, src: Origin)
      requires Indexed(items.State())
      ensures this.items == items && this.src == src && lastOk == map[] && shows == map[] && Valid()
    {
      this.items, this.src := items, src;
      lastOk, shows := map[], map[];
    }

    /** The endpoints in order, with the flags retirement depends on. */
    method Fetches(retires: bool, fetches: seq<Fetch>) returns (anyFailure: bool, anySuccess: bool, allAnswered: bool)
      requires Indexed(items.State())
      modifies this, items
      ensures Indexed(items.State())
      ensures Progress(items.State(), lastOk, shows, anyFailure, anySuccess, allAnswered)
           == FetchAll(items.h, old(Now()), src, retires, fetches)
    {
      ghost var h, start := items.h, Now();
      anyFailure, anySuccess, allAnswered := false, false, true;
      var k := 0;
      while k < |fetches|
        invariant 0 <= k <= |fetches| && Indexed(items.State()) && items.h == h
        invariant FetchAll(h, start, src, retires, fetches)
               == FetchAll(h, Progress(items.State(), lastOk, shows, anyFailure, anySuccess, allAnswered), src,
                 retires, fetches[k..])
      {
        var f := fetches[k];
        assert fetches[k..][0] == f && fetches[k..][1..] == fetches[k + 1..];
        k := k + 1;
        match f.answer {
          case Parsed(parsed) =>
            var _ := items.Ingest(src, parsed, f.at, Some(f.run));
            lastOk, shows := lastOk[f.url := f.run], shows[f.url := Identities(parsed)];
            anySuccess := true;
          case NotModified =>
            if retires && f.url in lastOk { items.SeeAgain(src.key, lastOk[f.url], f.at); }
            anySuccess := true;
          case NotAsked =>
            allAnswered := false;
          case Failed(rateLimited) =>
            anyFailure, allAnswered := true, false;
            if rateLimited { break; }
        }
      }
    }

    /**
     One run, begun at `start`, and the items it retired. `now` is the time after the last endpoint. Where the run is
     fair, none of these is shown by an endpoint of the run, and the next run may rely on the same.
     */
    method Run(fetches: seq<Fetch>, retireAfter: Option<nat>, ghost start: int, now: int) returns (retired: seq<Key>)
      requires Valid()
      modifies this, items
      ensures Indexed(items.State())
      ensures var q := FetchAll(items.h, old(Now()), src, retireAfter.Some?, fetches);
              && Retires(q, src, retireAfter, now, retired)
              && Now() == Begin(RemoveAll(q.store, retired, GONE, GONE, now), q.lastOk, q.shows)
              && (Fair(items.h, old(Now()), src, fetches, retireAfter, start, now) ==>
                    Valid() && forall id :: id in retired ==> !Shown(q, src, fetches, id))
    {
      ghost var before := Now();
      var anyFailure, anySuccess, allAnswered := Fetches(retireAfter.Some?, fetches);
      retired := [];
      if retireAfter.Some? && anySuccess && allAnswered && !anyFailure {
        retired := items.RetireUnseen(src.key, now - 1000 * retireAfter.value, RETIRE_LIMIT, now);
      }
      RanFairly(items.h, before, src, fetches, retireAfter, start, now, retired);
    }
  }
}
