/**
 The change feed (server/items.js): the store's mutable tables with their transactions, pages of it in change order, and
 what a consumer that follows the pages ends up with.
 */
module ChangeFeed {
  import opened Basics
  import opened ItemStore

  // ----- a page -----

  /** The optional fixed filter of a consumer. */
  datatype Filter = Filter(source: Option<string>, category: Option<string>) {
    predicate Matches(id: Key, row: Row) {
      && (source.None? || source.value == id.0)
      && (category.None? || category.value == row.category)
    }
  }

  predicate Ahead(rows: map<Key, Row>, f: Filter, after: nat, id: Key) {
    id in rows && f.Matches(id, rows[id]) && rows[id].changeSeq > after
  }

  predicate Listed(rows: map<Key, Row>, f: Filter, includeRemoved: bool, after: nat, id: Key) {
    Ahead(rows, f, after, id) && (includeRemoved || rows[id].removed.None?)
  }

  function AllListed(rows: map<Key, Row>, f: Filter, includeRemoved: bool, after: nat): set<Key> {
    set id | id in rows && Listed(rows, f, includeRemoved, after, id)
  }

  /** Where a page ends: at its last row, or where it began when it is empty. */
  function NextAfter(rows: map<Key, Row>, after: nat, page: seq<Key>): nat {
    if page == [] || page[|page| - 1] !in rows then after else rows[page[|page| - 1]].changeSeq
  }

  /** `page` is the rows listed after `after`, in change order, up to `limit`; `more` says that some are left. */
  ghost predicate IsPage(rows: map<Key, Row>, f: Filter, incl: bool, after: nat, limit: nat, page: seq<Key>,
                         more: bool)
  {
    && |page| <= limit
    && (forall i :: 0 <= i < |page| ==> Listed(rows, f, incl, after, page[i]))
    && (forall i, j :: 0 <= i < j < |page| ==> rows[page[i]].changeSeq < rows[page[j]].changeSeq)
    && (forall id :: Listed(rows, f, incl, after, id) && id !in page ==>
         more && rows[id].changeSeq > NextAfter(rows, after, page))
    && (more ==> |page| == limit && exists id :: Listed(rows, f, incl, after, id) && id !in page)
  }

  // ----- ORDER BY rank LIMIT limit -----

  type Rank = Key -> int

  /** The first `limit` candidates by rank; ties in any order. */
  ghost predicate Picked(candidates: set<Key>, rank: Rank, limit: nat, ids: seq<Key>) {
    && |ids| <= limit
    && (forall i :: 0 <= i < |ids| ==> ids[i] in candidates)
    && (forall i, j :: 0 <= i < j < |ids| ==> ids[i] != ids[j] && rank(ids[i]) <= rank(ids[j]))
    && (forall id :: id in candidates && id !in ids ==> |ids| == limit && forall i :: 0 <= i < |ids| ==>
         rank(ids[i]) <= rank(id))
  }

  method Least(candidates: set<Key>, rank: Rank) returns (least: Key)
    requires candidates != {}
    ensures least in candidates && forall id :: id in candidates ==> rank(least) <= rank(id)
  {
    least :| least in candidates;
    var rest := candidates - {least};
    while rest != {}
      invariant rest <= candidates && least in candidates
      invariant forall id :: id in candidates && id !in rest ==> rank(least) <= rank(id)
      decreases rest
    {
      var id :| id in rest;
      rest := rest - {id};
      if rank(id) < rank(least) { least := id; }
    }
  }

  method Earliest(candidates: set<Key>, rank: Rank, limit: nat) returns (ids: seq<Key>)
    ensures Picked(candidates, rank, limit, ids)
  {
    ids := [];
    var rest := candidates;
    while rest != {} && |ids| < limit
      invariant |ids| <= limit && rest <= candidates
      invariant forall id :: id in candidates <==> id in rest || id in ids
      invariant forall i :: 0 <= i < |ids| ==> ids[i] !in rest
      invariant forall i, j :: 0 <= i < j < |ids| ==> ids[i] != ids[j] && rank(ids[i]) <= rank(ids[j])
      invariant forall i, id :: 0 <= i < |ids| && id in rest ==> rank(ids[i]) <= rank(id)
      decreases rest
    {
      var id := Least(rest, rank);
      rest := rest - {id};
      ids := ids + [id];
    }
  }

  function ChangeRank(rows: map<Key, Row>): Rank {
    id => if id in rows then rows[id].changeSeq else 0
  }

  function RetrievalRank(rows: map<Key, Row>): Rank {
    id => if id in rows then rows[id].retrievedAt else 0
  }

  /** Rows found in change order: listed ones, strictly in order, and none left before the last when there is room. */
  ghost predicate Found(rows: map<Key, Row>, listed: set<Key>, limit: nat, found: seq<Key>)
    requires listed <= rows.Keys
  {
    && |found| <= limit
    && (forall i :: 0 <= i < |found| ==> found[i] in listed)
    && (forall i, j :: 0 <= i < j < |found| ==> rows[found[i]].changeSeq < rows[found[j]].changeSeq)
    && (forall id :: id in listed && id !in found ==>
          |found| == limit && forall i :: 0 <= i < |found| ==> rows[found[i]].changeSeq < rows[id].changeSeq)
  }

  lemma PickedFound(s: Store, listed: set<Key>, limit: nat, found: seq<Key>)
    requires Sequenced(s) && listed <= s.rows.Keys && Picked(listed, ChangeRank(s.rows), limit, found)
    ensures Found(s.rows, listed, limit, found)
  {
    forall i, j | 0 <= i < j < |found| ensures s.rows[found[i]].changeSeq < s.rows[found[j]].changeSeq {
      assert ChangeRank(s.rows)(found[i]) <= ChangeRank(s.rows)(found[j]);
    }
    forall id, i | id in listed && id !in found && 0 <= i < |found|
      ensures s.rows[found[i]].changeSeq < s.rows[id].changeSeq
    {
      assert ChangeRank(s.rows)(found[i]) <= ChangeRank(s.rows)(id);
    }
  }

  /** Cutting off a row found beyond the limit. */
  lemma FoundCut(rows: map<Key, Row>, listed: set<Key>, limit: nat, found: seq<Key>)
    requires listed <= rows.Keys && Found(rows, listed, limit + 1, found) && |found| > limit
    ensures Found(rows, listed, limit, found[..limit])
    ensures found[limit] in listed && found[limit] !in found[..limit]
  {
    var page := found[..limit];
    assert forall j :: 0 <= j < limit ==> found[j] == page[j] && found[j] in page;
    forall id, i | id in listed && id !in page && 0 <= i < |page| ensures rows[page[i]].changeSeq < rows[id].changeSeq {
      if id in found {
        var j :| 0 <= j < |found| && found[j] == id;
      }
    }
  }

  /** What is found is a page: with one row more than the limit there is more, else there is not. */
  lemma FoundIsPage(rows: map<Key, Row>, f: Filter, incl: bool, after: nat, limit: nat, page: seq<Key>, more: bool)
    requires Found(rows, AllListed(rows, f, incl, after), limit, page)
    requires if more then |page| == limit && exists id :: id in AllListed(rows, f, incl, after) && id !in page
             else forall id :: id in AllListed(rows, f, incl, after) ==> id in page
    ensures IsPage(rows, f, incl, after, limit, page, more)
  {
    forall i | 0 <= i < |page| ensures Listed(rows, f, incl, after, page[i]) {
      assert page[i] in AllListed(rows, f, incl, after);
    }
  }

  // ----- the tables -----

  class Items {
    const h: Hash
    var rows: map<Key, Row>
    var revisions: map<Key, seq<Revision>>
    var counter: nat

    function State(): Store
      reads this
    {
      Store(rows, revisions, counter)
    }

    constructor (h: Hash)
      ensures this.h == h && State() == EMPTY
    {
      this.h := h;
      rows, revisions, counter := map[], map[], 0;
    }

    method IngestItem(src: Origin, it: Item, at: int, run: Option<string>) returns (outcome: Outcome)
      requires Indexed(State())
      modifies this
      ensures Indexed(State()) && (State(), outcome) == IngestOne(h, old(State()), src, it, at, run)
    {
      var id := (src.key, it.identity);
      if id !in rows {
        counter := counter + 1;
        var row := Row(src.category, Stored(it.content), h(Stored(it.content)), at, at, 1, run, None, counter);
        rows := rows[id := row];
        revisions := revisions[id := [StatedRevision(row, at, run)]];
        return Created;
      }
      if rows[id].removed.Some? { return Skipped; }                   // removal is sticky
      if rows[id].hash != h(Stored(it.content)) {
        counter := counter + 1;
        var row := rows[id].(content := Stored(it.content), hash := h(Stored(it.content)), retrievedAt := at,
                             revision := rows[id].revision + 1, lastRun := run, changeSeq := counter);
        rows := rows[id := row];
        revisions := revisions[id := revisions[id] + [StatedRevision(row, at, run)]];
        return Updated;
      }
      rows := rows[id := rows[id].(retrievedAt := at, lastRun := run)];
      return Unchanged;
    }

    /** Apply one successful fetch's parsed items. */
    method Ingest(src: Origin, items: seq<Item>, at: int, run: Option<string>) returns (counts: Counts)
      requires Indexed(State())
      modifies this
      ensures Indexed(State()) && (State(), counts) == IngestAll(h, old(State()), src, items, at, run)
      ensures counts.created + counts.updated + counts.kept + counts.skipped == |items|
    {
      IngestCounts(h, State(), src, items, at, run);
      counts := Counts(0, 0, 0, 0);
      var k := 0;
      while k < |items|
        invariant 0 <= k <= |items| && Indexed(State())
        invariant (State(), counts) == IngestAll(h, old(State()), src, items[..k], at, run)
      {
        assert items[..k + 1][..k] == items[..k];
        var outcome := IngestItem(src, items[k], at, run);
        counts := Count(counts, outcome);
        k := k + 1;
      }
      assert items[..k] == items;
    }

    method MarkOne(id: Key, reason: string, stored: string, at: int)
      requires Indexed(State()) && id in rows
      modifies this
      ensures Indexed(State()) && State() == MarkRemoved(old(State()), id, reason, stored, at)
    {
      counter := counter + 1;
      var row := rows[id].(removed := Some(Removal(at, if |stored| > 500 then stored[..500] else stored)),
                           revision := rows[id].revision + 1, changeSeq := counter);
      rows := rows[id := row];
      revisions := revisions[id := revisions[id] + [GoneRevision(row, reason, at)]];
    }

    /** Remove an item, for good. A missing item, one of another source or one already removed is left alone. */
    method Remove(key: string, id: Key, reason: string, who: string, at: int)
      requires Indexed(State())
      modifies this
      ensures Indexed(State())
      ensures State() == if id.0 == key then RemoveOne(old(State()), id, reason, StoredReason(reason, who), at)
                         else old(State())
    {
      if id !in rows || id.0 != key { return; }
      if rows[id].removed.Some? { return; }
      MarkOne(id, reason, StoredReason(reason, who), at);
    }

    /** The live items of a source not seen since `cutoff`, at most `limit` of them and those seen longest ago first. */
    method RetireUnseen(key: string, cutoff: int, limit: nat, at: int) returns (ids: seq<Key>)
      requires Indexed(State())
      modifies this
      ensures Indexed(State()) && State() == RemoveAll(old(State()), ids, "gone_from_source", "gone_from_source", at)
      ensures Picked(AllUnseen(old(rows), key, cutoff), RetrievalRank(old(rows)), limit, ids)
    {
      ids := Earliest(AllUnseen(rows, key, cutoff), RetrievalRank(rows), limit);
      RetireAll(ids, "gone_from_source", at);
    }

    /** The live items of a source that its run `run` saw last, at most 500 of them. */
    method RetireRun(key: string, run: string, reason: string, at: int) returns (ids: seq<Key>)
      requires Indexed(State())
      modifies this
      ensures Indexed(State()) && State() == RemoveAll(old(State()), ids, reason, reason, at)
      ensures forall id :: id in ids ==> id in old(rows) && OfRun(old(rows), key, run, id)
      ensures |ids| <= 500 && (|ids| < 500 ==> forall id :: OfRun(old(rows), key, run, id) ==> id in ids)
    {
      var candidates := set id | id in rows && OfRun(rows, key, run, id);
      ids := Earliest(candidates, _ => 0, 500);
      RetireAll(ids, reason, at);
    }

    method RetireAll(ids: seq<Key>, reason: string, at: int)
      requires Indexed(State())
      modifies this
      ensures Indexed(State()) && State() == RemoveAll(old(State()), ids, reason, reason, at)
    {
      var k := 0;
      while k < |ids|
        invariant 0 <= k <= |ids| && Indexed(State())
        invariant State() == RemoveAll(old(State()), ids[..k], reason, reason, at)
      {
        assert ids[..k + 1][..k] == ids[..k];
        if ids[k] in rows && rows[ids[k]].removed.None? {
          MarkOne(ids[k], reason, reason, at);
        }
        k := k + 1;
      }
      assert ids[..k] == ids;
    }

    /**
     A 304: what the endpoint's last good parse saw, and nothing else, is retired only by a cutoff after `at`. No
     reader of the feed can tell: every page is the page it was.
     */
    method SeeAgain(key: string, run: string, at: int)
      requires Indexed(State())
      modifies this`rows
      ensures Indexed(State()) && State() == SeenAgain(old(State()), key, run, at)
      ensures SeenSince(old(rows), rows, key, run, at) && SameFeed(old(rows), rows)
      ensures Inv(h, old(State())) ==> Inv(h, State())
    {
      rows := map id | id in rows :: Seen(id, rows[id], key, run, at);
      assert State() == SeenAgain(old(State()), key, run, at);
      assert Inv(h, old(State())) ==> Inv(h, State()) by {
        if Inv(h, old(State())) { SeenAgainKeeps(h, old(State()), key, run, at); }
      }
      assert SeenSince(old(rows), rows, key, run, at) by { SeenAgainUnseen(old(State()), key, run, at); }
      assert SameFeed(old(rows), rows) by { SeenAgainSameFeed(old(State()), key, run, at); }
    }

    /** Items in change order: created, updated or removed after `after`. */
    method List(f: Filter, incl: bool, after: nat, limit: nat) returns (page: seq<Key>, nextAfter: nat, more: bool)
      requires Sequenced(State())
      ensures IsPage(rows, f, incl, after, limit, page, more) && nextAfter == NextAfter(rows, after, page)
    {
      var found := Earliest(AllListed(rows, f, incl, after), ChangeRank(rows), limit + 1);
      PickedFound(State(), AllListed(rows, f, incl, after), limit + 1, found);
      more := |found| > limit;
      page := found;
      if more {
        FoundCut(rows, AllListed(rows, f, incl, after), limit, found);
        page := found[..limit];
      }
      FoundIsPage(rows, f, incl, after, limit, page, more);
      nextAfter := NextAfter(rows, after, page);
    }
  }

  function StoredReason(reason: string, who: string): string {
    if who == "" then reason else reason + " (by " + who + ")"
  }

  predicate Unseen(rows: map<Key, Row>, key: string, cutoff: int, id: Key) {
    id in rows && id.0 == key && rows[id].removed.None? && rows[id].retrievedAt < cutoff
  }

  function AllUnseen(rows: map<Key, Row>, key: string, cutoff: int): set<Key> {
    set id | id in rows && Unseen(rows, key, cutoff, id)
  }

  /** The live items of that run are unseen only before a cutoff after `at`, all others exactly when they were. */
  ghost predicate SeenSince(rows: map<Key, Row>, later: map<Key, Row>, key: string, run: string, at: int) {
    forall id, k, cutoff :: id in AllUnseen(later, k, cutoff) <==>
      if OfRun(rows, key, run, id) then k == key && at < cutoff else id in AllUnseen(rows, k, cutoff)
  }

  lemma SeenAgainUnseen(s: Store, key: string, run: string, at: int)
    ensures SeenSince(s.rows, SeenAgain(s, key, run, at).rows, key, run, at)
  {}

  /** Every page of the one table is one of the other, and what a consumer copies of a row is the same. */
  ghost predicate SameFeed(rows: map<Key, Row>, later: map<Key, Row>) {
    && rows.Keys == later.Keys
    && (forall id :: id in rows ==> CopyOf(later[id]) == CopyOf(rows[id]))
    && forall f: Filter, incl, after, limit, page, more ::
         IsPage(later, f, incl, after, limit, page, more) <==> IsPage(rows, f, incl, after, limit, page, more)
  }

  /** The same rows listed, at the same places. */
  ghost predicate SameListing(rows: map<Key, Row>, later: map<Key, Row>, f: Filter, incl: bool, after: nat) {
    && rows.Keys == later.Keys
    && (forall id :: id in rows ==> later[id].changeSeq == rows[id].changeSeq)
    && forall id :: Listed(later, f, incl, after, id) <==> Listed(rows, f, incl, after, id)
  }

  lemma SamePages(rows: map<Key, Row>, later: map<Key, Row>, f: Filter, incl: bool, after: nat, limit: nat,
                  page: seq<Key>, more: bool)
    requires SameListing(rows, later, f, incl, after) && IsPage(rows, f, incl, after, limit, page, more)
    ensures IsPage(later, f, incl, after, limit, page, more)
  {
    assert NextAfter(later, after, page) == NextAfter(rows, after, page);
    forall i | 0 <= i < |page| ensures Listed(later, f, incl, after, page[i]) {
      assert Listed(rows, f, incl, after, page[i]);
    }
    if more {
      var id :| Listed(rows, f, incl, after, id) && id !in page;
      assert Listed(later, f, incl, after, id);
    }
  }

  lemma SeenAgainSameFeed(s: Store, key: string, run: string, at: int)
    ensures SameFeed(s.rows, SeenAgain(s, key, run, at).rows)
  {
    var t := SeenAgain(s, key, run, at);
    forall f: Filter, incl, after, limit, page, more
      ensures IsPage(t.rows, f, incl, after, limit, page, more) <==> IsPage(s.rows, f, incl, after, limit, page, more)
    {
      assert SameListing(s.rows, t.rows, f, incl, after) && SameListing(t.rows, s.rows, f, incl, after);
      if IsPage(t.rows, f, incl, after, limit, page, more) {
        SamePages(t.rows, s.rows, f, incl, after, limit, page, more);
      }
      if IsPage(s.rows, f, incl, after, limit, page, more) {
        SamePages(s.rows, t.rows, f, incl, after, limit, page, more);
      }
    }
  }

  predicate OfRun(rows: map<Key, Row>, key: string, run: string, id: Key) {
    id in rows && id.0 == key && rows[id].lastRun == Some(run) && rows[id].removed.None?
  }

  // ----- a consumer that follows the pages -----

  /** What a consumer copies of a row. `retrievedAt` is not of it: seeing an unchanged item again is no change. */
  datatype Copy = Copy(content: Content, revision: nat, removed: Option<Removal>)

  function CopyOf(row: Row): Copy {
    Copy(row.content, row.revision, row.removed)
  }

  /** A consumer: where it resumes, and what it holds. */
  datatype Follower = Follower(after: nat, mirror: map<Key, Copy>)

  const BEGINNING := Follower(0, map[])

  function Follow(rows: map<Key, Row>, fol: Follower, page: seq<Key>): Follower {
    Follower(NextAfter(rows, fol.after, page),
             map id | id in fol.mirror.Keys + (set k | k in page && k in rows) ::
               if id in page && id in rows then CopyOf(rows[id]) else fol.mirror[id])
  }

  /** What happens, in the order it commits: a transaction of the store, or a page the consumer reads. */
  datatype Event = Changed(op: Op) | Polled(limit: nat, page: seq<Key>, more: bool)

  datatype World = World(store: Store, follower: Follower)

  const START := World(EMPTY, BEGINNING)

  ghost function After(h: Hash, events: seq<Event>): (w: World)
    ensures Indexed(w.store)
  {
    if events == [] then START
    else
      var w := After(h, events[..|events| - 1]);
      match events[|events| - 1]
      case Changed(op) => w.(store := Apply(h, w.store, op))
      case Polled(_, page, _) => w.(follower := Follow(w.store.rows, w.follower, page))
  }

  /** Every page read was a page of the store as it then was, removed items included. */
  ghost predicate Honest(h: Hash, f: Filter, events: seq<Event>) {
    events != [] ==>
      var w, last := After(h, events[..|events| - 1]), events[|events| - 1];
      && Honest(h, f, events[..|events| - 1])
      && (last.Polled? ==> IsPage(w.store.rows, f, true, w.follower.after, last.limit, last.page, last.more))
  }

  /** The consumer holds every matching row up to its place in the change order as it is, and nothing else. */
  ghost predicate Synced(f: Filter, w: World) {
    && w.follower.after <= w.store.counter
    && (forall id :: id in w.follower.mirror ==> id in w.store.rows && f.Matches(id, w.store.rows[id]))
    && (forall id ::
          id in w.store.rows && f.Matches(id, w.store.rows[id]) && w.store.rows[id].changeSeq <= w.follower.after ==>
            id in w.follower.mirror && w.follower.mirror[id] == CopyOf(w.store.rows[id]))
  }

  lemma ChangeStaysSynced(f: Filter, w: World, t: Store)
    requires Synced(f, w) && Later(w.store, t)
    ensures Synced(f, w.(store := t))
  {
    forall id | id in w.follower.mirror ensures id in t.rows && f.Matches(id, t.rows[id]) {
      assert RowLater(id, w.store, t);
    }
    forall id | id in t.rows && f.Matches(id, t.rows[id]) && t.rows[id].changeSeq <= w.follower.after
      ensures id in w.follower.mirror && w.follower.mirror[id] == CopyOf(t.rows[id])
    {
      assert RowLater(id, w.store, t);
    }
  }

  /** Reading a page moves the consumer on past exactly the rows it now holds. */
  lemma PageStaysSynced(f: Filter, w: World, limit: nat, page: seq<Key>, more: bool)
    requires Synced(f, w) && Sequenced(w.store) && IsPage(w.store.rows, f, true, w.follower.after, limit, page, more)
    ensures Synced(f, w.(follower := Follow(w.store.rows, w.follower, page)))
    ensures !more ==> forall id :: id in w.store.rows && f.Matches(id, w.store.rows[id]) ==>
                        w.store.rows[id].changeSeq <= NextAfter(w.store.rows, w.follower.after, page)
  {
    var rows, after := w.store.rows, w.follower.after;
    PageEnds(rows, f, after, limit, page, more);
    forall id | id in rows && f.Matches(id, rows[id]) && rows[id].changeSeq <= NextAfter(rows, after, page)
      ensures var g := Follow(rows, w.follower, page); id in g.mirror && g.mirror[id] == CopyOf(rows[id])
    {
      if rows[id].changeSeq > after {
        assert Listed(rows, f, true, after, id);
      } else {
        assert id !in page;
      }
    }
  }

  lemma PageEnds(rows: map<Key, Row>, f: Filter, after: nat, limit: nat, page: seq<Key>, more: bool)
    requires IsPage(rows, f, true, after, limit, page, more)
    ensures after <= NextAfter(rows, after, page)
    ensures forall i :: 0 <= i < |page| ==>
              page[i] in rows && after < rows[page[i]].changeSeq <= NextAfter(rows, after, page)
    ensures !more ==> forall id :: id in rows && f.Matches(id, rows[id]) ==>
              rows[id].changeSeq <= NextAfter(rows, after, page)
  {
    forall i | 0 <= i < |page|
      ensures page[i] in rows && after < rows[page[i]].changeSeq <= NextAfter(rows, after, page)
    {
      assert Listed(rows, f, true, after, page[i]) && Listed(rows, f, true, after, page[|page| - 1]);
    }
    if !more {
      forall id | id in rows && f.Matches(id, rows[id]) ensures rows[id].changeSeq <= NextAfter(rows, after, page) {
        if rows[id].changeSeq > after {
          assert Listed(rows, f, true, after, id);
          var i :| 0 <= i < |page| && page[i] == id;
        }
      }
    }
  }

  lemma {:induction false} FollowerSynced(h: Hash, f: Filter, events: seq<Event>)
    requires Honest(h, f, events)
    ensures Inv(h, After(h, events).store) && Synced(f, After(h, events))
  {
    if events != [] {
      var init, last := events[..|events| - 1], events[|events| - 1];
      FollowerSynced(h, f, init);
      var w := After(h, init);
      match last
      case Changed(op) =>
        ApplyKeeps(h, w.store, op);
        ChangeStaysSynced(f, w, Apply(h, w.store, op));
      case Polled(limit, page, more) =>
        PageStaysSynced(f, w, limit, page, more);
    }
  }

  /** The consumer holds exactly the content, revision and removal of every matching item. */
  ghost predicate Complete(f: Filter, w: World) {
    w.follower.mirror == map id | id in w.store.rows && f.Matches(id, w.store.rows[id]) :: CopyOf(w.store.rows[id])
  }

  /**
   Followers converge: whatever ingests, removals and retirements happen between pages of whatever sizes, a consumer
   that starts at 0 holds, once a page says there is no more, exactly the content, revision and removal of every
   matching item.
   */
  lemma FollowerConverges(h: Hash, f: Filter, events: seq<Event>)
    requires Honest(h, f, events) && events != []
    requires events[|events| - 1].Polled? && !events[|events| - 1].more
    ensures Complete(f, After(h, events))
  {
    var init, last := events[..|events| - 1], events[|events| - 1];
    FollowerSynced(h, f, init);
    PageStaysSynced(f, After(h, init), last.limit, last.page, last.more);
    CaughtUp(f, After(h, events));
  }

  lemma CaughtUp(f: Filter, w: World)
    requires Synced(f, w)
    requires forall id :: id in w.store.rows && f.Matches(id, w.store.rows[id]) ==>
               w.store.rows[id].changeSeq <= w.follower.after
    ensures Complete(f, w)
  {}

  // ----- getting there -----

  /** How many rows a consumer still has before it. */
  function Left(f: Filter, w: World): nat {
    |AllListed(w.store.rows, f, true, w.follower.after)|
  }

  lemma {:induction false} Fewer<T>(a: set<T>, b: set<T>, x: T)
    requires a <= b && x in b && x !in a
    ensures |a| < |b|
    decreases b
  {
    if a == {} {
      assert b != {};
    } else {
      var y :| y in a;
      Fewer(a - {y}, b - {y}, x);
    }
  }

  /** A page that is not the last one leaves some rows, but fewer than there were. */
  lemma PageAdvances(f: Filter, w: World, limit: nat, page: seq<Key>)
    requires limit > 0 && IsPage(w.store.rows, f, true, w.follower.after, limit, page, true)
    ensures 0 < Left(f, w.(follower := Follow(w.store.rows, w.follower, page))) < Left(f, w)
  {
    var rows, after := w.store.rows, w.follower.after;
    var next := NextAfter(rows, after, page);
    PageEnds(rows, f, after, limit, page, true);
    var left, before := AllListed(rows, f, true, next), AllListed(rows, f, true, after);
    forall id | id in left ensures id in before {
      assert Listed(rows, f, true, next, id);
    }
    assert Listed(rows, f, true, after, page[0]);
    Fewer(left, before, page[0]);
    var id :| Listed(rows, f, true, after, id) && id !in page;
    assert id in left;
  }

  /** From the k-th event on, only pages of at least one row are read. */
  ghost predicate PollsFrom(events: seq<Event>, k: nat) {
    forall i :: k <= i < |events| ==> events[i].Polled? && events[i].limit > 0
  }

  lemma {:induction false} HonestBefore(h: Hash, f: Filter, events: seq<Event>, n: nat)
    requires n <= |events| && Honest(h, f, events)
    ensures Honest(h, f, events[..n])
    decreases |events|
  {
    if n < |events| {
      HonestBefore(h, f, events[..|events| - 1], n);
      assert events[..|events| - 1][..n] == events[..n];
    } else {
      assert events[..n] == events;
    }
  }

  lemma PollAdvances(h: Hash, f: Filter, events: seq<Event>)
    requires events != [] && Honest(h, f, events)
    requires var last := events[|events| - 1]; last.Polled? && last.limit > 0 && last.more
    ensures 0 < Left(f, After(h, events)) < Left(f, After(h, events[..|events| - 1]))
  {
    var last := events[|events| - 1];
    PageAdvances(f, After(h, events[..|events| - 1]), last.limit, last.page);
  }

  /** How many rows were left after the first `n` events. */
  ghost function LeftAfter(h: Hash, f: Filter, events: seq<Event>, n: nat): nat
    requires n <= |events|
  {
    Left(f, After(h, events[..n]))
  }

  lemma PollsOne(h: Hash, f: Filter, events: seq<Event>, n: nat)
    requires n < |events| && Honest(h, f, events) && events[n].Polled? && events[n].limit > 0 && events[n].more
    ensures 0 < LeftAfter(h, f, events, n + 1) < LeftAfter(h, f, events, n)
  {
    HonestBefore(h, f, events, n + 1);
    assert events[..n + 1][..n] == events[..n];
    PollAdvances(h, f, events[..n + 1]);
  }

  lemma {:induction false} PollsAdvance(h: Hash, f: Filter, events: seq<Event>, k: nat, n: nat)
    requires k < n <= |events| && PollsFrom(events, k) && Honest(h, f, events)
    requires forall i :: k <= i < n ==> events[i].more
    ensures 0 < LeftAfter(h, f, events, n) && LeftAfter(h, f, events, n) + n - k <= LeftAfter(h, f, events, k)
    decreases n
  {
    PollsOne(h, f, events, n - 1);
    if k < n - 1 { PollsAdvance(h, f, events, k, n - 1); }
  }

  /** So one of enough pages is the last one. */
  lemma LastPage(h: Hash, f: Filter, events: seq<Event>, k: nat) returns (n: nat)
    requires Honest(h, f, events) && k < |events| && PollsFrom(events, k)
    requires |events| - k >= Left(f, After(h, events[..k]))
    ensures k <= n < |events| && events[n].Polled? && !events[n].more
  {
    if forall i :: k <= i < |events| ==> events[i].more {
      PollsAdvance(h, f, events, k, |events|);
      assert false;
    }
    n :| k <= n < |events| && !events[n].more;
  }

  lemma ConvergedAt(h: Hash, f: Filter, events: seq<Event>, n: nat)
    requires Honest(h, f, events) && n < |events| && events[n].Polled? && !events[n].more
    ensures Complete(f, After(h, events[..n + 1]))
  {
    HonestBefore(h, f, events, n + 1);
    FollowerConverges(h, f, events[..n + 1]);
  }

  /**
   Followers arrive: once changes stop, a consumer that reads as many pages as it has rows before it, and one at least,
   reads one that says there is no more, and then holds exactly every matching item.
   */
  lemma FollowerArrives(h: Hash, f: Filter, events: seq<Event>, k: nat) returns (n: nat)
    requires Honest(h, f, events) && k < |events| && PollsFrom(events, k)
    requires |events| - k >= Left(f, After(h, events[..k]))
    ensures k <= n < |events| && events[n].Polled? && !events[n].more && Complete(f, After(h, events[..n + 1]))
  {
    n := LastPage(h, f, events, k);
    ConvergedAt(h, f, events, n);
  }
}
