/**
 The item store (server/items.js): one row per identity of a source, every change of it a revision with its own place in
 the change order, removal for good.
 */
module ItemStore {
  import opened Basics

  /** A row's identity: the source key and the identity the source gave it, unique together. */
  type Key = (string, string)

  datatype Removal = Removal(at: int, reason: string)

  datatype Row = Row(
    category: string, content: Content, hash: string,
    firstSeenAt: int, retrievedAt: int, revision: nat, lastRun: Option<string>, removed: Option<Removal>,
      changeSeq: nat)

  /** A revision keeps what the row was: its content, or that it was removed. */
  datatype Snapshot = Stated(content: Content) | Gone(reason: string)

  datatype Revision = Revision(number: nat, hash: string, snapshot: Snapshot, run: Option<string>, at: int)

  /** The tables, by the identity their unique index is on: rows, their revisions, and the change counter. */
  datatype Store = Store(rows: map<Key, Row>, revisions: map<Key, seq<Revision>>, counter: nat)

  const EMPTY := Store(map[], map[], 0)

  datatype Origin = Origin(key: string, category: string)

  // ----- content -----

  function OrNull(text: Option<string>): Option<string> {
    if text == Some("") then None else text
  }

  /** `fields || {}`. */
  function OrEmpty(fields: Json): (r: Json)
    ensures r != JUndefined
  {
    if fields.JUndefined? || fields.JNull? || fields == JBool(false) || fields == JNumber("0") || fields == JString("")
    then JObject([]) else fields
  }

  /** The columns an item is stored in: empty text is null, and there are always fields. */
  function Stored(c: Content): Content {
    Content(c.kind, OrNull(c.canonicalUrl), OrNull(c.title), OrNull(c.summary), c.authors, OrNull(c.publishedAt),
            OrNull(c.updatedAt), OrEmpty(c.fields))
  }

  /** How stored content is hashed: what follows holds for any way; the store's own is ContentHashing.ContentHash. */
  type Hash = Content -> string

  // ----- one change each -----

  datatype Outcome = Created | Updated | Unchanged | Skipped

  datatype Counts = Counts(created: nat, updated: nat, kept: nat, skipped: nat)

  function Count(c: Counts, o: Outcome): Counts {
    match o
    case Created => c.(created := c.created + 1)
    case Updated => c.(updated := c.updated + 1)
    case Unchanged => c.(kept := c.kept + 1)
    case Skipped => c.(skipped := c.skipped + 1)
  }

  /** A row written with its revisions, at the next place in the change order. */
  function Put(s: Store, id: Key, row: Row, revs: seq<Revision>): Store {
    Store(s.rows[id := row], s.revisions[id := revs], s.counter + 1)
  }

  function NewRow(h: Hash, s: Store, src: Origin, it: Item, at: int, run: Option<string>): Row {
    Row(src.category, Stored(it.content), h(Stored(it.content)), at, at, 1, run, None, s.counter + 1)
  }

  function ChangedRow(h: Hash, s: Store, cur: Row, it: Item, at: int, run: Option<string>): Row {
    cur.(content := Stored(it.content), hash := h(Stored(it.content)), retrievedAt := at, revision := cur.revision + 1,
         lastRun := run, changeSeq := s.counter + 1)
  }

  function StatedRevision(row: Row, at: int, run: Option<string>): Revision {
    Revision(row.revision, row.hash, Stated(row.content), run, at)
  }

  /** One parsed item. */
  function IngestOne(h: Hash, s: Store, src: Origin, it: Item, at: int, run: Option<string>): (Store, Outcome)
    requires Indexed(s)
  {
    var id := (src.key, it.identity);
    if id !in s.rows then
      var row := NewRow(h, s, src, it, at, run);
      (Put(s, id, row, [StatedRevision(row, at, run)]), Created)
    else
      var cur := s.rows[id];
      if cur.removed.Some? then (s, Skipped)
      else if cur.hash != h(Stored(it.content)) then
        var row := ChangedRow(h, s, cur, it, at, run);
        (Put(s, id, row, s.revisions[id] + [StatedRevision(row, at, run)]), Updated)
      else (s.(rows := s.rows[id := cur.(retrievedAt := at, lastRun := run)]), Unchanged)
  }

  function RemovedRow(s: Store, cur: Row, stored: string, at: int): Row {
    cur.(removed := Some(Removal(at, if |stored| > 500 then stored[..500] else stored)), revision := cur.revision + 1,
         changeSeq := s.counter + 1)
  }

  function GoneRevision(row: Row, reason: string, at: int): Revision {
    Revision(row.revision, row.hash, Gone(reason), None, at)
  }

  /** One removal: the row, its revision, its place in the change order. */
  function MarkRemoved(s: Store, id: Key, reason: string, stored: string, at: int): Store
    requires Indexed(s) && id in s.rows
  {
    var row := RemovedRow(s, s.rows[id], stored, at);
    Put(s, id, row, s.revisions[id] + [GoneRevision(row, reason, at)])
  }

  function Seen(id: Key, row: Row, key: string, run: string, at: int): Row {
    if id.0 == key && row.lastRun == Some(run) && row.removed.None? then row.(retrievedAt := at) else row
  }

  /** A 304: the live items of the last good parse count as seen at `at`. */
  function SeenAgain(s: Store, key: string, run: string, at: int): Store {
    s.(rows := map id | id in s.rows :: Seen(id, s.rows[id], key, run, at))
  }

  // ----- the invariant -----

  ghost predicate Indexed(s: Store) {
    s.revisions.Keys == s.rows.Keys
  }

  /** Every row has its own place in the change order. */
  ghost predicate Sequenced(s: Store) {
    && (forall id :: id in s.rows ==> 0 < s.rows[id].changeSeq <= s.counter)
    && (forall a, b :: a in s.rows && b in s.rows && s.rows[a].changeSeq == s.rows[b].changeSeq ==> a == b)
  }

  /**
   Revisions are exactly 1..revision. The content ones state contents whose neighbours differ in hash, the last of them
   the row's own; a removal is the last revision, and there is one exactly when the row is removed.
   */
  ghost predicate History(h: Hash, row: Row, revs: seq<Revision>) {
    var contents := if row.removed.Some? then |revs| - 1 else |revs|;
    && |revs| == row.revision
    && (forall i :: 0 <= i < |revs| ==> revs[i].number == i + 1)
    && contents >= 1
    && (forall i :: 0 <= i < contents ==> revs[i].snapshot.Stated? && revs[i].hash == h(revs[i].snapshot.content))
    && (forall i :: 0 < i < contents ==> revs[i].hash != revs[i - 1].hash)
    && revs[contents - 1].snapshot == Stated(row.content) && row.hash == revs[contents - 1].hash
    && (row.removed.Some? ==> revs[contents].snapshot.Gone? && revs[contents].hash == row.hash)
  }

  ghost predicate Histories(h: Hash, s: Store) {
    forall id :: id in s.rows && id in s.revisions ==> History(h, s.rows[id], s.revisions[id])
  }

  ghost predicate Inv(h: Hash, s: Store) {
    Indexed(s) && Sequenced(s) && Histories(h, s)
  }

  lemma SequencedPut(s: Store, id: Key, row: Row, revs: seq<Revision>)
    requires Sequenced(s) && row.changeSeq == s.counter + 1
    ensures Sequenced(Put(s, id, row, revs))
  {}

  lemma HistoriesPut(h: Hash, s: Store, id: Key, row: Row, revs: seq<Revision>)
    requires Histories(h, s) && History(h, row, revs)
    ensures Histories(h, Put(s, id, row, revs))
  {}

  /** A row put with a history of its own keeps everything. */
  lemma PutKeeps(h: Hash, s: Store, id: Key, row: Row, revs: seq<Revision>)
    requires Inv(h, s) && row.changeSeq == s.counter + 1 && History(h, row, revs)
    ensures Inv(h, Put(s, id, row, revs))
  {
    SequencedPut(s, id, row, revs);
    HistoriesPut(h, s, id, row, revs);
  }

  lemma HistoryGrows(h: Hash, row: Row, revs: seq<Revision>, more: Row, rev: Revision)
    requires History(h, row, revs) && row.removed.None? && more.revision == row.revision + 1
             && rev.number == more.revision
    requires more.removed.None? ==> rev.snapshot == Stated(more.content) && rev.hash == more.hash == h(more.content)
                                    && more.hash != row.hash
    requires more.removed.Some? ==>
               rev.snapshot.Gone? && rev.hash == more.hash == row.hash && more.content == row.content
    ensures History(h, more, revs + [rev])
  {}

  /** A row touched in what no revision speaks of. */
  ghost predicate Touched(row: Row, touched: Row) {
    touched == row.(retrievedAt := touched.retrievedAt, lastRun := touched.lastRun)
  }

  lemma HistoryTouched(h: Hash, row: Row, touched: Row, revs: seq<Revision>)
    requires History(h, row, revs) && Touched(row, touched)
    ensures History(h, touched, revs)
  {}

  lemma SequencedTouched(s: Store, t: Store)
    requires Sequenced(s) && t.rows.Keys == s.rows.Keys && t.counter == s.counter
    requires forall id :: id in s.rows ==> t.rows[id].changeSeq == s.rows[id].changeSeq
    ensures Sequenced(t)
  {}

  lemma TouchKeeps(h: Hash, s: Store, t: Store)
    requires Inv(h, s) && t.rows.Keys == s.rows.Keys && t.revisions == s.revisions && t.counter == s.counter
    requires forall id :: id in s.rows ==> Touched(s.rows[id], t.rows[id])
    ensures Inv(h, t)
  {
    SequencedTouched(s, t);
    forall id | id in t.rows ensures History(h, t.rows[id], t.revisions[id]) {
      HistoryTouched(h, s.rows[id], t.rows[id], s.revisions[id]);
    }
  }

  lemma CreateKeeps(h: Hash, s: Store, id: Key, row: Row, at: int, run: Option<string>)
    requires Inv(h, s) && row.revision == 1 && row.removed.None? && row.hash == h(row.content)
             && row.changeSeq == s.counter + 1
    ensures Inv(h, Put(s, id, row, [StatedRevision(row, at, run)]))
  {
    PutKeeps(h, s, id, row, [StatedRevision(row, at, run)]);
  }

  lemma ChangeKeeps(h: Hash, s: Store, id: Key, row: Row, at: int, run: Option<string>)
    requires Inv(h, s) && id in s.rows && s.rows[id].removed.None? && row.removed.None?
    requires row.revision == s.rows[id].revision + 1 && row.hash == h(row.content) && row.changeSeq == s.counter + 1
    requires row.hash != s.rows[id].hash
    ensures Inv(h, Put(s, id, row, s.revisions[id] + [StatedRevision(row, at, run)]))
  {
    HistoryGrows(h, s.rows[id], s.revisions[id], row, StatedRevision(row, at, run));
    PutKeeps(h, s, id, row, s.revisions[id] + [StatedRevision(row, at, run)]);
  }

  lemma TouchOneKeeps(h: Hash, s: Store, id: Key, at: int, run: Option<string>)
    requires Inv(h, s) && id in s.rows
    ensures Inv(h, s.(rows := s.rows[id := s.rows[id].(retrievedAt := at, lastRun := run)]))
  {
    TouchKeeps(h, s, s.(rows := s.rows[id := s.rows[id].(retrievedAt := at, lastRun := run)]));
  }

  lemma IngestOneKeeps(h: Hash, s: Store, src: Origin, it: Item, at: int, run: Option<string>)
    requires Inv(h, s)
    ensures Inv(h, IngestOne(h, s, src, it, at, run).0)
  {
    var id := (src.key, it.identity);
    if id !in s.rows {
      CreateKeeps(h, s, id, NewRow(h, s, src, it, at, run), at, run);
    } else if s.rows[id].removed.None? {
      if s.rows[id].hash != h(Stored(it.content)) {
        ChangeKeeps(h, s, id, ChangedRow(h, s, s.rows[id], it, at, run), at, run);
      } else {
        TouchOneKeeps(h, s, id, at, run);
      }
    }
  }

  lemma MarkRemovedKeeps(h: Hash, s: Store, id: Key, reason: string, stored: string, at: int)
    requires Inv(h, s) && id in s.rows && s.rows[id].removed.None?
    ensures Inv(h, MarkRemoved(s, id, reason, stored, at))
  {
    var row := RemovedRow(s, s.rows[id], stored, at);
    HistoryGrows(h, s.rows[id], s.revisions[id], row, GoneRevision(row, reason, at));
    PutKeeps(h, s, id, row, s.revisions[id] + [GoneRevision(row, reason, at)]);
  }

  lemma SeenAgainKeeps(h: Hash, s: Store, key: string, run: string, at: int)
    requires Inv(h, s)
    ensures Inv(h, SeenAgain(s, key, run, at))
  {
    TouchKeeps(h, s, SeenAgain(s, key, run, at));
  }

  // ----- transactions -----

  /** The items of one successful fetch, in order. */
  function IngestAll(h: Hash, s: Store, src: Origin, items: seq<Item>, at: int,
                     run: Option<string>): (r: (Store, Counts))
    requires Indexed(s)
    ensures Indexed(r.0)
  {
    if items == [] then (s, Counts(0, 0, 0, 0))
    else
      var (before, counts) := IngestAll(h, s, src, items[..|items| - 1], at, run);
      var (after, outcome) := IngestOne(h, before, src, items[|items| - 1], at, run);
      (after, Count(counts, outcome))
  }

  /** Removing one item: a missing or removed one is left alone. */
  function RemoveOne(s: Store, id: Key, reason: string, stored: string, at: int): (r: Store)
    requires Indexed(s)
    ensures Indexed(r)
  {
    if id in s.rows && s.rows[id].removed.None? then MarkRemoved(s, id, reason, stored, at) else s
  }

  function RemoveAll(s: Store, ids: seq<Key>, reason: string, stored: string, at: int): (r: Store)
    requires Indexed(s)
    ensures Indexed(r)
  {
    if ids == [] then s
    else RemoveOne(RemoveAll(s, ids[..|ids| - 1], reason, stored, at), ids[|ids| - 1], reason, stored, at)
  }

  /** What can happen to the store, a transaction at a time. Removals and retirements differ in what they choose. */
  datatype Op =
    | Ingest(src: Origin, items: seq<Item>, at: int, run: Option<string>)
    | Remove(ids: seq<Key>, reason: string, stored: string, at: int)
    | Again(key: string, last: string, at: int)

  function Apply(h: Hash, s: Store, op: Op): (r: Store)
    requires Indexed(s)
    ensures Indexed(r)
  {
    match op
    case Ingest(src, items, at, run) => IngestAll(h, s, src, items, at, run).0
    case Remove(ids, reason, stored, at) => RemoveAll(s, ids, reason, stored, at)
    case Again(key, run, at) => SeenAgain(s, key, run, at)
  }

  function ApplyAll(h: Hash, s: Store, ops: seq<Op>): (r: Store)
    requires Indexed(s)
    ensures Indexed(r)
  {
    if ops == [] then s else Apply(h, ApplyAll(h, s, ops[..|ops| - 1]), ops[|ops| - 1])
  }

  // ----- every reachable store -----

  /** What a follower may rely on for one row, from one store to a later one. */
  ghost predicate RowLater(id: Key, s: Store, t: Store)
    requires Indexed(s) && Indexed(t)
  {
    && (id in s.rows ==>
          && id in t.rows && t.rows[id].category == s.rows[id].category
          && (s.rows[id].removed.Some? ==> t.rows[id] == s.rows[id] && t.revisions[id] == s.revisions[id])
          && s.revisions[id] <= t.revisions[id]
          && (t.rows[id].changeSeq > s.counter || Touched(s.rows[id], t.rows[id])))
    && (id in t.rows && id !in s.rows ==> t.rows[id].changeSeq > s.counter)
  }

  /**
   From one store to a later one: no row is lost, histories only grow, a removed item stays as it is, and whatever
   changed has a place in the change order after all that was there.
   */
  ghost predicate Later(s: Store, t: Store) {
    Indexed(s) && Indexed(t) && s.counter <= t.counter && forall id :: RowLater(id, s, t)
  }

  lemma LaterSame(s: Store)
    requires Indexed(s)
    ensures Later(s, s)
  {
    forall id ensures RowLater(id, s, s) {}
  }

  lemma LaterTransitive(s: Store, t: Store, u: Store)
    requires Later(s, t) && Later(t, u)
    ensures Later(s, u)
  {
    forall id ensures RowLater(id, s, u) {
      assert RowLater(id, s, t) && RowLater(id, t, u);
    }
  }

  lemma PutLater(s: Store, id: Key, row: Row, revs: seq<Revision>)
    requires Indexed(s) && row.changeSeq == s.counter + 1
    requires id in s.rows ==> s.rows[id].removed.None? && row.category == s.rows[id].category && s.revisions[id] <= revs
    ensures Later(s, Put(s, id, row, revs))
  {}

  lemma TouchedLater(h: Hash, s: Store, src: Origin, it: Item, at: int, run: Option<string>)
    requires Indexed(s) && (src.key, it.identity) in s.rows
    requires var cur := s.rows[(src.key, it.identity)]; cur.removed.Some? || cur.hash == h(Stored(it.content))
    ensures Later(s, IngestOne(h, s, src, it, at, run).0)
  {
    var id := (src.key, it.identity);
    if s.rows[id].removed.Some? {
      LaterSame(s);
    } else {
      var t := s.(rows := s.rows[id := s.rows[id].(retrievedAt := at, lastRun := run)]);
      forall other ensures RowLater(other, s, t) {}
    }
  }

  lemma IngestOneLater(h: Hash, s: Store, src: Origin, it: Item, at: int, run: Option<string>)
    requires Indexed(s)
    ensures Later(s, IngestOne(h, s, src, it, at, run).0)
  {
    var id := (src.key, it.identity);
    if id !in s.rows {
      var row := NewRow(h, s, src, it, at, run);
      PutLater(s, id, row, [StatedRevision(row, at, run)]);
    } else if s.rows[id].removed.None? && s.rows[id].hash != h(Stored(it.content)) {
      var row := ChangedRow(h, s, s.rows[id], it, at, run);
      PutLater(s, id, row, s.revisions[id] + [StatedRevision(row, at, run)]);
    } else {
      TouchedLater(h, s, src, it, at, run);
    }
  }

  lemma {:induction false} IngestAllKeeps(h: Hash, s: Store, src: Origin, items: seq<Item>, at: int,
                                          run: Option<string>)
    requires Inv(h, s)
    ensures Inv(h, IngestAll(h, s, src, items, at, run).0)
    ensures Later(s, IngestAll(h, s, src, items, at, run).0)
  {
    if items == [] {
      LaterSame(s);
    } else {
      var init, it := items[..|items| - 1], items[|items| - 1];
      IngestAllKeeps(h, s, src, init, at, run);
      var t := IngestAll(h, s, src, init, at, run).0;
      var u := IngestOne(h, t, src, it, at, run).0;
      assert IngestAll(h, s, src, items, at, run).0 == u;
      assert Inv(h, u) by { IngestOneKeeps(h, t, src, it, at, run); }
      assert Later(s, u) by {
        assert Later(t, u) by { IngestOneLater(h, t, src, it, at, run); }
        LaterTransitive(s, t, u);
      }
    }
  }

  /** Every item offered is counted once. */
  lemma {:induction false} IngestCounts(h: Hash, s: Store, src: Origin, items: seq<Item>, at: int, run: Option<string>)
    requires Indexed(s)
    ensures var c := IngestAll(h, s, src, items, at, run).1;
            c.created + c.updated + c.kept + c.skipped == |items|
  {
    if items != [] {
      IngestCounts(h, s, src, items[..|items| - 1], at, run);
    }
  }

  lemma RemoveOneKeeps(h: Hash, s: Store, id: Key, reason: string, stored: string, at: int)
    requires Inv(h, s)
    ensures Inv(h, RemoveOne(s, id, reason, stored, at)) && Later(s, RemoveOne(s, id, reason, stored, at))
  {
    if id in s.rows && s.rows[id].removed.None? {
      MarkRemovedKeeps(h, s, id, reason, stored, at);
      var row := RemovedRow(s, s.rows[id], stored, at);
      PutLater(s, id, row, s.revisions[id] + [GoneRevision(row, reason, at)]);
    } else {
      LaterSame(s);
    }
  }

  lemma {:induction false} RemoveAllKeeps(h: Hash, s: Store, ids: seq<Key>, reason: string, stored: string, at: int)
    requires Inv(h, s)
    ensures Inv(h, RemoveAll(s, ids, reason, stored, at)) && Later(s, RemoveAll(s, ids, reason, stored, at))
  {
    if ids == [] {
      LaterSame(s);
    } else {
      var init, id := ids[..|ids| - 1], ids[|ids| - 1];
      RemoveAllKeeps(h, s, init, reason, stored, at);
      var t := RemoveAll(s, init, reason, stored, at);
      var u := RemoveOne(t, id, reason, stored, at);
      assert RemoveAll(s, ids, reason, stored, at) == u;
      assert Inv(h, u) && Later(s, u) by {
        RemoveOneKeeps(h, t, id, reason, stored, at);
        LaterTransitive(s, t, u);
      }
    }
  }

  lemma TouchLater(s: Store, t: Store)
    requires Indexed(s) && t.rows.Keys == s.rows.Keys && t.revisions == s.revisions && t.counter == s.counter
    requires forall id :: id in s.rows ==> Touched(s.rows[id], t.rows[id])
    requires forall id :: id in s.rows && s.rows[id].removed.Some? ==> t.rows[id] == s.rows[id]
    ensures Later(s, t)
  {}

  lemma SeenAgainLater(s: Store, key: string, run: string, at: int)
    requires Indexed(s)
    ensures Later(s, SeenAgain(s, key, run, at))
  {
    TouchLater(s, SeenAgain(s, key, run, at));
  }

  /** A transaction keeps the invariant, appends to histories, and leaves a removed item alone. */
  lemma ApplyKeeps(h: Hash, s: Store, op: Op)
    requires Inv(h, s)
    ensures Inv(h, Apply(h, s, op)) && Later(s, Apply(h, s, op))
  {
    match op
    case Ingest(src, items, at, run) => IngestAllKeeps(h, s, src, items, at, run);
    case Remove(ids, reason, stored, at) => RemoveAllKeeps(h, s, ids, reason, stored, at);
    case Again(key, run, at) =>
      SeenAgainKeeps(h, s, key, run, at);
      SeenAgainLater(s, key, run, at);
  }

  /** In every reachable store histories are complete, and from any store on removal is final. */
  lemma {:induction false} ReachableKeeps(h: Hash, s: Store, ops: seq<Op>)
    requires Inv(h, s)
    ensures Inv(h, ApplyAll(h, s, ops)) && Later(s, ApplyAll(h, s, ops))
  {
    if ops == [] {
      LaterSame(s);
    } else {
      ReachableKeeps(h, s, ops[..|ops| - 1]);
      var t := ApplyAll(h, s, ops[..|ops| - 1]);
      var u := Apply(h, t, ops[|ops| - 1]);
      assert ApplyAll(h, s, ops) == u;
      assert Inv(h, u) && Later(s, u) by {
        ApplyKeeps(h, t, ops[|ops| - 1]);
        LaterTransitive(s, t, u);
      }
    }
  }
}
