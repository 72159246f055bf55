/**
 The run over the parts (server/ingest.js) and what it amounts to over any number of runs: which rows were committed.
 */
module Resumption {
  import opened Basics
  import opened BulkParser
  import opened RecordStream
  import opened Duplicates
  import opened OffDelta

  /** A row of a part, by its place among the part's well-formed rows. */
  datatype RowId = RowId(part: string, index: nat)

  /** A source: how its lines map to items, its row limit per run, and the text of each part. */
  datatype Source = Source(
    mapRecord: (Json, nat) -> Option<Item>, parseJson: string -> Option<Json>, maxRows: nat, maxItems: nat,
    content: string -> string)
  {
    /** The reader of one part, with what is left of the run's row limit. */
    function Reader(remaining: nat): Config {
      Config(Jsonl, Limit(Min(if maxRows == 0 then DEFAULT_ROWS else maxRows, remaining), remaining), mapRecord,
        parseJson)
    }

    function Budget(): nat {
      Limit(maxRows, maxItems)
    }

    function RowCount(part: string): nat {
      |Records(Config(Jsonl, 1, mapRecord, parseJson), content(part))|
    }
  }

  function RowsFrom(part: string, from: nat, to: nat): seq<RowId>
    requires from <= to
  {
    seq(to - from, i requires 0 <= i < to - from => RowId(part, from + i))
  }

  // ----- one run -----

  /** What reading parts leaves: the cursor, the rows taken, and the items they stated, part by part. */
  datatype Progress = Progress(cursor: Cursor, rows: seq<RowId>, items: seq<Item>)

  /** First one stretch of reading, then another. */
  function Then(a: Progress, b: Progress): Progress {
    Progress(b.cursor, a.rows + b.rows, a.items + b.items)
  }

  lemma ThenAssociates(a: Progress, b: Progress, c: Progress)
    ensures Then(a, Then(b, c)) == Then(Then(a, b), c)
  {}

  function Offset(c: Cursor, name: string): nat {
    if c.current == Some(name) then c.offset else 0
  }

  /** The cursor after a part: inside it when the row limit cut it, else past it. */
  function CursorAfter(c: Cursor, file: Part, cut: bool, rows: nat): Cursor {
    if cut then c.(current := Some(file.name), offset := Offset(c, file.name) + rows)
    else Cursor(Some(file.name), file.end, None, 0)
  }

  datatype PartRead = PartRead(progress: Progress, cut: bool)

  /** What the answer of a part's reader does to the run. */
  function Advance(c: Cursor, file: Part, a: Answer): PartRead {
    var offset := Offset(c, file.name);
    var p := if a.parsed.Success? then a.parsed.value else Parsed([], 0, 0, 0, 0, false);
    PartRead(Progress(CursorAfter(c, file, a.cut, p.rows), RowsFrom(file.name, offset, offset + p.rows),
      p.items), a.cut)
  }

  function OnePart(src: Source, c: Cursor, remaining: nat, file: Part): PartRead {
    Advance(c, file, Reading(src.Reader(remaining), Offset(c, file.name), src.content(file.name)))
  }

  /** The reading of one part from a cursor, with what is left of the row limit. */
  type Reader = (Cursor, nat, Part) -> PartRead

  function ReaderOf(src: Source): Reader {
    (c: Cursor, remaining: nat, file: Part) => OnePart(src, c, remaining, file)
  }

  /** `read` is the reading of `src`: what is said of the queue needs no more of a reader than that. */
  ghost predicate ReadsFor(src: Source, read: Reader) {
    forall c: Cursor, remaining: nat, file: Part {:trigger OnePart(src, c, remaining, file)} ::
      read(c, remaining, file) == OnePart(src, c, remaining, file)
  }

  function ReadQueue(read: Reader, queue: seq<Part>, c: Cursor, remaining: int): Progress {
    if queue == [] || remaining <= 0 then Progress(c, [], [])
    else
      var part := read(c, remaining, queue[0]);
      if part.cut then part.progress
      else Then(part.progress, ReadQueue(read, queue[1..], part.progress.cursor, remaining - |part.progress.items|))
  }

  lemma QueueUnfolds(read: Reader, queue: seq<Part>, k: nat, c: Cursor, remaining: nat)
    requires k < |queue| && remaining > 0
    ensures var PartRead(progress, cut) := read(c, remaining, queue[k]);
            ReadQueue(read, queue[k..], c, remaining)
            == if cut then progress
               else Then(progress, ReadQueue(read, queue[k + 1..], progress.cursor, remaining - |progress.items|))
  {
    assert queue[k..][0] == queue[k] && queue[k..][1..] == queue[k + 1..];
  }

  /** A cursor whose part under way left the index starts that place again. */
  function Known(c: Cursor, files: seq<Part>): Cursor {
    if c.current.Some? && !Named(files, c.current.value) then c.(current := None, offset := 0) else c
  }

  function RunOver(read: Reader, budget: nat, files: seq<Part>, c: Cursor): Progress {
    ReadQueue(read, NextFiles(files, Known(c, files)), Known(c, files), budget)
  }

  // ----- run after run -----

  /** A source as its runs see it: the reading of one part, how many rows a part has, and the row limit of a run. */
  datatype World = World(read: Reader, rowCount: string -> nat, budget: nat)

  function WorldOf(src: Source): World {
    World(ReaderOf(src), name => src.RowCount(name), src.Budget())
  }

  /** A run that failed, or one that read with the given index. */
  datatype Event = FailedRun | GoodRun(index: seq<Part>)

  function CursorOf(w: World, events: seq<Event>): Cursor {
    if events == [] then OLDEST
    else
      var before := CursorOf(w, events[..|events| - 1]);
      match events[|events| - 1]
      case FailedRun => before
      case GoodRun(files) => RunOver(w.read, w.budget, files, before).cursor
  }

  function LogOf(w: World, events: seq<Event>): seq<RowId> {
    if events == [] then []
    else
      var before := LogOf(w, events[..|events| - 1]);
      match events[|events| - 1]
      case FailedRun => before
      case GoodRun(files) => before + RunOver(w.read, w.budget, files, CursorOf(w, events[..|events| - 1])).rows
  }

  lemma GoodRunNext(w: World, events: seq<Event>, files: seq<Part>)
    ensures var c, more := CursorOf(w, events), events + [GoodRun(files)];
            && CursorOf(w, more) == RunOver(w.read, w.budget, files, c).cursor
            && LogOf(w, more) == LogOf(w, events) + RunOver(w.read, w.budget, files, c).rows
  {
    assert (events + [GoodRun(files)])[..|events|] == events;
  }

  lemma FailedRunNext(w: World, events: seq<Event>)
    ensures CursorOf(w, events + [FailedRun]) == CursorOf(w, events)
    ensures LogOf(w, events + [FailedRun]) == LogOf(w, events)
  {
    assert (events + [FailedRun])[..|events|] == events;
  }

  // ----- the stored state -----

  /** What a request for a part brings: nothing usable, or its text in chunks. */
  datatype Fetched = Lost | Chunks(chunks: seq<string>)

  /** Fetches that, when they bring a part, bring its text. */
  ghost predicate Faithful(src: Source, fetch: string -> Fetched) {
    forall name :: fetch(name).Chunks? ==> Flatten(fetch(name).chunks) == src.content(name)
  }

  /** Items by identity, the later one in the later place: a map in which every item is deleted and set again. */
  function Collected(items: seq<Item>): seq<Item> {
    if items == [] then []
    else Without(Collected(items[..|items| - 1]), items[|items| - 1].identity) + [items[|items| - 1]]
  }

  function Without(items: seq<Item>, id: string): seq<Item> {
    if items == [] then []
    else
      var last := items[|items| - 1];
      Without(items[..|items| - 1], id) + (if last.identity == id then [] else [last])
  }

  lemma {:induction false} WithoutMeaning(items: seq<Item>, id: string)
    ensures forall item :: item in Without(items, id) <==> item in items && item.identity != id
    ensures DistinctIdentities(items) ==> DistinctIdentities(Without(items, id))
  {
    if items != [] {
      var init, last := items[..|items| - 1], items[|items| - 1];
      WithoutMeaning(init, id);
      assert items == init + [last];
      forall item | item in init && DistinctIdentities(items) ensures item.identity != last.identity {}
    }
  }

  lemma CollectedSnoc(items: seq<Item>, item: Item)
    ensures Collected(items + [item]) == Without(Collected(items), item.identity) + [item]
  {
    assert (items + [item])[..|items|] == items;
  }

  /** What a run stores: one item per identity, the last one any part stated. */
  lemma {:induction false} CollectedMeaning(items: seq<Item>)
    ensures DistinctIdentities(Collected(items))
    ensures forall item :: item in Collected(items) <==> KeptItem(item, items, true)
  {
    if items != [] {
      var init, last := items[..|items| - 1], items[|items| - 1];
      CollectedMeaning(init);
      WithoutMeaning(Collected(init), last.identity);
      assert items == init + [last];
      forall item ensures item in Collected(items) <==> KeptItem(item, items, true) {
        if item == last {
          assert Picked(items, |init|, true);
        } else if KeptItem(item, items, true) {
          var i :| Picked(items, i, true) && items[i] == item;
          assert Picked(init, i, true);
        } else if KeptItem(item, init, true) && item.identity != last.identity {
          KeptSnoc(item, init, true, last);
        }
      }
      forall item | item in Without(Collected(init), last.identity) ensures item.identity != last.identity {}
    }
  }

  datatype Run = Failed | Done(items: seq<Item>)

  /**
   The stored state of a source: its cursor. `log` is the rows its runs have committed, in order, and `events` those
   runs.
   */
  class DeltaState {
    const src: Source
    var cursor: Cursor
    ghost var log: seq<RowId>
    ghost var events: seq<Event>

    /** The cursor and the committed rows are what the runs so far come to. */
    ghost predicate Valid()
      reads this
    {
      cursor == CursorOf(WorldOf(src), events) && log == LogOf(WorldOf(src), events)
    }

    constructor (src: Source)
      ensures Valid() && this.src == src && cursor == OLDEST && log == [] && events == []
    {
      this.src, cursor, log, events := src, OLDEST, [], [];
    }

    /** One run. A failure anywhere commits nothing; a success commits the items and the cursor together. */
    method RunOnce(index: Option<seq<Part>>, fetch: string -> Fetched) returns (r: Run)
      requires Valid() && Faithful(src, fetch)
      modifies this
      ensures Valid()
      ensures index.None? ==> r.Failed?
      ensures r.Failed? ==> index.None? || exists p :: p in index.value && fetch(p.name).Lost?
      ensures r.Failed? ==> cursor == old(cursor) && log == old(log) && events == old(events) + [FailedRun]
      ensures r.Done? ==>
                var p := RunOver(ReaderOf(src), src.Budget(), index.value, old(cursor));
                && cursor == p.cursor && log == old(log) + p.rows && r.items == Collected(p.items)
                && events == old(events) + [GoodRun(index.value)]
    {
      if index.None? {
        Fail();
        return Failed;
      }
      var files := index.value;
      var state := cursor;
      if state.current.Some? && !Named(files, state.current.value) {
        state := state.(current := None, offset := 0);
      }
      var queue := NextFiles(files, state);
      var progress, collected := ReadAll(src, ReaderOf(src), queue, state, src.Budget(), fetch);
      NextAreListed(files, state);
      if progress.None? {
        Fail();
        return Failed;
      }
      Commit(files, progress.value);
      return Done(collected);
    }

    ghost method Fail()
      requires Valid()
      modifies this`events
      ensures Valid() && events == old(events) + [FailedRun]
    {
      FailedRunNext(WorldOf(src), events);
      events := events + [FailedRun];
    }

    method Commit(ghost files: seq<Part>, progress: Progress)
      requires Valid() && progress == RunOver(ReaderOf(src), src.Budget(), files, cursor)
      modifies this
      ensures Valid() && events == old(events) + [GoodRun(files)]
      ensures cursor == progress.cursor && log == old(log) + progress.rows
    {
      GoodRunNext(WorldOf(src), events, files);
      events := events + [GoodRun(files)];
      cursor := progress.cursor;
      log := log + progress.rows;
    }
  }

  /** The same reading, from the k-th part of the queue on. */
  ghost function ReadOn(read: Reader, queue: seq<Part>, k: nat, c: Cursor, remaining: int): Progress
    requires k <= |queue|
    decreases |queue| - k
  {
    if k == |queue| || remaining <= 0 then Progress(c, [], [])
    else
      var part := read(c, remaining, queue[k]);
      if part.cut then part.progress
      else Then(part.progress, ReadOn(read, queue, k + 1, part.progress.cursor, remaining - |part.progress.items|))
  }

  lemma {:induction false} ReadOnIsQueue(read: Reader, queue: seq<Part>, k: nat, c: Cursor, remaining: int)
    requires k <= |queue|
    ensures ReadOn(read, queue, k, c, remaining) == ReadQueue(read, queue[k..], c, remaining)
    decreases |queue| - k
  {
    if k < |queue| && remaining > 0 {
      var part := read(c, remaining, queue[k]);
      QueueUnfolds(read, queue, k, c, remaining);
      ReadOnIsQueue(read, queue, k + 1, part.progress.cursor, remaining - |part.progress.items|);
    }
  }

  /** Where the loop over the queue stands: what is done so far, and then the rest, make the whole. */
  ghost predicate Stands(read: Reader, queue: seq<Part>, k: nat, done: Progress, remaining: int, whole: Progress) {
    k <= |queue| && whole == Then(done, ReadOn(read, queue, k, done.cursor, remaining))
  }

  /** One step along the queue. */
  lemma QueueStep(read: Reader, queue: seq<Part>, k: nat, done: Progress, remaining: nat, whole: Progress,
                  part: PartRead)
    requires k < |queue| && remaining > 0 && part == read(done.cursor, remaining, queue[k])
    requires Stands(read, queue, k, done, remaining, whole)
    ensures if part.cut then whole == Then(done, part.progress)
            else Stands(read, queue, k + 1, Then(done, part.progress), remaining - |part.progress.items|, whole)
  {
    if !part.cut {
      var left := remaining - |part.progress.items|;
      ThenAssociates(done, part.progress, ReadOn(read, queue, k + 1, part.progress.cursor, left));
    }
  }

  lemma QueueDone(read: Reader, queue: seq<Part>, k: nat, done: Progress, remaining: int, whole: Progress)
    requires Stands(read, queue, k, done, remaining, whole) && (k == |queue| || remaining <= 0)
    ensures whole == done
  {
    AppendNothing(done.rows);
    AppendNothing(done.items);
  }

  lemma QueueStart(read: Reader, queue: seq<Part>, c: Cursor, remaining: int)
    ensures Stands(read, queue, 0, Progress(c, [], []), remaining, ReadQueue(read, queue, c, remaining))
  {
    ReadOnIsQueue(read, queue, 0, c, remaining);
    var p := ReadOn(read, queue, 0, c, remaining);
    assert queue[0..] == queue && [] + p.rows == p.rows && [] + p.items == p.items;
  }

  /** The parts of the queue in turn, until one is cut short, the row limit is used up, or one cannot be read. */
  method ReadAll(src: Source, ghost read: Reader, queue: seq<Part>, state: Cursor, budget: nat,
                 fetch: string -> Fetched)
    returns (r: Option<Progress>, collected: seq<Item>)
    requires Faithful(src, fetch) && ReadsFor(src, read)
    ensures r.Some? ==> r.value == ReadQueue(read, queue, state, budget)
    ensures r.Some? ==> collected == Collected(r.value.items)
    ensures r.None? ==> exists p :: p in queue && fetch(p.name).Lost?
  {
    ghost var whole := ReadQueue(read, queue, state, budget);
    QueueStart(read, queue, state, budget);
    var remaining: int := budget;
    var done := Progress(state, [], []);
    collected := [];
    var k := 0;
    while k < |queue| && remaining > 0
      invariant 0 <= k <= |queue| && Stands(read, queue, k, done, remaining, whole) && Gathered(done, collected)
    {
      var part;
      part, collected := ReadNext(src, read, queue, k, done, remaining, collected, fetch, whole);
      if part.None? {
        assert queue[k] in queue;
        return None, collected;
      }
      done := Then(done, part.value.progress);
      if part.value.cut { return Some(done), collected; }
      remaining := remaining - |part.value.progress.items|;
      k := k + 1;
    }
    QueueDone(read, queue, k, done, remaining, whole);
    r := Some(done);
  }

  ghost predicate Gathered(done: Progress, collected: seq<Item>) {
    collected == Collected(done.items)
  }

  /** The next part of the queue: when it was cut, what is done with it is all the run does. */
  method ReadNext(src: Source, ghost read: Reader, queue: seq<Part>, k: nat, done: Progress, remaining: nat,
                  before: seq<Item>, fetch: string -> Fetched, ghost whole: Progress)
    returns (part: Option<PartRead>, collected: seq<Item>)
    requires Faithful(src, fetch) && ReadsFor(src, read)
    requires k < |queue| && remaining > 0 && Stands(read, queue, k, done, remaining, whole) && Gathered(done, before)
    ensures part.None? <==> fetch(queue[k].name).Lost?
    ensures part.Some? ==> Gathered(Then(done, part.value.progress), collected)
    ensures part.Some? && part.value.cut ==> whole == Then(done, part.value.progress)
    ensures part.Some? && !part.value.cut ==>
              Stands(read, queue, k + 1, Then(done, part.value.progress),
                remaining - |part.value.progress.items|, whole)
  {
    part := ReadPart(src, read, done.cursor, remaining, queue[k], fetch);
    collected := before;
    if part.Some? {
      QueueStep(read, queue, k, done, remaining, whole, part.value);
      collected := Collect(before, done.items, part.value.progress.items);
    }
  }

  /** One part, streamed from its start past the rows an earlier run kept. An exception of the reader is a failure. */
  method ReadPart(src: Source, ghost read: Reader, c: Cursor, remaining: nat, file: Part, fetch: string -> Fetched)
    returns (r: Option<PartRead>)
    requires Faithful(src, fetch) && ReadsFor(src, read)
    ensures r.Some? ==> r.value == read(c, remaining, file)
    ensures r.None? <==> fetch(file.name).Lost?
  {
    var res := fetch(file.name);
    if res.Lost? { return None; }
    var a := ReadStream(src.Reader(remaining), Offset(c, file.name), res.chunks);
    JsonlReads(src.Reader(remaining), Offset(c, file.name), src.content(file.name));
    r := if a.parsed.Failure? then None else Some(Advance(c, file, a));
    assert r == Some(OnePart(src, c, remaining, file));
  }

  /** Each item deleted and set again in turn. */
  method Collect(start: seq<Item>, ghost before: seq<Item>, items: seq<Item>) returns (collected: seq<Item>)
    requires start == Collected(before)
    ensures collected == Collected(before + items)
  {
    collected := start;
    assert before + items[..0] == before;
    var k := 0;
    while k < |items|
      invariant 0 <= k <= |items| && collected == Collected(before + items[..k])
    {
      assert before + items[..k + 1] == before + items[..k] + [items[k]];
      CollectedSnoc(before + items[..k], items[k]);
      collected := Without(collected, items[k].identity) + [items[k]];
      k := k + 1;
    }
    assert items[..k] == items;
  }
}
