/**
 Over any sequence of runs, with an index that completed parts may leave: where new parts sort after what the cursor
 stands in, every row is committed exactly once and in order, and only there; where they sort anywhere after the last
 completed part, no row is lost.
 */
module ExactlyOnce {
  import opened Basics
  import opened BulkParser
  import opened RecordStream
  import opened OffDelta
  import opened Resumption

  function PartRows(w: World, name: string): seq<RowId> {
    RowsFrom(name, 0, w.rowCount(name))
  }

  /** All rows of the parts, part by part. */
  function AllRows(w: World, files: seq<Part>): seq<RowId> {
    if files == [] then [] else AllRows(w, files[..|files| - 1]) + PartRows(w, files[|files| - 1].name)
  }

  /** What an index is: parts in order, with distinct names and a time range that is not empty. */
  ghost predicate GoodIndex(files: seq<Part>) {
    Ordered(files) && DistinctNames(files) && forall i :: 0 <= i < |files| ==> files[i].end > 0
  }

  /** What ParseIndex accepts is one. */
  lemma AcceptedIsGood(lines: seq<string>, range: string -> Option<(nat, nat)>, files: seq<Part>)
    requires IsIndex(lines, range, files)
    ensures GoodIndex(files) && RangesRead(range, files)
  {
    forall p | p in files ensures range(p.name) == Some((p.start, p.end)) && p.end > 0 {
      assert PartFits(lines, range, p);
    }
    forall i | 0 <= i < |files| ensures files[i].end > 0 {
      assert files[i] in files;
    }
  }

  /** Every part's range is the one read from its name. */
  ghost predicate RangesRead(range: string -> Option<(nat, nat)>, files: seq<Part>) {
    forall p :: p in files ==> range(p.name) == Some((p.start, p.end))
  }

  // ----- one part -----

  lemma {:induction false} SameRecords(a: Config, b: Config, lines: seq<string>)
    requires a.parseJson == b.parseJson
    ensures LineRecords(a, lines) == LineRecords(b, lines)
  {
    if lines != [] {
      SameRecords(a, b, lines[..|lines| - 1]);
    }
  }

  /**
   What the reading of one part from a cursor promises: a stretch of its rows from the offset, to its end unless cut.
   */
  ghost predicate ReadsStretch(w: World, c: Cursor, file: Part, part: PartRead) {
    var from := Offset(c, file.name);
    var to := from + |part.progress.rows|;
    && to <= w.rowCount(file.name)
    && part.progress.rows == RowsFrom(file.name, from, to)
    && part.progress.cursor == CursorAfter(c, file, part.cut, to - from)
    && (!part.cut ==> to == w.rowCount(file.name))
    && (part.cut || part.progress.items != [] ==> from < to)
  }

  ghost predicate Sound(w: World) {
    && w.budget >= 1
    && forall c: Cursor, remaining: nat, file: Part :: Offset(c, file.name) <= w.rowCount(file.name) ==>
         ReadsStretch(w, c, file, w.read(c, remaining, file))
  }

  /** The streaming reader keeps that promise. */
  lemma SourceIsSound(src: Source)
    ensures Sound(WorldOf(src))
  {
    forall c: Cursor, remaining: nat, file: Part | Offset(c, file.name) <= src.RowCount(file.name)
      ensures ReadsStretch(WorldOf(src), c, file, WorldOf(src).read(c, remaining, file))
    {
      OnePartStretch(src, c, remaining, file);
    }
  }

  lemma OnePartStretch(src: Source, c: Cursor, remaining: nat, file: Part)
    requires Offset(c, file.name) <= src.RowCount(file.name)
    ensures ReadsStretch(WorldOf(src), c, file, OnePart(src, c, remaining, file))
  {
    var cfg, offset, text := src.Reader(remaining), Offset(c, file.name), src.content(file.name);
    SameRecords(cfg, Config(Jsonl, 1, src.mapRecord, src.parseJson), Split(text, '\n'));
    ReadingCounts(cfg, offset, text);
    AnswerStretch(WorldOf(src), c, file, Reading(cfg, offset, text));
  }

  lemma AnswerStretch(w: World, c: Cursor, file: Part, a: Answer)
    requires Offset(c, file.name) <= w.rowCount(file.name) && Counted(a, w.rowCount(file.name) - Offset(c, file.name))
    ensures ReadsStretch(w, c, file, Advance(c, file, a))
  {}

  // ----- exactly once -----

  /** The cursor stands after the first `k` parts, and maybe inside the next. */
  ghost predicate At(w: World, files: seq<Part>, c: Cursor, k: nat) {
    && k <= |files|
    && (if k == 0 then c.seen == None && c.seenEnd == 0
         else c.seen == Some(files[k - 1].name) && c.seenEnd == files[k - 1].end)
    && (if c.current.None? then c.offset == 0
        else k < |files| && c.current == Some(files[k].name) && 0 < c.offset <= w.rowCount(files[k].name))
  }

  /** The rows before the cursor. */
  ghost function RowsBefore(w: World, files: seq<Part>, c: Cursor, k: nat): seq<RowId>
    requires At(w, files, c, k)
  {
    AllRows(w, files[..k]) + if c.current.Some? then RowsFrom(files[k].name, 0, c.offset) else []
  }

  lemma StretchJoins(name: string, from: nat, to: nat)
    requires from <= to
    ensures RowsFrom(name, 0, from) + RowsFrom(name, from, to) == RowsFrom(name, 0, to)
  {}

  lemma AllRowsSnoc(w: World, files: seq<Part>, k: nat)
    requires k < |files|
    ensures AllRows(w, files[..k + 1]) == AllRows(w, files[..k]) + PartRows(w, files[k].name)
  {
    assert files[..k + 1][..k] == files[..k];
  }

  /** Rows that take the cursor from one place to a later one. */
  ghost predicate Took(w: World, files: seq<Part>, c: Cursor, k: nat, rows: seq<RowId>, c': Cursor, k': nat) {
    && k <= k' && At(w, files, c, k) && At(w, files, c', k')
    && RowsBefore(w, files, c', k') == RowsBefore(w, files, c, k) + rows
  }

  lemma TookMore(w: World, files: seq<Part>, a: Cursor, i: nat, rows: seq<RowId>, b: Cursor, j: nat, more: seq<RowId>,
                 c: Cursor, k: nat)
    requires Took(w, files, a, i, rows, b, j) && Took(w, files, b, j, more, c, k)
    ensures Took(w, files, a, i, rows + more, c, k)
  {
    AppendAssociates(RowsBefore(w, files, a, i), rows, more);
  }

  /** Reading the part at the cursor takes exactly the rows up to the new cursor. */
  lemma PartExact(w: World, files: seq<Part>, c: Cursor, k: nat, part: PartRead)
    requires At(w, files, c, k) && k < |files| && ReadsStretch(w, c, files[k], part)
    ensures Took(w, files, c, k, part.progress.rows, part.progress.cursor, if part.cut then k else k + 1)
  {
    var name, from := files[k].name, Offset(c, files[k].name);
    StretchJoins(name, from, from + |part.progress.rows|);
    AppendAssociates(AllRows(w, files[..k]), RowsFrom(name, 0, from), part.progress.rows);
    AllRowsSnoc(w, files, k);
    AppendNothing(AllRows(w, files[..k]));
    AppendNothing(AllRows(w, files[..k + 1]));
  }

  /** Reading the rest of the index takes exactly the rows between the old cursor and the new. */
  lemma {:induction false} QueueExact(w: World, files: seq<Part>, c: Cursor, k: nat, remaining: int) returns (k': nat)
    requires Sound(w) && At(w, files, c, k)
    ensures var p := ReadQueue(w.read, files[k..], c, remaining);
            && Took(w, files, c, k, p.rows, p.cursor, k')
            && (remaining > 0 ==> p.rows != [] || k' == |files|)
    decreases |files| - k, 1
  {
    if k < |files| && remaining > 0 {
      var part := w.read(c, remaining, files[k]);
      assert ReadsStretch(w, c, files[k], part);
      PartExact(w, files, c, k, part);
      QueueUnfolds(w.read, files, k, c, remaining);
      k' := if part.cut then k else k + 1;
      if !part.cut { k' := RestExact(w, files, c, k, part, remaining - |part.progress.items|); }
    } else {
      k' := k;
      AppendNothing(RowsBefore(w, files, c, k));
    }
  }

  /**
   After a part read to its end. One that made no item may have had no row; then the rest is read with all the limit.
   */
  lemma {:induction false} RestExact(w: World, files: seq<Part>, c: Cursor, k: nat, part: PartRead, left: int)
    returns (k': nat)
    requires Sound(w) && Took(w, files, c, k, part.progress.rows, part.progress.cursor, k + 1)
    requires left > 0 || part.progress.rows != []
    ensures var p := Then(part.progress, ReadQueue(w.read, files[k + 1..], part.progress.cursor, left));
            Took(w, files, c, k, p.rows, p.cursor, k') && (p.rows != [] || k' == |files|)
    decreases |files| - k, 0
  {
    k' := QueueExact(w, files, part.progress.cursor, k + 1, left);
    var rest := ReadQueue(w.read, files[k + 1..], part.progress.cursor, left);
    TookMore(w, files, c, k, part.progress.rows, part.progress.cursor, k + 1, rest.rows, rest.cursor, k');
  }

  /** A run's queue is what was listed from the cursor on, when the index lists all of that and nothing never listed. */
  lemma QueueIsRest(w: World, all: seq<Part>, files: seq<Part>, c: Cursor, k: nat)
    requires GoodIndex(all) && GoodIndex(files) && At(w, all, c, k)
    requires forall p :: p in all && After(c, p) ==> p in files
    requires forall p :: p in files ==> p in all
    ensures NextFiles(files, Known(c, files)) == all[k..] && Known(c, files) == c
  {
    AfterFrom(w, all, c, k);
    if c.current.Some? {
      assert all[k] in files;
    }
    NextFilesMeaning(files, c);
    var keep := (p: Part) => After(c, p);
    FilterMeaning(files, keep);
    RestIsAfter(all, c, k, Filter(files, keep));
  }

  lemma AfterFrom(w: World, files: seq<Part>, c: Cursor, k: nat)
    requires GoodIndex(files) && At(w, files, c, k)
    ensures forall i :: 0 <= i < |files| ==> (After(c, files[i]) <==> k <= i)
  {
    forall i | 0 <= i < |files| ensures After(c, files[i]) <==> k <= i {
      if k > 0 {
        BeforeOrder(files[k - 1], files[i], files[i]);
      }
    }
  }

  lemma RestIsAfter(files: seq<Part>, c: Cursor, k: nat, after: seq<Part>)
    requires k <= |files| && Ordered(files) && Ordered(after)
    requires forall i :: 0 <= i < |files| ==> (After(c, files[i]) <==> k <= i)
    requires forall p :: p in after <==> p in files && After(c, p)
    ensures after == files[k..]
  {
    forall p ensures p in after <==> p in files[k..] {
      if p in after {
        var i :| 0 <= i < |files| && files[i] == p;
        assert files[k..][i - k] == p;
      }
    }
    OrderedUnique(after, files[k..]);
  }

  /** All parts of two lists, in order. */
  function Merge(all: seq<Part>, files: seq<Part>): seq<Part> {
    Sort(all + Filter(files, (p: Part) => p !in all))
  }

  /** Every part an index ever listed, in order. */
  function Ever(events: seq<Event>): seq<Part> {
    if events == [] then []
    else
      var before := Ever(events[..|events| - 1]);
      match events[|events| - 1] case FailedRun => before case GoodRun(files) => Merge(before, files)
  }

  lemma MergeMembers(all: seq<Part>, files: seq<Part>)
    ensures forall p :: p in Merge(all, files) <==> p in all || p in files
  {
    FilterMeaning(files, (p: Part) => p !in all);
  }

  lemma SortDistinct(files: seq<Part>)
    requires DistinctNames(files)
    ensures DistinctNames(Sort(files))
  {
    SortOrdered(files);
    var sorted := Sort(files);
    forall i, j | 0 <= i < j < |sorted| ensures sorted[i].name != sorted[j].name {
      assert sorted[i] in files && sorted[j] in files;
      BeforeOrder(sorted[i], sorted[j], sorted[j]);
    }
  }

  /** A name stands for one part: its range is read from it. */
  ghost predicate SameNames(all: seq<Part>, files: seq<Part>) {
    forall p, q :: p in all && q in files && p.name == q.name ==> p == q
  }

  lemma MergeGood(all: seq<Part>, files: seq<Part>)
    requires GoodIndex(all) && GoodIndex(files) && SameNames(all, files)
    ensures GoodIndex(Merge(all, files))
  {
    var added := Filter(files, (p: Part) => p !in all);
    FilterMeaning(files, (p: Part) => p !in all);
    assert DistinctNames(all + added) by {
      forall i, j | 0 <= i < |all| && 0 <= j < |added| ensures all[i].name != added[j].name {
        assert all[i] in all && added[j] in added;
      }
    }
    SortOrdered(all + added);
    SortDistinct(all + added);
    MergeMembers(all, files);
    var merged := Merge(all, files);
    forall i | 0 <= i < |merged| ensures merged[i].end > 0 {
      assert merged[i] in merged;
    }
  }

  /**
   An index after those listing `all`, at the cursor `c`: it keeps what is not completed, adds parts only after the last
   completed one, and may drop any completed part.
   */
  ghost predicate Follows(all: seq<Part>, c: Cursor, files: seq<Part>) {
    && GoodIndex(files) && SameNames(all, files)
    && (forall p :: p in all && After(c, p) ==> p in files)
    && (forall p :: p in files && p !in all ==> After(c, p))
  }

  /** Every part it adds sorts after the half-read one, if there is one. */
  ghost predicate AddsBeyond(all: seq<Part>, c: Cursor, files: seq<Part>) {
    forall p, q :: p in files && p !in all && q in all && c.current == Some(q.name) ==> Before(q, p)
  }

  /** Every run that went well had an index ParseIndex accepted, with one pattern of file names. */
  ghost predicate IndexesAccepted(range: string -> Option<(nat, nat)>, events: seq<Event>) {
    forall i :: 0 <= i < |events| && events[i].GoodRun? ==> exists lines :: IsIndex(lines, range, events[i].index)
  }

  lemma {:induction false} EverRead(range: string -> Option<(nat, nat)>, events: seq<Event>)
    requires IndexesAccepted(range, events)
    ensures RangesRead(range, Ever(events))
  {
    if events != [] {
      var init, last := events[..|events| - 1], events[|events| - 1];
      EverRead(range, init);
      if last.GoodRun? {
        var lines :| IsIndex(lines, range, events[|events| - 1].index);
        AcceptedIsGood(lines, range, last.index);
        MergeMembers(Ever(init), last.index);
      }
    }
  }

  /** For accepted indexes all that `Follows` asks is which parts are kept and where others are added. */
  lemma AcceptedFollows(range: string -> Option<(nat, nat)>, events: seq<Event>, c: Cursor, lines: seq<string>,
                        files: seq<Part>)
    requires IndexesAccepted(range, events) && IsIndex(lines, range, files)
    ensures Follows(Ever(events), c, files)
            <==> (forall p :: p in Ever(events) && After(c, p) ==> p in files)
                 && (forall p :: p in files && p !in Ever(events) ==> After(c, p))
  {
    EverRead(range, events);
    AcceptedIsGood(lines, range, files);
  }

  ghost predicate Growing(w: World, events: seq<Event>) {
    events != [] ==>
      var init, last := events[..|events| - 1], events[|events| - 1];
      && Growing(w, init)
      && (last.GoodRun? ==>
            && Follows(Ever(init), CursorOf(w, init), last.index)
            && AddsBeyond(Ever(init), CursorOf(w, init), last.index))
  }

  lemma {:induction false} AllRowsPrefix(w: World, files: seq<Part>, k: nat)
    requires k <= |files|
    ensures AllRows(w, files[..k]) <= AllRows(w, files)
  {
    if k == |files| {
      assert files[..k] == files;
    } else {
      assert files[..|files| - 1][..k] == files[..k];
      AllRowsPrefix(w, files[..|files| - 1], k);
    }
  }

  lemma RowsBeforePrefix(w: World, files: seq<Part>, c: Cursor, k: nat)
    requires At(w, files, c, k)
    ensures RowsBefore(w, files, c, k) <= AllRows(w, files)
  {
    AllRowsPrefix(w, files, k);
    if c.current.Some? {
      AllRowsPrefix(w, files, k + 1);
      assert files[..k + 1][..k] == files[..k];
      assert RowsFrom(files[k].name, 0, c.offset) <= PartRows(w, files[k].name);
    }
  }

  /** Where all that is added sorts after the first `k` parts, those stay the first. */
  lemma {:induction false} SameStart(all: seq<Part>, more: seq<Part>, k: nat)
    requires Ordered(all) && Ordered(more) && k <= |all|
    requires forall p :: p in all ==> p in more
    requires k > 0 ==> forall p :: p in more && p !in all ==> Before(all[k - 1], p)
    ensures k <= |more| && more[..k] == all[..k]
  {
    if k > 0 {
      var last := all[k - 1];
      forall p | p in more && p !in all && k > 1 ensures Before(all[k - 2], p) {
        BeforeOrder(all[k - 2], last, p);
      }
      SameStart(all, more, k - 1);
      assert last in more;
      var j :| 0 <= j < |more| && more[j] == last;
      NotEarlier(all, more, k, j);
      assert more[..k] == more[..k - 1] + [more[k - 1]];
    }
  }

  lemma NotEarlier(all: seq<Part>, more: seq<Part>, k: nat, j: nat)
    requires Ordered(all) && Ordered(more) && 0 < k <= |all| && k - 1 <= |more| && more[..k - 1] == all[..k - 1]
    requires forall p :: p in more && p !in all ==> Before(all[k - 1], p)
    requires j < |more| && more[j] == all[k - 1]
    ensures j == k - 1
  {
    var last := all[k - 1];
    BeforeOrder(last, last, last);
    if j > k - 1 {
      var q := more[k - 1];
      assert Before(q, last) && q in more;
      BeforeOrder(q, last, q);
      assert q in all;
      var i :| 0 <= i < |all| && all[i] == q;
      BeforeOrder(last, q, last);
      assert i < k - 1;
      assert more[..k - 1][i] == all[..k - 1][i];
      assert Before(more[i], more[k - 1]);
      BeforeOrder(q, q, q);
    }
  }

  /** The cursor stands where it stood when all that is added sorts after it. */
  lemma AtMerged(w: World, all: seq<Part>, more: seq<Part>, c: Cursor, k: nat)
    requires At(w, all, c, k) && GoodIndex(all) && GoodIndex(more)
    requires forall p :: p in all ==> p in more
    requires forall p :: p in more && p !in all ==> After(c, p) && (c.current.Some? ==> Before(all[k], p))
    ensures At(w, more, c, k) && RowsBefore(w, more, c, k) == RowsBefore(w, all, c, k)
  {
    SameStart(all, more, k);
    if k > 0 { assert more[k - 1] == more[..k][k - 1] == all[..k][k - 1]; }
    if c.current.Some? {
      SameStart(all, more, k + 1);
      assert more[k] == more[..k + 1][k] == all[..k + 1][k];
    }
  }

  /** One good run from a cursor that describes its log. */
  lemma RunExact(w: World, all: seq<Part>, files: seq<Part>, c: Cursor, k: nat) returns (k': nat)
    requires Sound(w) && GoodIndex(all) && At(w, all, c, k)
    requires Follows(all, c, files) && AddsBeyond(all, c, files)
    ensures var p := RunOver(w.read, w.budget, files, c);
            && GoodIndex(Merge(all, files)) && At(w, Merge(all, files), c, k)
            && RowsBefore(w, Merge(all, files), c, k) == RowsBefore(w, all, c, k)
            && Took(w, Merge(all, files), c, k, p.rows, p.cursor, k')
            && (p.rows != [] || k' == |Merge(all, files)|)
  {
    var more := Merge(all, files);
    MergeMembers(all, files);
    MergeGood(all, files);
    AtMerged(w, all, more, c, k);
    QueueIsRest(w, more, files, c, k);
    k' := QueueExact(w, more, c, k, w.budget);
  }

  /** The stored cursor always describes the rows committed so far. */
  lemma {:induction false} CursorDescribesLog(w: World, events: seq<Event>) returns (k: nat)
    requires Sound(w) && Growing(w, events)
    ensures GoodIndex(Ever(events)) && At(w, Ever(events), CursorOf(w, events), k)
    ensures LogOf(w, events) == RowsBefore(w, Ever(events), CursorOf(w, events), k)
  {
    k := 0;
    if events != [] {
      var init, last := events[..|events| - 1], events[|events| - 1];
      k := CursorDescribesLog(w, init);
      if last.GoodRun? {
        k := RunExact(w, Ever(init), last.index, CursorOf(w, init), k);
      }
    }
  }

  /**
   Exactly once: run after run, failures in between or not, the committed rows are a prefix of all rows of all parts
   ever listed in order, no row of which occurs twice.
   */
  lemma RowsExactlyOnce(w: World, events: seq<Event>)
    requires Sound(w) && Growing(w, events)
    ensures LogOf(w, events) <= AllRows(w, Ever(events))
    ensures forall i, j :: 0 <= i < j < |LogOf(w, events)| ==> LogOf(w, events)[i] != LogOf(w, events)[j]
  {
    var k := CursorDescribesLog(w, events);
    RowsBeforePrefix(w, Ever(events), CursorOf(w, events), k);
    AllRowsDistinct(w, Ever(events));
  }

  lemma {:induction false} AllRowsDistinct(w: World, files: seq<Part>)
    requires DistinctNames(files)
    ensures forall r :: r in AllRows(w, files) ==> Named(files, r.part)
    ensures forall i, j :: 0 <= i < j < |AllRows(w, files)| ==> AllRows(w, files)[i] != AllRows(w, files)[j]
  {
    if files != [] {
      var init, last := files[..|files| - 1], files[|files| - 1];
      AllRowsDistinct(w, init);
      var before := AllRows(w, init);
      forall i | 0 <= i < |before| ensures before[i].part != last.name {
        assert before[i] in before;
      }
      assert forall name :: Named(init, name) ==> Named(files, name);
      assert Named(files, last.name) by {
        assert files[|init|].name == last.name;
      }
    }
  }

  lemma RowsAtEnd(w: World, files: seq<Part>, c: Cursor)
    requires At(w, files, c, |files|)
    ensures RowsBefore(w, files, c, |files|) == AllRows(w, files)
  {
    assert files[..|files|] == files;
  }

  /** Progress: a successful run commits a new row unless every row is committed already. */
  lemma RunAdvances(w: World, events: seq<Event>, files: seq<Part>)
    requires Sound(w) && Growing(w, events + [GoodRun(files)])
    ensures LogOf(w, events) <= LogOf(w, events + [GoodRun(files)])
    ensures LogOf(w, events) == LogOf(w, events + [GoodRun(files)])
            <==> LogOf(w, events) == AllRows(w, Ever(events + [GoodRun(files)]))
  {
    var more := events + [GoodRun(files)];
    assert more[..|events|] == events;
    var c := CursorOf(w, events);
    var k := CursorDescribesLog(w, events);
    var k' := RunExact(w, Ever(events), files, c, k);
    RunTakesSome(w, Ever(more), c, k, RunOver(w.read, w.budget, files, c).rows,
      RunOver(w.read, w.budget, files, c).cursor, k');
  }

  lemma RunTakesSome(w: World, files: seq<Part>, c: Cursor, k: nat, rows: seq<RowId>, c': Cursor, k': nat)
    requires Took(w, files, c, k, rows, c', k') && (rows != [] || k' == |files|)
    ensures rows == [] <==> RowsBefore(w, files, c, k) == AllRows(w, files)
  {
    RowsBeforePrefix(w, files, c', k');
    if rows == [] {
      AppendNothing(RowsBefore(w, files, c, k));
      RowsAtEnd(w, files, c');
    }
  }

  // ----- a part in front of a half-read one -----

  /** The cursor describes the log: it is the rows before some place in the order of all parts. */
  ghost predicate Exact(w: World, events: seq<Event>) {
    exists k :: At(w, Ever(events), CursorOf(w, events), k)
                && LogOf(w, events) == RowsBefore(w, Ever(events), CursorOf(w, events), k)
  }

  /** The cursor without the part under way. */
  function Restarted(c: Cursor): Cursor {
    c.(current := None, offset := 0)
  }

  lemma AtUnique(w: World, files: seq<Part>, c: Cursor, i: nat, j: nat)
    requires DistinctNames(files) && At(w, files, c, i) && At(w, files, c, j)
    ensures i == j
  {}

  /** Another part than the one under way is read as if none were. */
  lemma OtherPart(w: World, c: Cursor, file: Part, part: PartRead)
    requires c.current.Some? && c.current.value != file.name && ReadsStretch(w, c, file, part)
    ensures ReadsStretch(w, Restarted(c), file, part)
  {}

  /** A queue that begins with another part is read as if none were under way: the offset is forgotten. */
  lemma FrontExact(w: World, files: seq<Part>, c: Cursor, k: nat) returns (k': nat)
    requires Sound(w) && At(w, files, Restarted(c), k) && k < |files|
    requires c.current.Some? && c.current.value != files[k].name
    ensures var p := ReadQueue(w.read, files[k..], c, w.budget);
            Took(w, files, Restarted(c), k, p.rows, p.cursor, k')
  {
    QueueUnfolds(w.read, files, k, c, w.budget);
    var part := w.read(c, w.budget, files[k]);
    assert ReadsStretch(w, c, files[k], part);
    OtherPart(w, c, files[k], part);
    PartExact(w, files, Restarted(c), k, part);
    k' := k;
    if !part.cut { k' := RestExact(w, files, Restarted(c), k, part, w.budget - |part.progress.items|); }
  }

  /** What comes before `q` and not among the first `k` makes another than `q` the next. */
  lemma NextIsOther(files: seq<Part>, k: nat, p: Part, q: Part)
    requires Ordered(files) && DistinctNames(files) && p in files && q in files && Before(p, q)
    requires forall i :: 0 <= i < |files| && files[i] == p ==> k <= i
    ensures k < |files| && files[k].name != q.name
  {
    var i, j :| 0 <= i < |files| && files[i] == p && 0 <= j < |files| && files[j] == q;
    BeforeOrder(p, q, p);
    BeforeOrder(q, q, q);
    assert i != j && !(j < i);
  }

  /** With a part in front of the half-read one, the next after the last completed part is another. */
  lemma FrontIsOther(w: World, all: seq<Part>, files: seq<Part>, c: Cursor, k: nat)
    requires GoodIndex(all) && At(w, all, c, k) && Follows(all, c, files) && !AddsBeyond(all, c, files)
    ensures c.current.Some? && GoodIndex(Merge(all, files)) && At(w, Merge(all, files), Restarted(c), k)
    ensures Merge(all, files)[..k] == all[..k]
    ensures k < |Merge(all, files)| && Merge(all, files)[k].name != c.current.value
  {
    var more := Merge(all, files);
    MergeMembers(all, files);
    MergeGood(all, files);
    AtMerged(w, all, more, Restarted(c), k);
    SameStart(all, more, k);
    var p, q := FrontPart(all, c, files);
    assert forall i :: 0 <= i < |more| && more[i] == p ==> k <= i by { AfterFrom(w, more, Restarted(c), k); }
    NextIsOther(more, k, p, q);
  }

  lemma FrontPart(all: seq<Part>, c: Cursor, files: seq<Part>) returns (p: Part, q: Part)
    requires Follows(all, c, files) && !AddsBeyond(all, c, files)
    ensures p in files && q in all && c.current == Some(q.name) && Before(p, q) && After(Restarted(c), p)
  {
    p, q :| p in files && p !in all && q in all && c.current == Some(q.name) && !Before(q, p);
    BeforeOrder(q, p, p);
  }

  /** The queue from the part in front on. */
  lemma FrontQueue(w: World, more: seq<Part>, files: seq<Part>, c: Cursor, k: nat)
    requires GoodIndex(more) && GoodIndex(files) && At(w, more, Restarted(c), k)
    requires c.current.Some? && Named(files, c.current.value)
    requires forall p :: p in more && After(c, p) ==> p in files
    requires forall p :: p in files ==> p in more
    ensures Known(c, files) == c && NextFiles(files, c) == more[k..] && NextFiles(files, Restarted(c)) == more[k..]
  {
    QueueIsRest(w, more, files, Restarted(c), k);
    NextFilesMeaning(files, c);
    NextFilesMeaning(files, Restarted(c));
    SameFilter(files, (p: Part) => After(c, p), (p: Part) => After(Restarted(c), p));
  }

  lemma {:induction false} SameFilter(files: seq<Part>, a: Part -> bool, b: Part -> bool)
    requires forall p :: a(p) == b(p)
    ensures Filter(files, a) == Filter(files, b)
  {
    if files != [] {
      SameFilter(files[..|files| - 1], a, b);
    }
  }

  /** Such a run commits again what it had committed of the half-read part, or leaves it out of the cursor. */
  lemma FrontNotExact(w: World, all: seq<Part>, files: seq<Part>, c: Cursor, k: nat, k'': nat)
    requires Sound(w) && GoodIndex(all) && At(w, all, c, k) && Follows(all, c, files) && !AddsBeyond(all, c, files)
    ensures var p, more := RunOver(w.read, w.budget, files, c), Merge(all, files);
            At(w, more, p.cursor, k'') ==> RowsBefore(w, all, c, k) + p.rows != RowsBefore(w, more, p.cursor, k'')
  {
    var more := Merge(all, files);
    FrontIsOther(w, all, files, c, k);
    MergeMembers(all, files);
    assert all[k] in files by { AfterFrom(w, all, c, k); }
    FrontQueue(w, more, files, c, k);
    var k' := FrontExact(w, more, c, k);
    var p := RunOver(w.read, w.budget, files, c);
    if At(w, more, p.cursor, k'') {
      AtUnique(w, more, p.cursor, k', k'');
      OffsetForgotten(w, all, more, c, k);
    }
  }

  lemma OffsetForgotten(w: World, all: seq<Part>, more: seq<Part>, c: Cursor, k: nat)
    requires At(w, all, c, k) && At(w, more, Restarted(c), k) && more[..k] == all[..k] && c.current.Some?
    ensures |RowsBefore(w, more, Restarted(c), k)| < |RowsBefore(w, all, c, k)|
  {}

  /**
   When exactly-once ends: after runs that kept it, a run whose index adds parts after the last completed one keeps the
   log the rows before the cursor exactly when none of the added parts sorts before the half-read one.
   */
  lemma ExactWhile(w: World, events: seq<Event>, files: seq<Part>)
    requires Sound(w) && Growing(w, events) && Follows(Ever(events), CursorOf(w, events), files)
    ensures Exact(w, events + [GoodRun(files)]) <==> AddsBeyond(Ever(events), CursorOf(w, events), files)
  {
    var more, c := events + [GoodRun(files)], CursorOf(w, events);
    assert more[..|events|] == events;
    if AddsBeyond(Ever(events), c, files) {
      var k := CursorDescribesLog(w, more);
    } else {
      var k := CursorDescribesLog(w, events);
      forall k'' | At(w, Ever(more), CursorOf(w, more), k'')
        ensures LogOf(w, more) != RowsBefore(w, Ever(more), CursorOf(w, more), k'')
      {
        FrontNotExact(w, Ever(events), files, c, k, k'');
      }
    }
  }

  // ----- nothing lost -----

  /** Every row of a tracked part up to the cursor is in the log, and of the part under way those before the offset. */
  ghost predicate Covered(w: World, tracked: seq<Part>, c: Cursor, log: seq<RowId>) {
    && (forall p, i :: p in tracked && !After(c, p) && 0 <= i < w.rowCount(p.name) ==> RowId(p.name, i) in log)
    && (c.current.Some? ==>
          && c.offset <= w.rowCount(c.current.value)
          && forall i :: 0 <= i < c.offset ==> RowId(c.current.value, i) in log)
  }

  /** The queue holds parts after the cursor, the tracked ones among them. */
  ghost predicate Queued(tracked: seq<Part>, queue: seq<Part>, c: Cursor) {
    && GoodIndex(queue)
    && (forall p :: p in queue ==> After(c, p))
    && (forall p :: p in tracked && After(c, p) ==> p in queue)
  }

  lemma {:induction false} QueueCovers(w: World, tracked: seq<Part>, queue: seq<Part>, c: Cursor, remaining: int,
                                       log: seq<RowId>)
    requires Sound(w) && Queued(tracked, queue, c) && Covered(w, tracked, c, log)
    ensures var p := ReadQueue(w.read, queue, c, remaining);
            Covered(w, tracked, p.cursor, log + p.rows)
    decreases |queue|
  {
    if queue == [] || remaining <= 0 {
      AppendNothing(log);
    } else {
      var part := w.read(c, remaining, queue[0]);
      assert ReadsStretch(w, c, queue[0], part);
      PartCovers(w, tracked, queue, c, log, part);
      if !part.cut {
        var c', left := part.progress.cursor, remaining - |part.progress.items|;
        PastOne(tracked, queue, c, c');
        QueueCovers(w, tracked, queue[1..], c', left, log + part.progress.rows);
        AppendAssociates(log, part.progress.rows, ReadQueue(w.read, queue[1..], c', left).rows);
      }
    }
  }

  lemma PartCovers(w: World, tracked: seq<Part>, queue: seq<Part>, c: Cursor, log: seq<RowId>, part: PartRead)
    requires Queued(tracked, queue, c) && Covered(w, tracked, c, log) && queue != []
    requires ReadsStretch(w, c, queue[0], part)
    ensures Covered(w, tracked, part.progress.cursor, log + part.progress.rows)
  {
    var file, c', rows := queue[0], part.progress.cursor, part.progress.rows;
    var from := Offset(c, file.name);
    var to := from + |rows|;
    forall i | 0 <= i < to ensures RowId(file.name, i) in log + rows {
      if i >= from {
        assert rows[i - from] == RowId(file.name, i);
      }
    }
    if !part.cut {
      PastOne(tracked, queue, c, c');
    }
  }

  /** Past the first part of the queue stand exactly the others. */
  lemma PastOne(tracked: seq<Part>, queue: seq<Part>, c: Cursor, c': Cursor)
    requires Queued(tracked, queue, c) && queue != []
    requires c' == Cursor(Some(queue[0].name), queue[0].end, None, 0)
    ensures Queued(tracked, queue[1..], c')
    ensures forall p :: p in tracked && !After(c', p) ==> !After(c, p) || p == queue[0]
  {
    forall p ensures p in queue && After(c', p) <==> p in queue[1..] {
      if p in queue {
        var i :| 0 <= i < |queue| && queue[i] == p;
        BeforeOrder(queue[0], p, p);
        assert i > 0 ==> queue[1..][i - 1] == p;
        BeforeOrder(queue[0], queue[0], p);
      }
    }
    forall p | p in tracked && After(c', p) ensures After(c, p) {
      assert queue[0] in queue;
      AfterBefore(c, queue[0], p);
    }
  }

  lemma AfterBefore(c: Cursor, p: Part, q: Part)
    requires After(c, p) && Before(p, q)
    ensures After(c, q)
  {
    var name := if c.seen.Some? then c.seen.value else "";
    if p.end == c.seenEnd && q.end == p.end {
      StringLessTransitive(name, p.name, q.name);
    }
  }

  /** The queue of a run holds the tracked parts after the cursor. */
  lemma RunQueued(tracked: seq<Part>, files: seq<Part>, c: Cursor)
    requires GoodIndex(files) && forall p :: p in tracked && After(c, p) ==> p in files
    ensures Queued(tracked, NextFiles(files, c), c)
  {
    NextFilesMeaning(files, c);
    FilterMeaning(files, (p: Part) => After(c, p));
    var queue := NextFiles(files, c);
    forall i | 0 <= i < |queue| ensures queue[i].end > 0 {
      assert queue[i] in queue && queue[i] in files;
    }
  }

  lemma RunCovers(w: World, tracked: seq<Part>, files: seq<Part>, c: Cursor, log: seq<RowId>)
    requires Sound(w) && GoodIndex(files) && Covered(w, tracked, c, log)
    requires forall p :: p in tracked && After(c, p) ==> p in files
    ensures var p := RunOver(w.read, w.budget, files, c);
            Covered(w, tracked, p.cursor, log + p.rows)
  {
    var known := Known(c, files);
    RunQueued(tracked, files, known);
    QueueCovers(w, tracked, NextFiles(files, known), known, w.budget, log);
  }

  /** Every index keeps what is not completed and adds parts only after the last completed one. */
  ghost predicate AddingAfter(w: World, events: seq<Event>) {
    events != [] ==>
      var init, last := events[..|events| - 1], events[|events| - 1];
      && AddingAfter(w, init)
      && (last.GoodRun? ==> Follows(Ever(init), CursorOf(w, init), last.index))
  }

  /** No row is lost: whatever parts appear after the last completed one, the rows up to the cursor are committed. */
  lemma {:induction false} NoRowLost(w: World, events: seq<Event>)
    requires Sound(w) && AddingAfter(w, events)
    ensures Covered(w, Ever(events), CursorOf(w, events), LogOf(w, events))
  {
    if events != [] {
      var init, last := events[..|events| - 1], events[|events| - 1];
      NoRowLost(w, init);
      if last.GoodRun? {
        CoveredMerged(w, Ever(init), last.index, CursorOf(w, init), LogOf(w, init));
        RunCovers(w, Ever(events), last.index, CursorOf(w, init), LogOf(w, init));
      }
    }
  }

  lemma CoveredMerged(w: World, all: seq<Part>, files: seq<Part>, c: Cursor, log: seq<RowId>)
    requires Covered(w, all, c, log) && Follows(all, c, files)
    ensures forall p :: p in Merge(all, files) && After(c, p) ==> p in files
    ensures Covered(w, Merge(all, files), c, log)
  {
    MergeMembers(all, files);
  }

  // ----- what is repeated -----

  /** A stretch of reading that committed all up to its cursor. */
  ghost predicate Covers(w: World, tracked: seq<Part>, p: Progress) {
    Covered(w, tracked, p.cursor, p.rows)
  }

  lemma RestCovers(w: World, tracked: seq<Part>, queue: seq<Part>, c: Cursor, part: PartRead, left: int)
    requires Sound(w) && Queued(tracked, queue, c) && queue != []
    requires part.progress.cursor == Cursor(Some(queue[0].name), queue[0].end, None, 0)
    requires Covers(w, tracked, part.progress)
    ensures Covers(w, tracked, Then(part.progress, ReadQueue(w.read, queue[1..], part.progress.cursor, left)))
  {
    PastOne(tracked, queue, c, part.progress.cursor);
    QueueCovers(w, tracked, queue[1..], part.progress.cursor, left, part.progress.rows);
  }

  lemma FrontPartCovers(w: World, tracked: seq<Part>, queue: seq<Part>, c: Cursor)
    requires Sound(w) && Queued(tracked, queue, Restarted(c)) && Covered(w, tracked, Restarted(c), []) && queue != []
    requires c.current.Some? && c.current.value != queue[0].name
    ensures var part := w.read(c, w.budget, queue[0]);
            && Covers(w, tracked, part.progress)
            && (!part.cut ==> part.progress.cursor == Cursor(Some(queue[0].name), queue[0].end, None, 0))
  {
    var part := w.read(c, w.budget, queue[0]);
    assert ReadsStretch(w, c, queue[0], part);
    OtherPart(w, c, queue[0], part);
    PartCovers(w, tracked, queue, Restarted(c), [], part);
    assert [] + part.progress.rows == part.progress.rows;
  }

  /** The first part of the queue is another than the one under way: that one is read again from its start. */
  lemma FrontCovers(w: World, tracked: seq<Part>, queue: seq<Part>, c: Cursor)
    requires Sound(w) && Queued(tracked, queue, Restarted(c)) && Covered(w, tracked, Restarted(c), []) && queue != []
    requires c.current.Some? && c.current.value != queue[0].name
    ensures Covers(w, tracked, ReadQueue(w.read, queue, c, w.budget))
  {
    var part := w.read(c, w.budget, queue[0]);
    var left := w.budget - |part.progress.items|;
    assert ReadQueue(w.read, queue, c, w.budget)
        == if part.cut then part.progress
           else Then(part.progress, ReadQueue(w.read, queue[1..], part.progress.cursor, left));
    FrontPartCovers(w, tracked, queue, c);
    if !part.cut { RestCovers(w, tracked, queue, Restarted(c), part, left); }
  }

  /** An index that puts a part in front of the half-read one, `x`. */
  ghost predicate PutInFront(all: seq<Part>, c: Cursor, files: seq<Part>, x: Part) {
    Follows(all, c, files) && !AddsBeyond(all, c, files) && x in all && c.current == Some(x.name)
  }

  lemma HalfReadListed(w: World, all: seq<Part>, files: seq<Part>, c: Cursor, k: nat, x: Part)
    requires GoodIndex(all) && At(w, all, c, k) && PutInFront(all, c, files, x)
    ensures x in files && Named(files, x.name)
  {
    assert x == all[k];
    AfterFrom(w, all, c, k);
    assert x in files;
  }

  lemma FrontRunCovers(w: World, all: seq<Part>, files: seq<Part>, c: Cursor, k: nat, x: Part)
    requires Sound(w) && GoodIndex(all) && At(w, all, c, k) && PutInFront(all, c, files, x)
    ensures var p := RunOver(w.read, w.budget, files, c);
            Covered(w, [x], p.cursor, p.rows)
  {
    var more := Merge(all, files);
    HalfReadListed(w, all, files, c, k, x);
    FrontIsOther(w, all, files, c, k);
    FrontQueue(w, more, files, c, k) by { MergeMembers(all, files); }
    RunQueued([x], files, Restarted(c));
    assert Covered(w, [x], Restarted(c), []) by { AfterFrom(w, all, c, k); }
    FrontCovers(w, [x], more[k..], c);
  }

  lemma TrackedRun(w: World, all: seq<Part>, files: seq<Part>, c: Cursor, x: Part, log: seq<RowId>)
    requires Sound(w) && Follows(all, c, files) && x in all && Covered(w, [x], c, log)
    ensures x in Merge(all, files)
    ensures var p := RunOver(w.read, w.budget, files, c);
            Covered(w, [x], p.cursor, log + p.rows)
  {
    MergeMembers(all, files);
    RunCovers(w, [x], files, c, log);
  }

  /** The log after the last event, of which `log` is what was committed since, covers `x`. */
  ghost predicate Tracked(w: World, events: seq<Event>, x: Part, log: seq<RowId>) {
    x in Ever(events) && Covered(w, [x], CursorOf(w, events), log)
  }

  lemma FrontBegins(w: World, events: seq<Event>, x: Part) returns (log: seq<RowId>)
    requires Sound(w) && events != [] && events[|events| - 1].GoodRun?
    requires var init := events[..|events| - 1];
             Growing(w, init) && PutInFront(Ever(init), CursorOf(w, init), events[|events| - 1].index, x)
    ensures LogOf(w, events) == LogOf(w, events[..|events| - 1]) + log && Tracked(w, events, x, log)
  {
    var init, files := events[..|events| - 1], events[|events| - 1].index;
    var k := CursorDescribesLog(w, init);
    FrontRunCovers(w, Ever(init), files, CursorOf(w, init), k, x);
    MergeMembers(Ever(init), files);
    log := RunOver(w.read, w.budget, files, CursorOf(w, init)).rows;
  }

  lemma FrontGoesOn(w: World, events: seq<Event>, x: Part, log: seq<RowId>) returns (more: seq<RowId>)
    requires Sound(w) && AddingAfter(w, events) && events != [] && Tracked(w, events[..|events| - 1], x, log)
    ensures LogOf(w, events) == LogOf(w, events[..|events| - 1]) + more && Tracked(w, events, x, log + more)
  {
    var init, last := events[..|events| - 1], events[|events| - 1];
    if last.GoodRun? {
      TrackedRun(w, Ever(init), last.index, CursorOf(w, init), x, log);
      more := RunOver(w.read, w.budget, last.index, CursorOf(w, init)).rows;
    } else {
      more := [];
      AppendNothing(log);
      AppendNothing(LogOf(w, init));
    }
  }

  /** The n-th event is a run whose index puts a part in front of the half-read `x`; until then the index grew. */
  ghost predicate FrontAt(w: World, events: seq<Event>, n: nat, x: Part) {
    && n < |events| && events[n].GoodRun? && Growing(w, events[..n])
    && PutInFront(Ever(events[..n]), CursorOf(w, events[..n]), events[n].index, x)
  }

  lemma FrontAtBefore(w: World, events: seq<Event>, n: nat, x: Part)
    requires FrontAt(w, events, n, x) && n + 1 < |events|
    ensures FrontAt(w, events[..|events| - 1], n, x) && events[..|events| - 1][..n] == events[..n]
  {
    assert events[..|events| - 1][..n] == events[..n];
  }

  /** What the runs from the n-th event on committed of `x` is all of it up to the cursor. */
  lemma {:induction false} FrontTracked(w: World, events: seq<Event>, n: nat, x: Part) returns (log: seq<RowId>)
    requires Sound(w) && AddingAfter(w, events) && FrontAt(w, events, n, x)
    ensures LogOf(w, events) == LogOf(w, events[..n]) + log && Tracked(w, events, x, log)
    decreases |events|
  {
    if |events| == n + 1 {
      log := FrontBegins(w, events, x);
    } else {
      var init := events[..|events| - 1];
      FrontAtBefore(w, events, n, x);
      var before := FrontTracked(w, init, n, x);
      var more := FrontGoesOn(w, events, x, before);
      AppendAssociates(LogOf(w, events[..n]), before, more);
      log := before + more;
    }
  }

  /**
   What a part in front of a half-read one costs: whichever run gets to the half-read part again, be it after the part
   in front was cut, or was empty, or after failures, commits its first row again; once past it all its rows have been.
   */
  lemma HalfReadAgain(w: World, events: seq<Event>, n: nat, x: Part) returns (again: seq<RowId>)
    requires Sound(w) && AddingAfter(w, events) && FrontAt(w, events, n, x)
    ensures LogOf(w, events) == LogOf(w, events[..n]) + again && RowId(x.name, 0) in LogOf(w, events[..n])
    ensures CursorOf(w, events).current == Some(x.name) && CursorOf(w, events).offset > 0 ==> RowId(x.name, 0) in again
    ensures !After(CursorOf(w, events), x) ==> forall i :: 0 <= i < w.rowCount(x.name) ==> RowId(x.name, i) in again
  {
    again := FrontTracked(w, events, n, x);
    HalfReadOnce(w, events[..n]);
  }

  lemma HalfReadOnce(w: World, events: seq<Event>)
    requires Sound(w) && Growing(w, events) && CursorOf(w, events).current.Some?
    ensures RowId(CursorOf(w, events).current.value, 0) in LogOf(w, events)
  {
    var k := CursorDescribesLog(w, events);
    HalfReadLogged(w, Ever(events), CursorOf(w, events), k);
  }

  lemma HalfReadLogged(w: World, files: seq<Part>, c: Cursor, k: nat)
    requires At(w, files, c, k) && c.current.Some?
    ensures RowId(c.current.value, 0) in RowsBefore(w, files, c, k)
  {
    var rows := RowsFrom(files[k].name, 0, c.offset);
    assert rows[0] == RowId(c.current.value, 0) && rows[0] in rows;
  }

  // ----- a source -----

  /**
   Both, for the streaming reader: in order and exactly once when the index grows at its end, and none lost anyhow.
   */
  lemma CommittedRows(src: Source, events: seq<Event>)
    ensures var w := WorldOf(src);
            var log := LogOf(w, events);
            && (Growing(w, events) ==>
                  && log <= AllRows(w, Ever(events))
                  && forall i, j :: 0 <= i < j < |log| ==> log[i] != log[j])
            && (AddingAfter(w, events) ==> Covered(w, Ever(events), CursorOf(w, events), log))
  {
    SourceIsSound(src);
    if Growing(WorldOf(src), events) { RowsExactlyOnce(WorldOf(src), events); }
    if AddingAfter(WorldOf(src), events) { NoRowLost(WorldOf(src), events); }
  }

  /** The same of a stored state, whatever calls of RunOnce led to it: `log` is what they committed. */
  lemma StoredRows(d: DeltaState)
    requires d.Valid()
    ensures var w := WorldOf(d.src);
            && (Growing(w, d.events) ==>
                  && d.log <= AllRows(w, Ever(d.events))
                  && forall i, j :: 0 <= i < j < |d.log| ==> d.log[i] != d.log[j])
            && (AddingAfter(w, d.events) ==> Covered(w, Ever(d.events), d.cursor, d.log))
  {
    CommittedRows(d.src, d.events);
  }
}
