/**
 A delta index (server/adapters/off-delta.js): the parts its lines name, in time order, and which of them a run reads
 from the stored cursor.
 */
module OffDelta {
  import opened Basics

  datatype Part = Part(name: string, start: nat, end: nat)

  /** The stored cursor: the last completed part, and the part under way with its row offset. */
  datatype Cursor = Cursor(seen: Option<string>, seenEnd: nat, current: Option<string>, offset: nat)

  const OLDEST := Cursor(None, 0, None, 0)

  // ----- the order of parts -----

  predicate Before(a: Part, b: Part) {
    a.end < b.end || (a.end == b.end && StringLess(a.name, b.name))
  }

  predicate Ordered(files: seq<Part>) {
    forall i, j :: 0 <= i < j < |files| ==> Before(files[i], files[j])
  }

  predicate Named(files: seq<Part>, name: string) {
    exists i :: 0 <= i < |files| && files[i].name == name
  }

  ghost predicate DistinctNames(files: seq<Part>) {
    forall i, j :: 0 <= i < j < |files| ==> files[i].name != files[j].name
  }

  lemma BeforeOrder(a: Part, b: Part, c: Part)
    ensures Before(a, b) && Before(b, c) ==> Before(a, c)
    ensures !(Before(a, b) && Before(b, a))
    ensures a.name != b.name ==> Before(a, b) || Before(b, a)
  {
    StringLessTotal(a.name, b.name);
    if Before(a, b) && Before(b, c) && a.end == b.end == c.end {
      StringLessTransitive(a.name, b.name, c.name);
    }
  }

  /** Array.prototype.sort by that order. */
  function Sort(files: seq<Part>): (r: seq<Part>)
    ensures forall p :: p in r <==> p in files
  {
    if files == [] then []
    else
      assert files == files[..|files| - 1] + [files[|files| - 1]];
      Insert(Sort(files[..|files| - 1]), files[|files| - 1])
  }

  function Insert(files: seq<Part>, p: Part): (r: seq<Part>)
    ensures forall q :: q in r <==> q in files || q == p
  {
    if files == [] || Before(files[|files| - 1], p) then files + [p]
    else
      assert files == files[..|files| - 1] + [files[|files| - 1]];
      Insert(files[..|files| - 1], p) + [files[|files| - 1]]
  }

  lemma OrderedSnoc(files: seq<Part>, p: Part)
    requires Ordered(files) && forall q :: q in files ==> Before(q, p)
    ensures Ordered(files + [p])
  {
    forall i | 0 <= i < |files| ensures Before(files[i], p) {
      assert files[i] in files;
    }
  }

  lemma {:induction false} InsertOrdered(files: seq<Part>, p: Part)
    requires Ordered(files) && forall q :: q in files ==> q.name != p.name
    ensures Ordered(Insert(files, p))
  {
    if files != [] {
      var init, last := files[..|files| - 1], files[|files| - 1];
      assert files == init + [last];
      if Before(last, p) {
        forall q | q in files ensures Before(q, p) {
          BeforeOrder(q, last, p);
        }
        OrderedSnoc(files, p);
      } else {
        InsertOrdered(init, p);
        assert last in files;
        BeforeOrder(last, p, p);
        forall q | q in Insert(init, p) ensures Before(q, last) {
          if q != p {
            assert q in init;
          }
        }
        OrderedSnoc(Insert(init, p), last);
      }
    }
  }

  lemma {:induction false} SortOrdered(files: seq<Part>)
    requires DistinctNames(files)
    ensures Ordered(Sort(files))
  {
    if files != [] {
      var init, last := files[..|files| - 1], files[|files| - 1];
      SortOrdered(init);
      InsertOrdered(Sort(init), last);
    }
  }

  lemma LastIsLatest(files: seq<Part>, p: Part)
    requires Ordered(files) && files != []
    ensures p in files <==> p in files[..|files| - 1] || p == files[|files| - 1]
    ensures p in files[..|files| - 1] ==> Before(p, files[|files| - 1]) && p != files[|files| - 1]
  {
    var last := files[|files| - 1];
    assert files == files[..|files| - 1] + [last];
    BeforeOrder(last, last, last);
  }

  /** Two ordered lists of the same parts are the same list. */
  lemma {:induction false} OrderedUnique(a: seq<Part>, b: seq<Part>)
    requires Ordered(a) && Ordered(b) && forall p :: p in a <==> p in b
    ensures a == b
  {
    assert a != [] ==> a[0] in b;
    assert b != [] ==> b[0] in a;
    if a != [] {
      var x, y := a[|a| - 1], b[|b| - 1];
      assert x in b && y in a;
      LastIsLatest(a, y);
      LastIsLatest(b, x);
      BeforeOrder(x, y, x);
      var init, other := a[..|a| - 1], b[..|b| - 1];
      forall p ensures p in init <==> p in other {
        LastIsLatest(a, p);
        LastIsLatest(b, p);
      }
      OrderedUnique(init, other);
    }
  }

  // ----- the index -----

  datatype IndexError = UnexpectedFile | BadRange | Repeated | Empty

  /** A line that is blank, or names a part not named before, with a range that is not empty. */
  predicate GoodLine(lines: seq<string>, range: string -> Option<(nat, nat)>, i: nat)
    requires i < |lines|
  {
    var name := Trim(lines[i]);
    || name == ""
    || (range(name).Some? && range(name).value.0 < range(name).value.1 && forall j :: 0 <= j < i ==>
         Trim(lines[j]) != name)
  }

  /** A name some line gives. */
  ghost predicate Given(lines: seq<string>, name: string) {
    exists i :: 0 <= i < |lines| && Trim(lines[i]) == name
  }

  /** The first `k` lines are good, and `files` are the parts they name. */
  ghost predicate IndexUpTo(lines: seq<string>, range: string -> Option<(nat, nat)>, k: nat, files: seq<Part>) {
    && k <= |lines| && DistinctNames(files)
    && (forall i :: 0 <= i < |files| ==> PartFits(lines[..k], range, files[i]))
    && (forall i :: 0 <= i < k ==> GoodLine(lines, range, i))
    && (forall i :: 0 <= i < k && Trim(lines[i]) != "" ==> Trim(lines[i]) in NamesOf(files))
  }

  ghost predicate PartFits(lines: seq<string>, range: string -> Option<(nat, nat)>, p: Part) {
    p.name != "" && Given(lines, p.name) && range(p.name) == Some((p.start, p.end)) && p.start < p.end
  }

  lemma IndexNext(lines: seq<string>, range: string -> Option<(nat, nat)>, k: nat, files: seq<Part>, p: Part)
    requires IndexUpTo(lines, range, k, files) && k < |lines| && Trim(lines[k]) == p.name != ""
             && p.name !in NamesOf(files)
    requires range(p.name) == Some((p.start, p.end)) && p.start < p.end
    ensures IndexUpTo(lines, range, k + 1, files + [p])
  {
    assert NamesOf(files + [p]) == NamesOf(files) + {p.name} by { NamesSnoc(files, p); }
    assert GoodLine(lines, range, k) by { assert forall i :: 0 <= i < k ==> Trim(lines[i]) != p.name; }
    assert DistinctNames(files + [p]) by { assert forall i :: 0 <= i < |files| ==> files[i].name in NamesOf(files); }
    PartsNext(lines, range, k, files, p);
  }

  lemma PartsNext(lines: seq<string>, range: string -> Option<(nat, nat)>, k: nat, files: seq<Part>, p: Part)
    requires k < |lines| && Trim(lines[k]) == p.name != "" && range(p.name) == Some((p.start, p.end)) && p.start < p.end
    requires forall i :: 0 <= i < |files| ==> PartFits(lines[..k], range, files[i])
    ensures forall i :: 0 <= i < |files + [p]| ==> PartFits(lines[..k + 1], range, (files + [p])[i])
  {
    var more := files + [p];
    forall i | 0 <= i < |more| ensures PartFits(lines[..k + 1], range, more[i]) {
      GivenMore(lines, k, more[i].name);
      if i < |files| { assert PartFits(lines[..k], range, files[i]); }
    }
  }

  lemma IndexBlank(lines: seq<string>, range: string -> Option<(nat, nat)>, k: nat, files: seq<Part>)
    requires IndexUpTo(lines, range, k, files) && k < |lines| && Trim(lines[k]) == ""
    ensures IndexUpTo(lines, range, k + 1, files)
  {
    forall i | 0 <= i < |files| ensures PartFits(lines[..k + 1], range, files[i]) {
      GivenMore(lines, k, files[i].name);
      assert PartFits(lines[..k], range, files[i]);
    }
  }

  lemma GivenMore(lines: seq<string>, k: nat, name: string)
    requires k < |lines|
    ensures Given(lines[..k + 1], name) <==> Given(lines[..k], name) || name == Trim(lines[k])
  {
    var more := lines[..k + 1];
    assert more[k] == lines[k] && forall i :: 0 <= i < k ==> more[i] == lines[..k][i];
    if Given(lines[..k], name) {
      var i :| 0 <= i < k && Trim(lines[..k][i]) == name;
      assert Trim(more[i]) == name;
    }
  }

  /** The parts of a whole index, in order. */
  lemma IndexSorted(lines: seq<string>, range: string -> Option<(nat, nat)>, files: seq<Part>)
    requires IndexUpTo(lines, range, |lines|, files) && files != []
    ensures IsIndex(lines, range, Sort(files)) && GoodIndexLines(lines, range)
  {
    assert lines[..|lines|] == lines;
    SortOrdered(files);
    var sorted := Sort(files);
    assert files[0] in sorted;
    forall i | 0 <= i < |lines| && Trim(lines[i]) != "" ensures Named(sorted, Trim(lines[i])) {
      var k :| 0 <= k < |files| && files[k].name == Trim(lines[i]);
      assert files[k] in sorted;
    }
    forall i, j | 0 <= i < j < |sorted| ensures sorted[i].name != sorted[j].name {
      assert sorted[i] in files && sorted[j] in files;
      BeforeOrder(sorted[i], sorted[j], sorted[j]);
    }
    assert PartFits(lines, range, files[0]);
    forall p | p in sorted ensures PartFits(lines, range, p) {
      var i :| 0 <= i < |files| && files[i] == p;
    }
  }

  /** Every line is good and some line is not blank. */
  ghost predicate GoodIndexLines(lines: seq<string>, range: string -> Option<(nat, nat)>) {
    (exists i :: 0 <= i < |lines| && Trim(lines[i]) != "") && forall i :: 0 <= i < |lines| ==> GoodLine(lines, range, i)
  }

  /** The parts the lines name, each once, with their ranges, in order. */
  ghost predicate IsIndex(lines: seq<string>, range: string -> Option<(nat, nat)>, files: seq<Part>) {
    && files != [] && Ordered(files) && DistinctNames(files)
    && (forall p :: p in files ==> PartFits(lines, range, p))
    && (forall i :: 0 <= i < |lines| && Trim(lines[i]) != "" ==> Named(files, Trim(lines[i])))
  }

  /**
   The index's non-empty lines as parts, oldest first. `range` is what the file name pattern reads from a name: its
   start and end timestamps, or nothing when the name is not one of a part.
   */
  method ParseIndex(lines: seq<string>, range: string -> Option<(nat, nat)>) returns (r: Result<seq<Part>, IndexError>)
    ensures r.Success? <==> GoodIndexLines(lines, range)
    ensures r.Success? ==> IsIndex(lines, range, r.value)
  {
    var files: seq<Part> := [];
    var seen: set<string> := {};
    var k := 0;
    IndexStarts(lines, range);
    while k < |lines|
      invariant 0 <= k <= |lines| && Begun(lines, range, k, files, seen)
    {
      var error;
      files, seen, error := ParseLine(lines, range, k, files, seen);
      if error.Some? { return Failure(error.value); }
      k := k + 1;
    }
    if files == [] {
      NoParts(lines, range);
      return Failure(Empty);
    }
    IndexSorted(lines, range, files);
    return Success(Sort(files));
  }

  /** Where the loop over lines stands. */
  ghost predicate Begun(lines: seq<string>, range: string -> Option<(nat, nat)>, k: nat, files: seq<Part>,
                        seen: set<string>)
  {
    seen == NamesOf(files) && IndexUpTo(lines, range, k, files)
  }

  lemma IndexStarts(lines: seq<string>, range: string -> Option<(nat, nat)>)
    ensures Begun(lines, range, 0, [], {})
  {}

  /** Lines that name no part are all blank. */
  lemma NoParts(lines: seq<string>, range: string -> Option<(nat, nat)>)
    requires IndexUpTo(lines, range, |lines|, [])
    ensures !GoodIndexLines(lines, range)
  {}

  /** One line: it is blank, or names one part more, or is why the index is refused. */
  method ParseLine(lines: seq<string>, range: string -> Option<(nat, nat)>, k: nat, files: seq<Part>, seen: set<string>)
    returns (files': seq<Part>, seen': set<string>, error: Option<IndexError>)
    requires k < |lines| && Begun(lines, range, k, files, seen)
    ensures if error.Some? then !GoodIndexLines(lines, range) else Begun(lines, range, k + 1, files', seen')
  {
    files', seen', error := files, seen, None;
    var name := Trim(lines[k]);
    if name == "" {
      IndexBlank(lines, range, k, files);
      return;
    }
    var m := range(name);
    if m.None? || !(m.value.1 > m.value.0) || name in seen {
      BadLine(lines, range, k, files);
      error := Some(if m.None? then UnexpectedFile else if !(m.value.1 > m.value.0) then BadRange else Repeated);
      return;
    }
    var part := Part(name, m.value.0, m.value.1);
    IndexNext(lines, range, k, files, part);
    NamesSnoc(files, part);
    files', seen' := files + [part], seen + {name};
  }

  /** A line with no range, an empty one, or a name given before. */
  lemma BadLine(lines: seq<string>, range: string -> Option<(nat, nat)>, k: nat, files: seq<Part>)
    requires IndexUpTo(lines, range, k, files) && k < |lines| && Trim(lines[k]) != ""
    requires var m := range(Trim(lines[k])); m.None? || !(m.value.1 > m.value.0) || Trim(lines[k]) in NamesOf(files)
    ensures !GoodIndexLines(lines, range)
  {
    if Trim(lines[k]) in NamesOf(files) {
      var i :| 0 <= i < |files| && files[i].name == Trim(lines[k]);
      assert PartFits(lines[..k], range, files[i]);
      var j :| 0 <= j < k && Trim(lines[..k][j]) == files[i].name;
      assert Trim(lines[j]) == Trim(lines[k]);
    }
    assert !GoodLine(lines, range, k);
  }

  function NamesOf(files: seq<Part>): set<string> {
    set i | 0 <= i < |files| :: files[i].name
  }

  lemma NamesSnoc(files: seq<Part>, p: Part)
    ensures NamesOf(files + [p]) == NamesOf(files) + {p.name}
  {
    var more := files + [p];
    assert more[|files|] == p;
    forall name | name in NamesOf(files) ensures name in NamesOf(more) {
      var i :| 0 <= i < |files| && files[i].name == name;
      assert more[i].name == name;
    }
  }

  // ----- the parts a run reads -----

  predicate After(c: Cursor, p: Part) {
    var name := if c.seen.Some? then c.seen.value else "";
    p.end > c.seenEnd || (p.end == c.seenEnd && StringLess(name, p.name))
  }

  function Filter(files: seq<Part>, keep: Part -> bool): seq<Part> {
    if files == [] then []
    else Filter(files[..|files| - 1], keep) + (if keep(files[|files| - 1]) then [files[|files| - 1]] else [])
  }

  function Find(files: seq<Part>, name: string): (p: Part)
    requires Named(files, name)
    ensures p in files && p.name == name
  {
    if files[0].name == name then files[0] else Find(files[1..], name)
  }

  /** The unfinished part first, then every later unseen one; and all of it in order again. */
  function NextFiles(files: seq<Part>, c: Cursor): seq<Part> {
    var list := Filter(files, (p: Part) => After(c, p));
    if c.current.Some? && Named(files, c.current.value) && After(c, Find(files, c.current.value)) then
      var current := Find(files, c.current.value);
      Sort([current] + Filter(list, (p: Part) => p.name != current.name))
    else Sort(list)
  }

  lemma NextAreListed(files: seq<Part>, c: Cursor)
    ensures forall p :: p in NextFiles(files, c) ==> p in files
  {
    var list := Filter(files, (p: Part) => After(c, p));
    FilterMeaning(files, (p: Part) => After(c, p));
    if c.current.Some? {
      FilterMeaning(list, (p: Part) => p.name != c.current.value);
    }
  }

  lemma {:induction false} FilterMembers(files: seq<Part>, keep: Part -> bool)
    ensures forall p :: p in Filter(files, keep) <==> p in files && keep(p)
  {
    if files != [] {
      FilterMembers(files[..|files| - 1], keep);
      assert files == files[..|files| - 1] + [files[|files| - 1]];
    }
  }

  lemma {:induction false} FilterOrdered(files: seq<Part>, keep: Part -> bool)
    requires Ordered(files)
    ensures Ordered(Filter(files, keep))
  {
    if files != [] {
      var init, last := files[..|files| - 1], files[|files| - 1];
      FilterOrdered(init, keep);
      if keep(last) {
        FilterMembers(init, keep);
        OrderedSnoc(Filter(init, keep), last);
      }
    }
  }

  lemma {:induction false} FilterDistinct(files: seq<Part>, keep: Part -> bool)
    requires DistinctNames(files)
    ensures DistinctNames(Filter(files, keep))
  {
    if files != [] {
      var init, last := files[..|files| - 1], files[|files| - 1];
      FilterDistinct(init, keep);
      if keep(last) {
        FilterMembers(init, keep);
        forall i | 0 <= i < |Filter(init, keep)| ensures Filter(init, keep)[i].name != last.name {
          assert Filter(init, keep)[i] in Filter(init, keep);
        }
      }
    }
  }

  lemma FilterMeaning(files: seq<Part>, keep: Part -> bool)
    ensures forall p :: p in Filter(files, keep) <==> p in files && keep(p)
    ensures Ordered(files) ==> Ordered(Filter(files, keep))
    ensures DistinctNames(files) ==> DistinctNames(Filter(files, keep))
  {
    FilterMembers(files, keep);
    if Ordered(files) { FilterOrdered(files, keep); }
    if DistinctNames(files) { FilterDistinct(files, keep); }
  }

  /**
   A run's queue is what the index lists after the last completed part, oldest first, the unfinished part in its
   place.
   */
  lemma NextFilesMeaning(files: seq<Part>, c: Cursor)
    requires Ordered(files) && DistinctNames(files)
    ensures NextFiles(files, c) == Filter(files, (p: Part) => After(c, p))
  {
    var list := Filter(files, (p: Part) => After(c, p));
    FilterMeaning(files, (p: Part) => After(c, p));
    SortOrdered(list);
    OrderedUnique(Sort(list), list);
    if c.current.Some? && Named(files, c.current.value) && After(c, Find(files, c.current.value)) {
      CurrentInPlace(list, Find(files, c.current.value));
    }
  }

  lemma CurrentInPlace(list: seq<Part>, current: Part)
    requires Ordered(list) && DistinctNames(list) && current in list
    ensures Sort([current] + Filter(list, (p: Part) => p.name != current.name)) == list
  {
    var rest := Filter(list, (p: Part) => p.name != current.name);
    FilterMeaning(list, (p: Part) => p.name != current.name);
    var moved := [current] + rest;
    forall p ensures p in moved <==> p in list {
      if p in list && p !in rest {
        var i, j :| 0 <= i < |list| && list[i] == p && 0 <= j < |list| && list[j] == current;
        assert i == j;
      }
    }
    assert DistinctNames(moved) by {
      forall j | 0 <= j < |rest| ensures rest[j].name != current.name {
        assert rest[j] in rest;
      }
    }
    SortOrdered(moved);
    OrderedUnique(Sort(moved), list);
  }
}
