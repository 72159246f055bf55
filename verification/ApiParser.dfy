/**
 The whole-body reader of server/adapters/api.js: a CSV text as a table of records, and records as items with one item
 per identity.
 */
module ApiParser {
  import opened Basics
  import opened CsvLexer
  import opened Duplicates

  datatype Table = Table(records: seq<Json>, bad: nat)

  datatype TableError = OpenQuote | NoHeaderLine | BadHeader

  // ----- a CSV text as a table -----

  function NonBlank(rows: seq<Cells>): seq<Cells> {
    if rows == [] then []
    else NonBlank(rows[..|rows| - 1]) + (if Blank(rows[|rows| - 1]) then [] else [rows[|rows| - 1]])
  }

  /** Rows under a header: a row of another width is bad, the others are records. */
  function Tabulate(names: Cells, rows: seq<Cells>): Table {
    if rows == [] then Table([], 0)
    else
      var before := Tabulate(names, rows[..|rows| - 1]);
      var last := rows[|rows| - 1];
      if |last| != |names| then before.(bad := before.bad + 1)
      else before.(records := before.records + [Record(names, last)])
  }

  function Tabled(rows: seq<Cells>): Result<Table, TableError> {
    var lines := NonBlank(rows);
    if lines == [] then Failure(NoHeaderLine)
    else if !GoodHeader(TrimAll(lines[0])) then Failure(BadHeader)
    else Success(Tabulate(TrimAll(lines[0]), lines[1..]))
  }

  /** The table of a text whose byte order mark, if it had one, is gone. */
  function TableOf(src: string): Result<Table, TableError> {
    if Lex(START, src).lexer.Open() then Failure(OpenQuote) else Tabled(Rows(src))
  }

  function OneShot(text: string): Result<Table, TableError> {
    TableOf(StripBom(text))
  }

  /** The rows of a text, by one loop that looks a character ahead. `open`: the text ends inside a quoted field. */
  method SplitRows(src: string) returns (rows: seq<Cells>, open: bool)
    ensures open == Lex(START, src).lexer.Open()
    ensures !open ==> rows == Rows(src)
  {
    rows := [];
    var row: Cells := [];
    var field := "";
    var quoted := false;
    var i := 0;
    while i < |src|
      invariant 0 <= i <= |src|
      invariant Looks(Lex(START, src[..i]), field, row, rows, quoted, src[i..])
    {
      ghost var s := Lex(START, src[..i]);
      assert src[..i + 1][..i] == src[..i];
      var ch := src[i];
      if quoted {
        if ch == '"' {
          if i + 1 < |src| && src[i + 1] == '"' {
            field := field + "\"";
            i := i + 1;
            assert src[..i + 1][..i] == src[..i];
          } else {
            quoted := false;
          }
        } else {
          field := field + [ch];
        }
      } else if ch == '"' && field == "" {
        quoted := true;
      } else if ch == ',' {
        row, field := row + [field], "";
      } else if ch == '\r' {
      } else if ch == '\n' {
        row := row + [field];
        rows := rows + [row];
        row, field := [], "";
      } else {
        field := field + [ch];
      }
      i := i + 1;
    }
    assert src[..i] == src;
    open := quoted;
    if !quoted && (field != "" || row != []) {
      row := row + [field];
      rows := rows + [row];
    }
  }

  /** Where the look-ahead loop stands: it has already settled a quote the lexer still holds as pending. */
  ghost predicate Looks(e: Lexed, field: string, row: Cells, rows: seq<Cells>, quoted: bool, rest: string) {
    && e.rows == rows && e.lexer.field == field && e.lexer.row == row
    && quoted == e.lexer.Open()
    && (e.lexer.quotePending ==> e.lexer.inQuotes && (rest == "" || rest[0] != '"'))
  }

  method ParseCsv(text: string) returns (r: Result<Table, TableError>)
    ensures r == OneShot(text)
  {
    var src := StripBom(text);
    var rows, open := SplitRows(src);
    if open { return Failure(OpenQuote); }
    var lines: seq<Cells> := [];
    var i := 0;
    while i < |rows|
      invariant 0 <= i <= |rows| && lines == NonBlank(rows[..i])
    {
      if !Blank(rows[i]) { lines := lines + [rows[i]]; }
      assert rows[..i + 1][..i] == rows[..i];
      i := i + 1;
    }
    assert rows[..i] == rows;
    if lines == [] { return Failure(NoHeaderLine); }
    var names := TrimAll(lines[0]);
    if !GoodHeader(names) { return Failure(BadHeader); }
    var rest := lines[1..];
    var records: seq<Json> := [];
    var bad := 0;
    i := 0;
    while i < |rest|
      invariant 0 <= i <= |rest| && Table(records, bad) == Tabulate(names, rest[..i])
    {
      assert rest[..i + 1][..i] == rest[..i];
      if |rest[i]| != |names| {
        bad := bad + 1;
      } else {
        records := records + [Record(names, rest[i])];
      }
      i := i + 1;
    }
    assert rest[..i] == rest;
    return Success(Table(records, bad));
  }

  // ----- the round trip -----

  predicate TrimmedCells(cells: Cells) {
    forall i :: 0 <= i < |cells| ==> Trimmed(cells[i])
  }

  /** A table that can be printed: header names present, distinct and trimmed; rows of its width with trimmed cells. */
  predicate Printable(names: Cells, rows: seq<Cells>) {
    && names != [] && GoodHeader(names) && TrimmedCells(names)
    && forall i :: 0 <= i < |rows| ==> |rows[i]| == |names| && TrimmedCells(rows[i])
  }

  function RecordsOf(names: Cells, rows: seq<Cells>): seq<Json>
    requires forall i :: 0 <= i < |rows| ==> |rows[i]| == |names|
  {
    seq(|rows|, i requires 0 <= i < |rows| =>
      JObject(seq(|names|, j requires 0 <= j < |names| => (names[j], JString(rows[i][j])))))
  }

  lemma TrimAllTrimmed(cells: Cells)
    requires TrimmedCells(cells)
    ensures TrimAll(cells) == cells
  {
    forall i | 0 <= i < |cells| ensures Trim(cells[i]) == cells[i] {
      TrimTrimmed(cells[i]);
    }
  }

  lemma {:induction false} NonBlankCons(first: Cells, rows: seq<Cells>)
    ensures NonBlank([first] + rows) == (if Blank(first) then [] else [first]) + NonBlank(rows)
  {
    if rows == [] {
      assert ([first] + rows)[..0] == [];
    } else {
      assert ([first] + rows)[..|rows|] == [first] + rows[..|rows| - 1];
      NonBlankCons(first, rows[..|rows| - 1]);
    }
  }

  lemma {:induction false} NonBlankWidth(rows: seq<Cells>, width: nat)
    requires forall i :: 0 <= i < |rows| ==> |rows[i]| == width && TrimmedCells(rows[i])
    ensures forall i :: 0 <= i < |NonBlank(rows)| ==> |NonBlank(rows)[i]| == width && TrimmedCells(NonBlank(rows)[i])
  {
    if rows != [] {
      NonBlankWidth(rows[..|rows| - 1], width);
    }
  }

  lemma {:induction false} TabulatePrinted(names: Cells, rows: seq<Cells>)
    requires Printable(names, rows)
    ensures Tabulate(names, rows) == Table(RecordsOf(names, rows), 0)
  {
    if rows != [] {
      var init, last := rows[..|rows| - 1], rows[|rows| - 1];
      TabulatePrinted(names, init);
      assert Record(names, last) == RecordsOf(names, rows)[|init|] by {
        forall j | 0 <= j < |names| ensures Trim(last[j]) == last[j] { TrimTrimmed(last[j]); }
      }
      assert RecordsOf(names, rows) == RecordsOf(names, init) + [Record(names, last)];
    }
  }

  lemma {:induction false} PrintedCellsQuote(cells: Cells)
    requires cells != []
    ensures PrintCells(cells) != "" && PrintCells(cells)[0] == '"'
  {
    if |cells| > 1 {
      PrintedCellsQuote(cells[..|cells| - 1]);
    }
  }

  lemma {:induction false} PrintedRowsQuote(rows: seq<Cells>, eol: string)
    requires rows != [] && rows[0] != []
    ensures PrintRows(rows, eol) != "" && PrintRows(rows, eol)[0] == '"'
  {
    if |rows| == 1 {
      PrintedCellsQuote(rows[0]);
      assert PrintRows(rows[..0], eol) == "";
    } else {
      PrintedRowsQuote(rows[..|rows| - 1], eol);
    }
  }

  /** Only a row of one empty cell is blank, so with two columns or more none is. */
  lemma {:induction false} BlankRows(rows: seq<Cells>, width: nat)
    requires width > 0 && forall i :: 0 <= i < |rows| ==> |rows[i]| == width && TrimmedCells(rows[i])
    ensures |NonBlank(rows)| <= |rows|
    ensures NonBlank(rows) == rows <==> width >= 2 || [""] !in rows
  {
    if rows != [] {
      var init, last := rows[..|rows| - 1], rows[|rows| - 1];
      BlankRows(init, width);
      TrimTrimmed(last[0]);
      assert Blank(last) == (last == [""]);
      assert rows == init + [last];
    }
  }

  lemma PrintedLex(names: Cells, rows: seq<Cells>, eol: string)
    requires Printable(names, rows) && LineBreak(eol)
    ensures var text := PrintRows([names] + rows, eol);
            StripBom(text) == text && Lex(START, text) == Lexed(START, [names] + rows) && Rows(text) == [names] + rows
  {
    LexPrinted([names] + rows, eol);
    PrintedRowsQuote([names] + rows, eol);
  }

  /**
   Printing a table with every field quoted and reading it back gives its rows that are not blank, and no bad row. So
   the table comes back whole exactly when it has two columns or more, or no empty row.
   */
  lemma CsvRoundTrip(names: Cells, rows: seq<Cells>, eol: string)
    requires Printable(names, rows) && LineBreak(eol)
    ensures Printable(names, NonBlank(rows))
    ensures OneShot(PrintRows([names] + rows, eol)) == Success(Table(RecordsOf(names, NonBlank(rows)), 0))
    ensures RecordsOf(names, NonBlank(rows)) == RecordsOf(names, rows) <==> |names| >= 2 || [""] !in rows
  {
    PrintedLex(names, rows, eol);
    TrimAllTrimmed(names);
    assert !Blank(names) by { TrimTrimmed(names[0]); }
    NonBlankCons(names, rows);
    assert ([names] + NonBlank(rows))[1..] == NonBlank(rows);
    NonBlankWidth(rows, |names|);
    TabulatePrinted(names, NonBlank(rows));
    BlankRows(rows, |names|);
    if |NonBlank(rows)| == |rows| {
      NonBlankSame(rows);
    } else {
      assert |RecordsOf(names, NonBlank(rows))| != |RecordsOf(names, rows)|;
    }
  }

  lemma {:induction false} NonBlankSame(rows: seq<Cells>)
    ensures |NonBlank(rows)| <= |rows|
    ensures |NonBlank(rows)| == |rows| ==> NonBlank(rows) == rows
  {
    if rows != [] {
      NonBlankSame(rows[..|rows| - 1]);
    }
  }

  // ----- records as items -----

  datatype Shape = ArrayShape | MapShape

  /** A record where the body keeps it: under a key when the body is a map. */
  datatype Entry = Entry(key: Option<string>, value: Json)

  /** An endpoint's mapping: its conditions and its fields are functions of the entry and, in an array, its position. */
  datatype Endpoint = Endpoint(
    shape: Shape, keepLast: bool, wanted: Entry -> bool, mapRecord: (Entry, Option<nat>) -> Option<Item>)

  datatype Page = Page(items: seq<Item>, skipped: int, filtered: nat)

  predicate IsRecord(ep: Endpoint, v: Json) {
    v.JObject? || (v.JArray? && ep.shape.ArrayShape?)
  }

  function PositionOf(ep: Endpoint, k: nat): Option<nat> {
    if ep.shape.MapShape? then None else Some(k)
  }

  function StatedOne(ep: Endpoint, e: Entry, k: nat): seq<Item> {
    if !IsRecord(ep, e.value) || !ep.wanted(e) then []
    else match ep.mapRecord(e, PositionOf(ep, k)) case None => [] case Some(item) => [item]
  }

  /** The items the entries state, duplicates and all. */
  function Stated(ep: Endpoint, entries: seq<Entry>): seq<Item> {
    if entries == [] then []
    else Stated(ep, entries[..|entries| - 1]) + StatedOne(ep, entries[|entries| - 1], |entries| - 1)
  }

  /** How many entries are records the conditions leave out. */
  function Unwanted(ep: Endpoint, entries: seq<Entry>): nat {
    if entries == [] then 0
    else
      var last := entries[|entries| - 1];
      Unwanted(ep, entries[..|entries| - 1]) + (if IsRecord(ep, last.value) && !ep.wanted(last) then 1 else 0)
  }

  /**
   The items of a body: of the stated ones the first `maxItems` identities, each with its first item, or its last when
   the mapping asks for that; everything else is counted.
   */
  method Parse(ep: Endpoint, entries: seq<Entry>, malformed: nat, maxItems: nat) returns (p: Page)
    ensures Keeps(p.items, Stated(ep, entries), maxItems, ep.keepLast)
    ensures DistinctIdentities(p.items) && |p.items| <= maxItems
    ensures p.filtered == Unwanted(ep, entries)
    ensures |p.items| + p.skipped + p.filtered == |entries| + malformed
  {
    var items: seq<Item> := [];
    var skipped, filtered := malformed, 0;
    var seen: map<string, nat> := map[];
    var k := 0;
    while k < |entries|
      invariant ParsedUpTo(ep, entries, k, malformed, maxItems, items, seen, skipped, filtered)
    {
      items, seen, skipped, filtered := ParseEntry(ep, entries, k, malformed, maxItems, items, seen, skipped, filtered);
      k := k + 1;
    }
    assert entries[..k] == entries;
    KeepsDistinct(items, Stated(ep, entries), maxItems, ep.keepLast);
    return Page(items, skipped, filtered);
  }

  /** Where the loop over entries stands. */
  ghost predicate ParsedUpTo(ep: Endpoint, entries: seq<Entry>, k: nat, malformed: nat, maxItems: nat, items: seq<Item>,
                             seen: map<string, nat>, skipped: int, filtered: nat) {
    && k <= |entries|
    && Keeps(items, Stated(ep, entries[..k]), maxItems, ep.keepLast) && IndexOf(seen, items)
    && filtered == Unwanted(ep, entries[..k])
    && |items| + skipped + filtered == k + malformed
  }

  lemma EntriesNext(ep: Endpoint, entries: seq<Entry>, k: nat)
    requires k < |entries|
    ensures Stated(ep, entries[..k + 1]) == Stated(ep, entries[..k]) + StatedOne(ep, entries[k], k)
    ensures Unwanted(ep, entries[..k + 1])
         == Unwanted(ep, entries[..k]) + if IsRecord(ep, entries[k].value) && !ep.wanted(entries[k]) then 1 else 0
  {
    assert entries[..k + 1][..k] == entries[..k];
  }

  /** One entry: no record, not wanted, not mapped, or a mapped item. */
  method ParseEntry(ep: Endpoint, entries: seq<Entry>, k: nat, ghost malformed: nat, maxItems: nat, items: seq<Item>,
                    seen: map<string, nat>, skipped: int, filtered: nat)
    returns (items': seq<Item>, seen': map<string, nat>, skipped': int, filtered': nat)
    requires k < |entries| && ParsedUpTo(ep, entries, k, malformed, maxItems, items, seen, skipped, filtered)
    ensures ParsedUpTo(ep, entries, k + 1, malformed, maxItems, items', seen', skipped', filtered')
  {
    EntriesNext(ep, entries, k);
    AppendNothing(Stated(ep, entries[..k]));
    items', seen', skipped', filtered' := items, seen, skipped, filtered;
    var e := entries[k];
    if !IsRecord(ep, e.value) {
      skipped' := skipped + 1;
      return;
    }
    if !ep.wanted(e) {
      filtered' := filtered + 1;
      return;
    }
    var mapped := ep.mapRecord(e, PositionOf(ep, k));
    if mapped.None? {
      skipped' := skipped + 1;
      return;
    }
    var kept;
    items', seen', kept := KeepOne(items, seen, Stated(ep, entries[..k]), maxItems, ep.keepLast, mapped.value);
    if !kept { skipped' := skipped + 1; }
  }

  /** One mapped item: kept as new, kept in its earlier item's place (`grew` false), or left out. */
  method KeepOne(items: seq<Item>, seen: map<string, nat>, ghost before: seq<Item>, maxItems: nat, keepLast: bool,
                 item: Item)
    returns (items': seq<Item>, seen': map<string, nat>, grew: bool)
    requires Keeps(items, before, maxItems, keepLast) && IndexOf(seen, items)
    ensures Keeps(items', before + [item], maxItems, keepLast) && IndexOf(seen', items')
    ensures |items'| == |items| + (if grew then 1 else 0)
  {
    SeenIdentities(seen, items, before, maxItems, keepLast, item.identity);
    items', seen', grew := items, seen, false;
    var again := item.identity in seen;
    if again && !keepLast {
      KeepsRepeat(items, before, maxItems, keepLast, item);
      return;
    }
    if !again && |items| >= maxItems {
      LeftOut(items, before, maxItems, keepLast, item);
      return;
    }
    if again {
      KeepsReplace(items, before, maxItems, item, seen[item.identity]);
      items' := items[seen[item.identity] := item];        // the earlier record it replaces is the one skipped
      IndexReplaced(seen, items, item);
    } else {
      KeepsNew(items, before, maxItems, keepLast, item);
      seen' := seen[item.identity := |items|];
      items' := items + [item];
      grew := true;
      IndexMore(seen, items, item);
    }
  }

  /** An item whose identity is not kept when the cap is reached leaves what is kept as it is. */
  lemma LeftOut(items: seq<Item>, before: seq<Item>, maxItems: nat, keepLast: bool, item: Item)
    requires Keeps(items, before, maxItems, keepLast) && |items| >= maxItems && item.identity !in Identities(items)
    ensures Keeps(items, before + [item], maxItems, keepLast)
  {
    if item.identity in FirstSeen(before) {
      KeepsRepeat(items, before, maxItems, keepLast, item);
    } else {
      KeepsNew(items, before, maxItems, keepLast, item);
    }
  }

  lemma IndexReplaced(seen: map<string, nat>, items: seq<Item>, item: Item)
    requires IndexOf(seen, items) && item.identity in seen
    ensures IndexOf(seen, items[seen[item.identity] := item])
  {}

  lemma IndexMore(seen: map<string, nat>, items: seq<Item>, item: Item)
    requires IndexOf(seen, items) && item.identity !in seen
    ensures IndexOf(seen[item.identity := |items|], items + [item])
  {}

  /** `seen` maps each kept identity to its place. */
  ghost predicate IndexOf(seen: map<string, nat>, items: seq<Item>) {
    && (forall id :: id in seen ==> seen[id] < |items| && items[seen[id]].identity == id)
    && (forall k :: 0 <= k < |items| ==> items[k].identity in seen)
  }

  lemma SeenIdentities(seen: map<string, nat>, kept: seq<Item>, items: seq<Item>, limit: nat, last: bool, id: string)
    requires IndexOf(seen, kept) && Keeps(kept, items, limit, last)
    ensures id in seen <==> id in Identities(kept)
    ensures id in seen ==> id in FirstSeen(items)
    ensures |kept| < limit && id !in seen ==> id !in FirstSeen(items)
  {
    if id in seen {
      assert kept[seen[id]].identity == FirstSeen(items)[seen[id]];
    }
    if id in FirstSeen(items) && |kept| < limit {
      var k :| 0 <= k < |FirstSeen(items)| && FirstSeen(items)[k] == id;
      assert kept[k].identity == id;
    }
  }
}
