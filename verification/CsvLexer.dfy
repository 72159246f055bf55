/**
 The character-level reading of CSV. One lexer, over which both the streaming reader (server/adapters/bulk.js) and the
 one-shot reader (server/adapters/api.js) are specified; the loops of both are proved against it.
 */
module CsvLexer {
  import opened Basics

  type Cells = seq<string>

  /** What is kept between two characters: the field and row under way and the quoting state. */
  datatype Lexer = Lexer(field: string, row: Cells, inQuotes: bool, quotePending: bool) {
    /** The text read so far ends inside a quoted field. */
    predicate Open() {
      inQuotes && !quotePending
    }
  }

  const START := Lexer("", [], false, false)

  /** A lexer and the rows it completed on the way. */
  datatype Lexed = Lexed(lexer: Lexer, rows: seq<Cells>)

  /** A character outside quotes. */
  function Ordinary(s: Lexer, ch: char): Lexed {
    if ch == '"' && s.field == "" then Lexed(s.(inQuotes := true), [])
    else if ch == ',' then Lexed(s.(row := s.row + [s.field], field := ""), [])
    else if ch == '\n' then Lexed(s.(row := [], field := ""), [s.row + [s.field]])
    else if ch == '\r' then Lexed(s, [])
    else Lexed(s.(field := s.field + [ch]), [])
  }

  function Step(s: Lexer, ch: char): Lexed {
    if s.quotePending then
      if ch == '"' then Lexed(s.(field := s.field + "\"", quotePending := false), [])
      else Ordinary(s.(quotePending := false, inQuotes := false), ch)
    else if s.inQuotes then
      if ch == '"' then Lexed(s.(quotePending := true), [])
      else Lexed(s.(field := s.field + [ch]), [])
    else Ordinary(s, ch)
  }

  function Lex(s: Lexer, text: string): Lexed {
    if text == "" then Lexed(s, [])
    else
      var before := Lex(s, text[..|text| - 1]);
      var last := Step(before.lexer, text[|text| - 1]);
      Lexed(last.lexer, before.rows + last.rows)
  }

  /** Reading a text in two pieces is reading it whole: the lexer state carries everything a later character needs. */
  lemma {:induction false} LexAppend(s: Lexer, a: string, b: string)
    ensures Lex(s, a + b) == Lexed(Lex(Lex(s, a).lexer, b).lexer, Lex(s, a).rows + Lex(Lex(s, a).lexer, b).rows)
  {
    if b == "" {
      assert a + b == a;
    } else {
      assert (a + b)[..|a + b| - 1] == a + b[..|b| - 1];
      LexAppend(s, a, b[..|b| - 1]);
    }
  }

  lemma LexOne(s: Lexer, ch: char)
    ensures Lex(s, [ch]) == Lexed(Step(s, ch).lexer, Step(s, ch).rows)
  {
    assert [ch][..0] == "";
  }

  /** A text that completes no row leaves only its lexer behind. */
  lemma LexPast(s: Lexer, t: Lexer, a: string, b: string)
    requires Lex(s, a) == Lexed(t, [])
    ensures Lex(s, a + b) == Lex(t, b)
  {
    LexAppend(s, a, b);
  }

  /** The rows of a whole text: those completed by a line break, and a last one without it. */
  function Rows(text: string): seq<Cells> {
    var e := Lex(START, text);
    e.rows + LastRow(e.lexer)
  }

  function LastRow(s: Lexer): seq<Cells> {
    if s.field == "" && s.row == [] then [] else [s.row + [s.field]]
  }

  /** A row both readers pass over: a single cell of white space. */
  predicate Blank(row: Cells) {
    |row| == 1 && Trim(row[0]) == ""
  }

  predicate Distinct(names: Cells) {
    forall i, j :: 0 <= i < j < |names| ==> names[i] != names[j]
  }

  function TrimAll(cells: Cells): (r: Cells)
    ensures |r| == |cells|
    ensures forall i :: 0 <= i < |cells| ==> r[i] == Trim(cells[i])
  {
    seq(|cells|, i requires 0 <= i < |cells| => Trim(cells[i]))
  }

  predicate GoodHeader(names: Cells) {
    "" !in names && Distinct(names)
  }

  /** One row under its header: an object of trimmed cells, its properties in header order. */
  function Record(header: Cells, cells: Cells): Json
    requires |header| == |cells|
  {
    JObject(seq(|header|, i requires 0 <= i < |header| => (header[i], JString(Trim(cells[i])))))
  }

  // ----- printing, per section 2 of RFC 4180, and reading back -----

  function Doubled(cell: string): string {
    if cell == "" then ""
    else Doubled(cell[..|cell| - 1]) + DoubledOne(cell[|cell| - 1])
  }

  function DoubledOne(ch: char): string {
    if ch == '"' then ['"'] + ['"'] else [ch]
  }

  function PrintCell(cell: string): string {
    "\"" + Doubled(cell) + "\""
  }

  function PrintCells(cells: Cells): string {
    if |cells| == 0 then ""
    else if |cells| == 1 then PrintCell(cells[0])
    else PrintCells(cells[..|cells| - 1]) + "," + PrintCell(cells[|cells| - 1])
  }

  function PrintRows(rows: seq<Cells>, eol: string): string {
    if rows == [] then "" else PrintRows(rows[..|rows| - 1], eol) + (PrintCells(rows[|rows| - 1]) + eol)
  }

  lemma LexQuoted(row: Cells, cell: string, ch: char)
    ensures Lex(Lexer(cell, row, true, false), DoubledOne(ch)) == Lexed(Lexer(cell + [ch], row, true, false), [])
  {
    var s := Lexer(cell, row, true, false);
    LexOne(s, ch);
    if ch == '"' {
      LexPast(s, s.(quotePending := true), ['"'], ['"']);
      LexOne(s.(quotePending := true), '"');
    }
  }

  lemma {:induction false} LexDoubled(row: Cells, cell: string)
    ensures Lex(Lexer("", row, true, false), Doubled(cell)) == Lexed(Lexer(cell, row, true, false), [])
  {
    if cell != "" {
      var init, last := cell[..|cell| - 1], cell[|cell| - 1];
      assert init + [last] == cell;
      LexDoubled(row, init);
      LexPast(Lexer("", row, true, false), Lexer(init, row, true, false), Doubled(init), DoubledOne(last));
      LexQuoted(row, init, last);
    }
  }

  lemma LexCell(row: Cells, cell: string)
    ensures Lex(Lexer("", row, false, false), PrintCell(cell)) == Lexed(Lexer(cell, row, true, true), [])
  {
    var outside, within, done :=
      Lexer("", row, false, false), Lexer("", row, true, false), Lexer(cell, row, true, false);
    LexOne(outside, '"');
    LexPast(outside, within, "\"", Doubled(cell));
    LexDoubled(row, cell);
    LexPast(outside, done, "\"" + Doubled(cell), "\"");
    LexOne(done, '"');
  }

  /** Another cell after some. */
  lemma LexNextCell(text: string, cells: Cells, cell: string)
    requires cells != []
    requires Lex(START, text) == Lexed(Lexer(cells[|cells| - 1], cells[..|cells| - 1], true, true), [])
    ensures Lex(START, text + "," + PrintCell(cell)) == Lexed(Lexer(cell, cells, true, true), [])
  {
    var before := Lexer(cells[|cells| - 1], cells[..|cells| - 1], true, true);
    assert cells[..|cells| - 1] + [cells[|cells| - 1]] == cells;
    LexPast(START, before, text, ",");
    LexOne(before, ',');
    LexPast(START, Lexer("", cells, false, false), text + ",", PrintCell(cell));
    LexCell(cells, cell);
  }

  lemma {:induction false} LexCells(cells: Cells)
    requires cells != []
    ensures Lex(START, PrintCells(cells)) == Lexed(Lexer(cells[|cells| - 1], cells[..|cells| - 1], true, true), [])
  {
    var init, last := cells[..|cells| - 1], cells[|cells| - 1];
    if |cells| == 1 {
      LexCell([], last);
      assert init == [];
    } else {
      LexCells(init);
      LexNextCell(PrintCells(init), init, last);
    }
  }

  predicate LineBreak(eol: string) {
    eol == "\n" || eol == "\r\n"
  }

  lemma LexBreak(s: Lexer, eol: string)
    requires s.inQuotes && s.quotePending && LineBreak(eol)
    ensures Lex(s, eol) == Lexed(START, [s.row + [s.field]])
  {
    var outside := s.(inQuotes := false, quotePending := false);
    if eol == "\r\n" {
      LexOne(s, '\r');
      LexPast(s, outside, "\r", "\n");
      LexOne(outside, '\n');
      assert "\r" + "\n" == eol;
    } else {
      LexOne(s, '\n');
    }
  }

  lemma LexLine(cells: Cells, eol: string)
    requires cells != [] && LineBreak(eol)
    ensures Lex(START, PrintCells(cells) + eol) == Lexed(START, [cells])
  {
    var end := Lexer(cells[|cells| - 1], cells[..|cells| - 1], true, true);
    assert cells[..|cells| - 1] + [cells[|cells| - 1]] == cells;
    LexCells(cells);
    LexPast(START, end, PrintCells(cells), eol);
    LexBreak(end, eol);
  }

  lemma {:induction false} LexPrinted(rows: seq<Cells>, eol: string)
    requires LineBreak(eol)
    requires forall k :: 0 <= k < |rows| ==> rows[k] != []
    ensures Lex(START, PrintRows(rows, eol)) == Lexed(START, rows)
  {
    if rows != [] {
      var init, last := rows[..|rows| - 1], rows[|rows| - 1];
      assert init + [last] == rows;
      LexPrinted(init, eol);
      LexLine(last, eol);
      LexMore(PrintRows(init, eol), init, PrintCells(last) + eol, last);
    }
  }

  lemma LexMore(text: string, rows: seq<Cells>, more: string, row: Cells)
    requires Lex(START, text) == Lexed(START, rows) && Lex(START, more) == Lexed(START, [row])
    ensures Lex(START, text + more) == Lexed(START, rows + [row])
  {
    LexAppend(START, text, more);
  }
}
