/**
 Two readers of CSV, one language: when the streaming reader and the one-shot reader see the same table, and that they
 then make the same items of it.
 */
module CsvAgreement {
  import opened Basics
  import opened CsvLexer
  import opened BulkParser
  import opened RecordStream
  import opened Duplicates
  import Api = ApiParser

  // ----- the streaming reader over rows -----

  function TakeRows(cfg: Config, s: Sink, rows: seq<Cells>): Sink {
    if rows == [] then s
    else
      var before := TakeRows(cfg, s, rows[..|rows| - 1]);
      if before.Done() then before else CsvRow(cfg, before, rows[|rows| - 1])
  }

  lemma {:induction false} ReadIsRows(cfg: Config, skip: nat, text: string)
    requires cfg.format.Csv?
    ensures var m, e := Read(cfg, Initial(skip), text), Lex(START, text);
            m.sink == TakeRows(cfg, FreshSink(skip), e.rows) && (!m.sink.Done() ==> m.lexer == e.lexer)
  {
    if text != "" {
      ReadIsRows(cfg, skip, text[..|text| - 1]);
      var e := Lex(START, text[..|text| - 1]);
      var rows := Step(e.lexer, text[|text| - 1]).rows;
      if rows == [] {
        assert e.rows + rows == e.rows;
      } else {
        assert (e.rows + rows)[..|e.rows|] == e.rows;
      }
    }
  }

  /** The table the streaming reader hands on, row by row, were there no limit. */
  datatype Collector = Collector(first: bool, header: Option<Cells>, table: Api.Table, thrown: Option<Failure>)

  function CollectRow(c: Collector, row: Cells): Collector {
    if c.thrown.Some? then c
    else if c.first then
      if Blank(row) then c.(first := false)
      else if GoodHeader(HeaderOf(row)) then c.(first := false, header := Some(HeaderOf(row)))
      else c.(first := false, thrown := Some(HeaderNames))
    else if Blank(row) then c
    else if c.header.None? then c.(thrown := Some(NoHeader))
    else if |row| != |c.header.value| then c.(table := c.table.(bad := c.table.bad + 1))
    else c.(table := c.table.(records := c.table.records + [Record(c.header.value, row)]))
  }

  function Collect(rows: seq<Cells>): Collector {
    if rows == [] then Collector(true, None, Api.Table([], 0), None)
    else CollectRow(Collect(rows[..|rows| - 1]), rows[|rows| - 1])
  }

  /** What stands between the sink and the table it was handed. */
  ghost predicate Fed(cfg: Config, skip: nat, c: Collector, s: Sink) {
    var a := AcceptAll(cfg, FreshSink(skip), c.table.records);
    && s.thrown == c.thrown && (c.header.Some? ==> !c.first)
    && (c.thrown.Some? || c.header.None? ==> c.table.records == [] && !s.stopped)
    && (c.thrown.None? ==> Core(s) == Core(a))
    && (c.thrown.None? && !s.stopped ==>
         s.first == c.first && s.header == c.header && s.skipped == a.skipped + c.table.bad)
  }

  lemma {:induction false} RowsFeed(cfg: Config, skip: nat, rows: seq<Cells>)
    requires cfg.limit >= 1
    ensures Fed(cfg, skip, Collect(rows), TakeRows(cfg, FreshSink(skip), rows))
  {
    if rows != [] {
      var init := rows[..|rows| - 1];
      RowsFeed(cfg, skip, init);
      RowFeeds(cfg, skip, Collect(init), TakeRows(cfg, FreshSink(skip), init), rows[|rows| - 1]);
    }
  }

  lemma RowFeeds(cfg: Config, skip: nat, c: Collector, s: Sink, row: Cells)
    requires cfg.limit >= 1 && Fed(cfg, skip, c, s)
    ensures Fed(cfg, skip, CollectRow(c, row), if s.Done() then s else CsvRow(cfg, s, row))
  {
    if c.thrown.None? && !c.first && c.header.Some? && !Blank(row) && |row| == |c.header.value| {
      RecordFeeds(cfg, skip, c, s, Record(c.header.value, row));
    }
  }

  lemma RecordFeeds(cfg: Config, skip: nat, c: Collector, s: Sink, rec: Json)
    requires cfg.limit >= 1 && Fed(cfg, skip, c, s) && c.thrown.None? && c.header.Some?
    ensures Fed(cfg, skip, c.(table := c.table.(records := c.table.records + [rec])),
                if s.Done() then s else Accept(cfg, s, rec))
  {
    var a := AcceptAll(cfg, FreshSink(skip), c.table.records);
    AcceptAllSnoc(cfg, FreshSink(skip), c.table.records, rec);
    AcceptCore(cfg, s, a, rec);
  }

  // ----- the two tables -----

  lemma {:induction false} CollectMeaning(rows: seq<Cells>)
    requires rows != []
    ensures var c, names := Collect(rows), TrimAll(rows[0]);
            var lines := Api.NonBlank(rows);
            && !c.first
            && (Blank(rows[0]) ==>
                  c == Collector(false, None, Api.Table([], 0), if lines == [] then None else Some(NoHeader)))
            && (!Blank(rows[0]) ==> lines != [] && lines[0] == rows[0])
            && (!Blank(rows[0]) && !GoodHeader(names) ==>
                  c == Collector(false, None, Api.Table([], 0), Some(HeaderNames)))
            && (!Blank(rows[0]) && GoodHeader(names) ==>
                  c == Collector(false, Some(names), Api.Tabulate(names, lines[1..]), None))
  {
    var init, row := rows[..|rows| - 1], rows[|rows| - 1];
    if init == [] {
      assert Collect(init) == Collector(true, None, Api.Table([], 0), None);
      assert Api.NonBlank(init) == [];
      if !Blank(row) {
        assert Api.NonBlank(rows)[1..] == [];
      }
    } else {
      CollectMeaning(init);
      var lines, more := Api.NonBlank(init), Api.NonBlank(rows);
      if Blank(row) {
        assert more == lines;
      } else {
        assert more == lines + [row];
        if !Blank(rows[0]) {
          assert more[1..] == lines[1..] + [row];
          assert more[1..][..|more[1..]| - 1] == lines[1..];
        }
      }
    }
  }

  /** All rows of what was lexed, the last one without a line break among them. */
  function AllRows(e: Lexed): seq<Cells> {
    e.rows + LastRow(e.lexer)
  }

  function Collected(c: Collector): Result<Api.Table, Failure> {
    if c.thrown.Some? then Failure(c.thrown.value) else Success(c.table)
  }

  function StreamedOf(e: Lexed): Result<Api.Table, Failure> {
    if e.lexer.Open() then
      var c := Collect(e.rows);
      Collected(c.(table := c.table.(bad := c.table.bad + 1)))
    else Collected(Collect(AllRows(e)))
  }

  /** The table of a whole text in the streaming reader. A text that ends inside a quote counts as a bad row. */
  function Streamed(text: string): Result<Api.Table, Failure> {
    StreamedOf(Lex(START, text))
  }

  /** The same table, or the same complaint about the header. */
  predicate SameTable(streamed: Result<Api.Table, Failure>, oneShot: Result<Api.Table, Api.TableError>) {
    if streamed.Success? then oneShot.Success? && oneShot.value == streamed.value
    else streamed.error.HeaderNames? && oneShot.Failure? && oneShot.error.BadHeader?
  }

  // ----- a leading byte order mark -----

  predicate Returns(text: string) {
    forall i :: 0 <= i < |text| ==> text[i] == '\r'
  }

  /** The first character, carriage returns aside, is a quote. */
  ghost predicate QuoteFirst(text: string) {
    exists i :: 0 <= i < |text| && text[i] == '"' && Returns(text[..i])
  }

  /** A byte order mark right before a quoted field: the streaming reader takes that quote for text. */
  ghost predicate QuotedMark(text: string) {
    text != "" && text[0] == BOM && QuoteFirst(text[1..])
  }

  /** The first cell of a row, and of a table, with the mark in front. */
  function MarkRow(row: Cells): Cells
    requires row != []
  {
    row[0 := [BOM] + row[0]]
  }

  function MarkRows(rows: seq<Cells>): seq<Cells>
    requires rows != [] && rows[0] != []
  {
    rows[0 := MarkRow(rows[0])]
  }

  /**
   How the lexer over the mark and `rest` stands to the one over `rest` alone: only the first cell knows of the mark.
   */
  ghost predicate Ahead(plain: Lexed, marked: Lexed, rest: string) {
    if plain.rows != [] then
      plain.rows[0] != [] && marked == Lexed(plain.lexer, MarkRows(plain.rows))
    else if plain.lexer.row != [] then
      marked == Lexed(plain.lexer.(row := MarkRow(plain.lexer.row)), [])
    else
      && !plain.lexer.inQuotes && !plain.lexer.quotePending && (plain.lexer.field == "" ==> Returns(rest))
      && marked == Lexed(plain.lexer.(field := [BOM] + plain.lexer.field), [])
  }

  function Then(e: Lexed, ch: char): Lexed {
    Lexed(Step(e.lexer, ch).lexer, e.rows + Step(e.lexer, ch).rows)
  }

  lemma MarkSnoc(row: Cells, cell: string)
    ensures MarkRow([cell]) == [[BOM] + cell]
    ensures row != [] ==> MarkRow(row + [cell]) == MarkRow(row) + [cell]
    ensures MarkRows([row + [cell]]) == [MarkRow(row + [cell])]
  {}

  lemma MarkRowsMore(rows: seq<Cells>, more: seq<Cells>)
    requires rows != [] && rows[0] != []
    ensures MarkRows(rows + more) == MarkRows(rows) + more
  {}

  lemma AheadStep(plain: Lexed, marked: Lexed, rest: string, ch: char)
    requires Ahead(plain, marked, rest) && !(Returns(rest) && ch == '"')
    ensures Ahead(Then(plain, ch), Then(marked, ch), rest + [ch])
  {
    if plain.rows != [] {
      MarkRowsMore(plain.rows, Step(plain.lexer, ch).rows);
    } else {
      MarkSnoc(plain.lexer.row, plain.lexer.field);
      assert [BOM] + (plain.lexer.field + [ch]) == [BOM] + plain.lexer.field + [ch];
      assert [] + Step(plain.lexer, ch).rows == Step(plain.lexer, ch).rows;
      assert [] + [plain.lexer.field] == [plain.lexer.field]
        && [] + [[BOM] + plain.lexer.field] == [[BOM] + plain.lexer.field];
    }
  }

  /** A quote that comes first stays first, and the first character after returns may be one. */
  lemma QuoteFirstSnoc(text: string, ch: char)
    ensures QuoteFirst(text) || (Returns(text) && ch == '"') ==> QuoteFirst(text + [ch])
  {
    var more := text + [ch];
    if QuoteFirst(text) {
      var i :| 0 <= i < |text| && text[i] == '"' && Returns(text[..i]);
      assert more[i] == '"' && more[..i] == text[..i];
    } else if Returns(text) && ch == '"' {
      assert more[|text|] == '"' && more[..|text|] == text;
    }
  }

  lemma {:induction false} LexMarked(rest: string)
    requires !QuoteFirst(rest)
    ensures Ahead(Lex(START, rest), Lex(START, [BOM] + rest), rest)
  {
    var text := [BOM] + rest;
    assert text[..|text| - 1] == if rest == "" then "" else [BOM] + rest[..|rest| - 1];
    if rest != "" {
      var init, ch := rest[..|rest| - 1], rest[|rest| - 1];
      assert init + [ch] == rest;
      QuoteFirstSnoc(init, ch);
      LexMarked(init);
      AheadStep(Lex(START, init), Lex(START, [BOM] + init), init, ch);
    }
  }

  /** The rows of a text with a mark are its rows with the mark in front, which is a blank row when there were none. */
  lemma AheadRows(plain: Lexed, marked: Lexed, rest: string)
    requires Ahead(plain, marked, rest)
    ensures marked.lexer.Open() == plain.lexer.Open()
    ensures plain.rows != [] ==> plain.rows[0] != []
    ensures marked.rows == if plain.rows == [] then [] else MarkRows(plain.rows)
    ensures AllRows(plain) != [] ==> AllRows(plain)[0] != []
    ensures AllRows(marked) == if AllRows(plain) == [] then [[[BOM]]] else MarkRows(AllRows(plain))
  {
    if plain.rows != [] {
      MarkRowsMore(plain.rows, LastRow(plain.lexer));
    } else {
      MarkSnoc(plain.lexer.row, plain.lexer.field);
      assert [BOM] + "" == [BOM];
      assert [] + LastRow(plain.lexer) == LastRow(plain.lexer) && [] + LastRow(marked.lexer) == LastRow(marked.lexer);
      assert [] + [plain.lexer.field] == [plain.lexer.field]
        && [] + [[BOM] + plain.lexer.field] == [[BOM] + plain.lexer.field];
    }
  }

  /** Trimming a row does not see the mark. */
  lemma MarkTrimmed(row: Cells)
    requires row != []
    ensures TrimAll(MarkRow(row)) == TrimAll(row) && Blank(MarkRow(row)) == Blank(row)
  {
    var marked := MarkRow(row);
    assert StripBom(marked[0]) == row[0];
    TrimStripsBom(marked[0]);
    forall i | 0 <= i < |row| ensures Trim(marked[i]) == Trim(row[i]) {}
  }

  lemma {:induction false} CollectMarked(rows: seq<Cells>)
    requires rows != [] && rows[0] != []
    ensures Collect(MarkRows(rows)) == Collect(rows)
  {
    var marked := MarkRows(rows);
    if |rows| == 1 {
      MarkTrimmed(rows[0]);
      assert marked[..0] == rows[..0];
    } else {
      CollectMarked(rows[..|rows| - 1]);
      assert marked[..|rows| - 1] == MarkRows(rows[..|rows| - 1]);
    }
  }

  lemma CollectMark()
    ensures Collect([[[BOM]]]) == Collector(false, None, Api.Table([], 0), None)
  {
    assert Trim([BOM]) == "" by {
      TrimStripsBom([BOM]);
    }
    assert Collect([[[BOM]]][..0]) == Collector(true, None, Api.Table([], 0), None);
  }

  lemma OpenMarked(rows: seq<Cells>, marked: seq<Cells>)
    requires rows != [] ==> rows[0] != []
    requires marked == if rows == [] then [] else MarkRows(rows)
    ensures Collect(marked) == Collect(rows)
  {
    if rows != [] { CollectMarked(rows); }
  }

  lemma ClosedMarked(rows: seq<Cells>, marked: seq<Cells>)
    requires rows != [] ==> rows[0] != []
    requires marked == if rows == [] then [[[BOM]]] else MarkRows(rows)
    ensures Collected(Collect(marked)) == Collected(Collect(rows))
  {
    if rows == [] { CollectMark(); } else { CollectMarked(rows); }
  }

  lemma StreamedMarked(plain: Lexed, marked: Lexed, rest: string)
    requires Ahead(plain, marked, rest)
    ensures StreamedOf(marked) == StreamedOf(plain)
  {
    AheadRows(plain, marked, rest);
    if plain.lexer.Open() {
      OpenMarked(plain.rows, marked.rows);
    } else {
      ClosedMarked(AllRows(plain), AllRows(marked));
    }
  }

  /** To the streaming reader a mark that no quote follows is as good as none. */
  lemma MarkIgnored(rest: string)
    requires !QuoteFirst(rest)
    ensures Streamed([BOM] + rest) == Streamed(rest)
  {
    LexMarked(rest);
    StreamedMarked(Lex(START, rest), Lex(START, [BOM] + rest), rest);
  }

  // ----- when the readers agree -----

  /** A text that does not end inside a quote and has a first row, not a blank one. */
  predicate Readable(text: string) {
    !Lex(START, text).lexer.Open() && Rows(text) != [] && !Blank(Rows(text)[0])
  }

  lemma TabledAgree(rows: seq<Cells>)
    ensures SameTable(Collected(Collect(rows)), Api.Tabled(rows)) <==> rows != [] && !Blank(rows[0])
  {
    if rows != [] { CollectMeaning(rows); }
  }

  lemma PlainAgreeExactly(text: string)
    ensures SameTable(Streamed(text), Api.TableOf(text)) <==> Readable(text)
  {
    if !Lex(START, text).lexer.Open() {
      TabledAgree(Rows(text));
    }
  }

  /**
   The readers agree on a text, unless a byte order mark stands right before a quote in it, exactly when what is left
   without the mark does not end inside a quote and its first row is there and not blank. Otherwise the one refuses what
   the other counts as a bad row, or the other finds no header.
   */
  lemma AgreeExactly(text: string)
    requires !QuotedMark(text)
    ensures SameTable(Streamed(text), Api.OneShot(text)) <==> Readable(StripBom(text))
  {
    PlainAgreeExactly(StripBom(text));
    if StripBom(text) != text {
      assert text == [BOM] + StripBom(text);
      MarkIgnored(StripBom(text));
    }
  }

  /** What the streaming reader collects of a readable text is what it would without the mark. */
  lemma FinishedAs(text: string)
    requires !QuotedMark(text) && Readable(StripBom(text))
    ensures !Lex(START, text).lexer.Open() && Collect(Rows(text)) == Collect(Rows(StripBom(text)))
  {
    var rest := StripBom(text);
    if rest != text {
      assert text == [BOM] + rest;
      LexMarked(rest);
      AheadRows(Lex(START, rest), Lex(START, text), rest);
      CollectMarked(Rows(rest));
    }
  }

  // ----- a mark before a quote -----

  /** How many quotes a text begins with. */
  function Quotes(s: string): (n: nat)
    ensures n <= |s|
  {
    if s == "" then 0
    else
      var n := Quotes(s[..|s| - 1]);
      if n == |s| - 1 && s[|s| - 1] == '"' then |s| else n
  }

  predicate Quoted(name: string) {
    name != "" && name[0] == '"'
  }

  lemma QuotesSnoc(s: string, ch: char)
    ensures Quotes(s + [ch]) == if Quotes(s) == |s| && ch == '"' then |s| + 1 else Quotes(s)
  {
    assert (s + [ch])[..|s|] == s;
  }

  lemma {:induction false} QuotedHasQuotes(s: string)
    ensures Quotes(s) > 0 <==> Quoted(s)
  {
    if |s| > 1 {
      QuotedHasQuotes(s[..|s| - 1]);
    }
  }

  lemma {:induction false} TrimEndQuotes(s: string)
    ensures Quotes(TrimEnd(s)) == Quotes(s)
    decreases |s|
  {
    if s != "" && IsSpace(s[|s| - 1]) {
      TrimEndQuotes(s[..|s| - 1]);
    }
  }

  lemma TrimQuotes(s: string)
    requires Quoted(s)
    ensures Quotes(Trim(s)) == Quotes(s)
  {
    TrimEndQuotes(s);
  }

  /** What a lexer holds of the first cell of the first row, whole or not. */
  function FirstCell(e: Lexed): string {
    var row := if e.rows != [] then e.rows[0] else e.lexer.row + [e.lexer.field];
    if row == [] then "" else row[0]
  }

  /** That cell is still under way. */
  predicate InFirst(e: Lexed) {
    e.rows == [] && e.lexer.row == []
  }

  /**
   To the lexer that took a mark and then the quote for text every quote is text, so its first cell begins with more of
   them than the other's, of which one opens the field and then two make one.
   */
  ghost predicate Outquotes(plain: Lexed, marked: Lexed) {
    var cell, more := FirstCell(plain), FirstCell(marked);
    && more != "" && more[0] == BOM && Quotes(cell) < Quotes(more[1..])
    && (InFirst(plain) && Quotes(cell) == |cell| ==>
          && InFirst(marked) && Quotes(more[1..]) == |more| - 1
          && !marked.lexer.inQuotes && !marked.lexer.quotePending)
  }

  /** A character ends the first cell, leaves it, or is added to it. */
  lemma FirstThen(e: Lexed, ch: char)
    ensures var f := Then(e, ch);
            if InFirst(e) && InFirst(f) then
              FirstCell(f) == FirstCell(e) || FirstCell(f) == FirstCell(e) + [ch]
            else FirstCell(f) == FirstCell(e) && !InFirst(f)
  {}

  lemma QuotesThen(e: Lexed, ch: char)
    ensures Quotes(FirstCell(Then(e, ch))) >= Quotes(FirstCell(e))
    ensures Quotes(FirstCell(e)) < |FirstCell(e)| ==> Quotes(FirstCell(Then(e, ch))) == Quotes(FirstCell(e))
  {
    FirstThen(e, ch);
    QuotesSnoc(FirstCell(e), ch);
  }

  lemma MarkedThen(e: Lexed, ch: char)
    requires FirstCell(e) != "" && FirstCell(e)[0] == BOM
    ensures var cell, more := FirstCell(e), FirstCell(Then(e, ch));
            more != "" && more[0] == BOM && Quotes(more[1..]) >= Quotes(cell[1..])
  {
    FirstThen(e, ch);
    var cell := FirstCell(e);
    QuotesSnoc(cell[1..], ch);
    assert (cell + [ch])[1..] == cell[1..] + [ch];
  }

  lemma OutquotesThen(plain: Lexed, marked: Lexed, ch: char)
    requires Outquotes(plain, marked)
    ensures Outquotes(Then(plain, ch), Then(marked, ch))
  {
    FirstThen(plain, ch);
    QuotesThen(plain, ch);
    MarkedThen(marked, ch);
    if InFirst(plain) && Quotes(FirstCell(plain)) == |FirstCell(plain)| {
      OnlyQuotesThen(plain, marked, ch);
    }
  }

  /** So far both first cells are quotes only. */
  ghost predicate OnlyQuotes(p: Lexer, m: Lexer) {
    && p.row == [] && m.row == [] && !m.inQuotes && !m.quotePending
    && m.field != "" && m.field[0] == BOM && Quotes(m.field[1..]) == |m.field| - 1
    && Quotes(p.field) == |p.field| < |m.field| - 1
  }

  lemma OnlyQuotesThen(plain: Lexed, marked: Lexed, ch: char)
    requires Outquotes(plain, marked) && InFirst(plain) && Quotes(FirstCell(plain)) == |FirstCell(plain)|
    ensures Outquotes(Then(plain, ch), Then(marked, ch))
  {
    var p, m := plain.lexer, marked.lexer;
    assert OnlyQuotes(p, m);
    if ch == '"' {
      QuoteSteps(p, m);
    } else if ch == '\r' {
      ReturnSteps(p, m);
    } else {
      OtherSteps(p, m, ch);
    }
    assert [] + Step(p, ch).rows == Step(p, ch).rows && [] + Step(m, ch).rows == Step(m, ch).rows;
  }

  lemma QuoteSteps(p: Lexer, m: Lexer)
    requires OnlyQuotes(p, m)
    ensures Outquotes(Step(p, '"'), Step(m, '"'))
  {
    var e := Step(p, '"');
    QuotesSnoc(p.field, '"');
    assert InFirst(e) && Quotes(e.lexer.field) == |e.lexer.field| <= |p.field| + 1;
    MarkedSteps(m, '"');
  }

  lemma MarkedSteps(m: Lexer, ch: char)
    requires m.field != "" && m.field[0] == BOM && Quotes(m.field[1..]) == |m.field| - 1
    requires m.row == [] && !m.inQuotes && !m.quotePending
    ensures var more := FirstCell(Step(m, ch));
            && more != "" && more[0] == BOM && Quotes(more[1..]) >= |m.field| - 1
            && (ch == '"' ==>
                  Step(m, ch) == Lexed(m.(field := more), []) && Quotes(more[1..]) == |more| - 1 == |m.field|)
  {
    QuotesSnoc(m.field[1..], ch);
    assert (m.field + [ch])[1..] == m.field[1..] + [ch];
  }

  lemma ReturnSteps(p: Lexer, m: Lexer)
    requires OnlyQuotes(p, m)
    ensures Outquotes(Step(p, '\r'), Step(m, '\r'))
  {
    QuotesSnoc(p.field, '\r');
  }

  lemma OtherSteps(p: Lexer, m: Lexer, ch: char)
    requires OnlyQuotes(p, m) && ch != '"' && ch != '\r'
    ensures Outquotes(Step(p, ch), Step(m, ch))
  {
    var e := Step(p, ch);
    QuotesSnoc(p.field, ch);
    assert Quotes(FirstCell(e)) == |p.field| && (InFirst(e) ==> FirstCell(e) == p.field + [ch]);
    MarkedSteps(m, ch);
  }

  lemma {:induction false} OutquotesStays(p: Lexer, m: Lexer, text: string)
    requires Outquotes(Lexed(p, []), Lexed(m, []))
    ensures Outquotes(Lex(p, text), Lex(m, text))
  {
    if text != "" {
      OutquotesStays(p, m, text[..|text| - 1]);
      OutquotesThen(Lex(p, text[..|text| - 1]), Lex(m, text[..|text| - 1]), text[|text| - 1]);
    }
  }

  lemma {:induction false} LexReturns(s: Lexer, text: string)
    requires Returns(text) && !s.inQuotes && !s.quotePending
    ensures Lex(s, text) == Lexed(s, [])
  {
    if text != "" {
      LexReturns(s, text[..|text| - 1]);
    }
  }

  /** Past the first quote: bare, it opens the field; under the mark, it is text. */
  const QUOTE_OPENED := Lexer("", [], true, false)
  const QUOTE_TAKEN := Lexer([BOM] + ['"'], [], false, false)

  lemma LexToQuote(s: Lexer, t: Lexer, blanks: string, after: string)
    requires Returns(blanks) && !s.inQuotes && !s.quotePending && Step(s, '"') == Lexed(t, [])
    ensures Lex(s, blanks + (['"'] + after)) == Lex(t, after)
  {
    LexReturns(s, blanks);
    LexPast(s, s, blanks, ['"'] + after);
    LexOne(s, '"');
    LexPast(s, t, ['"'], after);
  }

  lemma LexPastQuote(blanks: string, after: string)
    requires Returns(blanks)
    ensures var rest := blanks + (['"'] + after);
            Lex(START, rest) == Lex(QUOTE_OPENED, after) && Lex(START, [BOM] + rest) == Lex(QUOTE_TAKEN, after)
  {
    var atMark := Lexer([BOM], [], false, false);
    LexOne(START, BOM);
    LexPast(START, atMark, [BOM], blanks + (['"'] + after));
    LexToQuote(START, QUOTE_OPENED, blanks, after);
    LexToQuote(atMark, QUOTE_TAKEN, blanks, after);
  }

  lemma PastQuoteOutquotes(blanks: string, after: string)
    requires Returns(blanks)
    ensures var rest := blanks + (['"'] + after);
            Outquotes(Lex(START, rest), Lex(START, [BOM] + rest))
  {
    LexPastQuote(blanks, after);
    assert Outquotes(Lexed(QUOTE_OPENED, []), Lexed(QUOTE_TAKEN, [])) by {
      assert ([BOM] + ['"'])[1..] == ['"'] == "" + ['"'];
      QuotesSnoc("", '"');
    }
    OutquotesStays(QUOTE_OPENED, QUOTE_TAKEN, after);
  }

  lemma QuotedMarkOutquotes(text: string)
    requires QuotedMark(text)
    ensures Outquotes(Lex(START, text[1..]), Lex(START, text))
  {
    var rest := text[1..];
    var i :| 0 <= i < |rest| && rest[i] == '"' && Returns(rest[..i]);
    assert rest == rest[..i] + (['"'] + rest[i + 1..]) && text == [BOM] + rest;
    PastQuoteOutquotes(rest[..i], rest[i + 1..]);
  }

  // ----- the names of the columns -----

  /** The names in the first row that is not blank. */
  function NamesOf(rows: seq<Cells>): Cells {
    if Api.NonBlank(rows) == [] then [] else TrimAll(Api.NonBlank(rows)[0])
  }

  /** The streaming reader's names, once it has taken its header. */
  function StreamedNames(text: string): Option<Cells> {
    var e := Lex(START, text);
    Collect(if e.lexer.Open() then e.rows else AllRows(e)).header
  }

  /** The whole-body reader's. */
  function OneShotNames(text: string): Cells {
    NamesOf(Rows(StripBom(text)))
  }

  /** The same table, and if it is one the same names. */
  predicate SameNamed(text: string) {
    && SameTable(Streamed(text), Api.OneShot(text))
    && (Api.OneShot(text).Success? ==> StreamedNames(text) == Some(OneShotNames(text)))
  }

  /** The first name, if it begins with a quote, does so before white space is trimmed, and in the first row. */
  predicate PlainlyNamed(text: string) {
    OneShotNames(text) != [] && Quoted(OneShotNames(text)[0]) ==> Quoted(FirstCell(Lex(START, StripBom(text))))
  }

  lemma FirstOfAll(e: Lexed)
    requires FirstCell(e) != ""
    ensures AllRows(e) != [] && AllRows(e)[0] != [] && AllRows(e)[0][0] == FirstCell(e)
    ensures e.rows != [] ==> e.rows[0] != [] && e.rows[0][0] == FirstCell(e)
  {}

  /** Under a mark right before a quote the streaming reader's first name begins with all those quotes. */
  lemma StreamedQuotes(e: Lexed, rows: seq<Cells>)
    requires FirstCell(e) != "" && FirstCell(e)[0] == BOM && Quotes(FirstCell(e)[1..]) > 0
    requires rows == if e.lexer.Open() then e.rows else AllRows(e)
    requires Collect(rows).header.Some?
    ensures var names := Collect(rows).header.value;
            names != [] && Quotes(names[0]) == Quotes(FirstCell(e)[1..]) && Quoted(names[0])
  {
    var cell := FirstCell(e);
    FirstOfAll(e);
    CollectMeaning(rows);
    assert Quoted(cell[1..]) by { QuotedHasQuotes(cell[1..]); }
    TrimQuotes(cell[1..]);
    assert Trim(cell) == Trim(cell[1..]) by {
      assert StripBom(cell) == cell[1..];
      TrimStripsBom(cell);
    }
    QuotedHasQuotes(Trim(cell));
  }

  /** A first cell that begins with quotes gives the first name just those. */
  lemma PlainQuotes(e: Lexed)
    requires Quoted(FirstCell(e))
    ensures NamesOf(AllRows(e)) != [] && Quotes(NamesOf(AllRows(e))[0]) == Quotes(FirstCell(e))
  {
    FirstOfAll(e);
    var cell, rows := FirstCell(e), AllRows(e);
    TrimQuotes(cell);
    QuotedHasQuotes(cell);
    CollectMeaning(rows);
  }

  /** So the two names differ. */
  lemma QuotedMarkNames(text: string)
    requires QuotedMark(text) && PlainlyNamed(text) && StreamedNames(text).Some?
    ensures StreamedNames(text).value != []
    ensures OneShotNames(text) != [] ==> StreamedNames(text).value[0] != OneShotNames(text)[0]
  {
    var plain, marked := Lex(START, StripBom(text)), Lex(START, text);
    assert StripBom(text) == text[1..];
    QuotedMarkOutquotes(text);
    StreamedQuotes(marked, if marked.lexer.Open() then marked.rows else AllRows(marked));
    if Quoted(FirstCell(plain)) { PlainQuotes(plain); }
  }

  /** Where the readers agree on the table of a text without such a mark, they agree on the names. */
  lemma NamesAgree(text: string)
    requires !QuotedMark(text) && Readable(StripBom(text)) && Api.OneShot(text).Success?
    ensures StreamedNames(text) == Some(OneShotNames(text))
  {
    FinishedAs(text);
    CollectMeaning(Rows(StripBom(text)));
  }

  /**
   The readers find the same table under the same names exactly when no byte order mark stands right before a quote, the
   text does not end inside a quote, and its first row is there and not blank: for every text with or without records
   whose header the whole-body reader does not refuse, unless its first name begins with a quote only once white space,
   or a blank row before it, is gone.
   */
  lemma AgreeOnNames(text: string)
    requires Api.OneShot(text).Failure? ==> !Api.OneShot(text).error.BadHeader?
    requires PlainlyNamed(text)
    ensures SameNamed(text) <==> !QuotedMark(text) && Readable(StripBom(text))
  {
    if !QuotedMark(text) {
      AgreeExactly(text);
      if Readable(StripBom(text)) && Api.OneShot(text).Success? { NamesAgree(text); }
    } else if SameNamed(text) {
      QuotedMarkNames(text);
      assert false;
    }
  }

  /** The key of the first column, as the first record states it. */
  function FirstKey(t: Api.Table): Option<string> {
    if t.records != [] && t.records[0].JObject? && t.records[0].members != [] then Some(t.records[0].members[0].0)
      else None
  }

  lemma {:induction false} TabulateKeys(names: Cells, rows: seq<Cells>)
    requires Api.Tabulate(names, rows).records != []
    ensures FirstKey(Api.Tabulate(names, rows)) == if names == [] then None else Some(names[0])
  {
    if Api.Tabulate(names, rows[..|rows| - 1]).records != [] {
      TabulateKeys(names, rows[..|rows| - 1]);
    }
  }

  lemma OneShotKey(text: string)
    requires Api.OneShot(text).Success? && FirstKey(Api.OneShot(text).value).Some?
    ensures OneShotNames(text) != [] && FirstKey(Api.OneShot(text).value) == Some(OneShotNames(text)[0])
  {
    TabulateKeys(OneShotNames(text), Api.NonBlank(Rows(StripBom(text)))[1..]);
  }

  lemma StreamedKey(text: string)
    requires Streamed(text).Success? && FirstKey(Streamed(text).value).Some?
    ensures StreamedNames(text).Some? && StreamedNames(text).value != []
    ensures FirstKey(Streamed(text).value) == Some(StreamedNames(text).value[0])
  {
    var e := Lex(START, text);
    var rows := if e.lexer.Open() then e.rows else AllRows(e);
    CollectMeaning(rows);
    TabulateKeys(TrimAll(rows[0]), Api.NonBlank(rows)[1..]);
  }

  /** Where there are records, they show it: the tables alone agree exactly then. */
  lemma AgreeOnRecords(text: string)
    requires Api.OneShot(text).Success? && FirstKey(Api.OneShot(text).value).Some? && PlainlyNamed(text)
    ensures SameTable(Streamed(text), Api.OneShot(text)) <==> !QuotedMark(text) && Readable(StripBom(text))
  {
    if !QuotedMark(text) {
      AgreeExactly(text);
    } else if SameTable(Streamed(text), Api.OneShot(text)) {
      OneShotKey(text);
      StreamedKey(text);
      QuotedMarkNames(text);
      assert false;
    }
  }

  lemma PrintedNames(names: Cells, rows: seq<Cells>, eol: string)
    requires Api.Printable(names, rows) && LineBreak(eol) && !Quoted(names[0])
    ensures PlainlyNamed([BOM] + PrintRows([names] + rows, eol))
  {
    var text := PrintRows([names] + rows, eol);
    assert StripBom([BOM] + text) == text;
    Api.PrintedLex(names, rows, eol);
    Api.NonBlankCons(names, rows);
    Api.TrimAllTrimmed(names);
    assert !Blank(names) by { TrimTrimmed(names[0]); }
    assert OneShotNames([BOM] + text) == names;
  }

  lemma PrintedAgrees(names: Cells, rows: seq<Cells>, eol: string)
    requires Api.Printable(names, rows) && LineBreak(eol)
    ensures var text := PrintRows([names] + rows, eol);
            && text != "" && text[0] == '"' && StripBom(text) == text
            && SameTable(Streamed(text), Api.OneShot(text))
  {
    var text := PrintRows([names] + rows, eol);
    Api.PrintedLex(names, rows, eol);
    Api.PrintedRowsQuote([names] + rows, eol);
    assert !Blank(names) by { TrimTrimmed(names[0]); }
    AgreeExactly(text);
  }

  lemma PrintedKey(names: Cells, rows: seq<Cells>, eol: string)
    requires Api.Printable(names, rows) && LineBreak(eol) && Api.NonBlank(rows) != []
    ensures var read := Api.OneShot(PrintRows([names] + rows, eol));
            read.Success? && FirstKey(read.value).Some?
  {
    Api.CsvRoundTrip(names, rows, eol);
    assert FirstKey(Api.Table(Api.RecordsOf(names, Api.NonBlank(rows)), 0)) == Some(names[0]);
  }

  lemma MarkedQuote(text: string)
    requires text != "" && text[0] == '"'
    ensures StripBom([BOM] + text) == text && QuotedMark([BOM] + text)
  {
    var rest := ([BOM] + text)[1..];
    assert rest == text && Returns(rest[..0]);
  }

  /**
   So every table printed with all its fields quoted, header and at least one row that is not blank, is read alike
   without a mark, and with one as it should be by the whole-body reader only.
   */
  lemma PrintedMarkDiffers(names: Cells, rows: seq<Cells>, eol: string)
    requires Api.Printable(names, rows) && LineBreak(eol) && !Quoted(names[0]) && Api.NonBlank(rows) != []
    ensures var text := PrintRows([names] + rows, eol);
            && SameTable(Streamed(text), Api.OneShot(text))
            && Api.OneShot([BOM] + text) == Api.OneShot(text)
            && !SameTable(Streamed([BOM] + text), Api.OneShot([BOM] + text))
  {
    var text := PrintRows([names] + rows, eol);
    PrintedAgrees(names, rows, eol);
    PrintedKey(names, rows, eol);
    PrintedNames(names, rows, eol);
    MarkedQuote(text);
    AgreeOnRecords([BOM] + text);
  }

  // ----- the two lists of items -----

  lemma FinishedRows(cfg: Config, skip: nat, text: string)
    requires cfg.format.Csv? && !Lex(START, text).lexer.Open()
    ensures Finish(cfg, Read(cfg, Initial(skip), text)) == TakeRows(cfg, FreshSink(skip), Rows(text))
  {
    ReadIsRows(cfg, skip, text);
    var e := Lex(START, text);
    var last := LastRow(e.lexer);
    if last == [] {
      assert Rows(text) == e.rows;
    } else {
      assert Rows(text)[..|e.rows|] == e.rows;
    }
  }

  /**
   Streaming CSV refines one-shot CSV: where the readers agree on the table, the stream takes its records in order, as
   many as the skipped rows and the row limit leave; uncut, it also counts the rows of a wrong width.
   */
  lemma StreamRefinesTable(cfg: Config, skip: nat, text: string)
    requires cfg.format.Csv? && cfg.limit >= 1 && !QuotedMark(text) && Readable(StripBom(text))
    ensures Api.OneShot(text).Success? <==> Reading(cfg, skip, text).parsed.Success?
    ensures Api.OneShot(text).Success? ==>
              var a, p := AcceptAll(cfg, FreshSink(skip), Api.OneShot(text).value.records),
                Reading(cfg, skip, text).parsed.value;
              && p.items == a.items && p.rows == a.rows && p.scanned == a.scanned && p.capped == a.stopped
              && (!p.capped ==> p.skipped == a.skipped + Api.OneShot(text).value.bad)
  {
    FinishedAs(text);
    FinishedRows(cfg, skip, text);
    RowsFeed(cfg, skip, Rows(text));
    CollectMeaning(Rows(StripBom(text)));
  }

  /**
   The same fields read both ways: the whole-body mapping of a record alone, with no condition, duplicates kept first.
   */
  function WholeBody(cfg: Config): Api.Endpoint {
    Api.Endpoint(Api.ArrayShape, false, e => true,
      (e: Api.Entry, k: Option<nat>) => if k.Some? && e.value.JObject? then cfg.mapRecord(e.value, k.value) else None)
  }

  function Entries(records: seq<Json>): seq<Api.Entry> {
    seq(|records|, i requires 0 <= i < |records| => Api.Entry(None, records[i]))
  }

  lemma {:induction false} MappedIsStated(cfg: Config, records: seq<Json>)
    ensures Api.Stated(WholeBody(cfg), Entries(records)) == Mapped(cfg, records)
  {
    if records != [] {
      assert Entries(records)[..|records| - 1] == Entries(records[..|records| - 1]);
      MappedIsStated(cfg, records[..|records| - 1]);
    }
  }

  /** Stopping at the limit loses nothing: what is accepted is what the whole list would keep. */
  lemma AcceptKeeps(cfg: Config, records: seq<Json>)
    requires cfg.limit >= 1
    ensures Keeps(AcceptAll(cfg, FreshSink(0), records).items, Mapped(cfg, records), cfg.limit, false)
  {
    AcceptMeaning(cfg, 0, records);
    var a := AcceptAll(cfg, FreshSink(0), records);
    var some, all := Mapped(cfg, records[..a.scanned]), Mapped(cfg, records);
    assert Taken(0, a, records) == records[..a.scanned];
    if a.stopped {
      MappedPrefix(cfg, records, a.scanned);
      KeepsStable(a.items, some, all[|some|..], cfg.limit);
      assert some + all[|some|..] == all;
    } else {
      assert records[..a.scanned] == records;
    }
  }

  /** A stream that starts at the first row and the whole-body reader with the same limit keep the same items. */
  lemma SameItems(cfg: Config, text: string, items: seq<Item>)
    requires cfg.format.Csv? && cfg.limit >= 1 && !QuotedMark(text) && Readable(StripBom(text))
    requires Api.OneShot(text).Success?
    requires Keeps(items, Api.Stated(WholeBody(cfg), Entries(Api.OneShot(text).value.records)), cfg.limit, false)
    ensures Reading(cfg, 0, text).parsed.Success? && Reading(cfg, 0, text).parsed.value.items == items
  {
    var records := Api.OneShot(text).value.records;
    StreamRefinesTable(cfg, 0, text);
    MappedIsStated(cfg, records);
    AcceptKeeps(cfg, records);
    KeepsUnique(AcceptAll(cfg, FreshSink(0), records).items, items, Mapped(cfg, records), cfg.limit, false);
  }

  lemma {:induction false} MappedPrefix(cfg: Config, records: seq<Json>, n: nat)
    requires n <= |records|
    ensures Mapped(cfg, records[..n]) <= Mapped(cfg, records)
  {
    if n == |records| {
      assert records[..n] == records;
    } else {
      assert records[..|records| - 1][..n] == records[..n];
      MappedPrefix(cfg, records[..|records| - 1], n);
    }
  }
}
