/**
 Concrete texts with a byte order mark right before a quote: the plainest, on which the two CSV readers differ, and two
 on which they nonetheless agree, so that what the agreement theorems ask for is needed.
 */
module CsvMarks {
  import opened Basics
  import opened CsvLexer
  import opened CsvAgreement
  import Api = ApiParser
  import Bulk = BulkParser

  // ----- lexing by hand -----

  lemma {:induction false} LexWord(s: Lexer, word: string)
    requires !s.inQuotes && !s.quotePending
    requires forall i :: 0 <= i < |word| ==> word[i] !in {',', '\n', '\r'} && (word[i] == '"' ==> s.field != "")
    ensures Lex(s, word) == Lexed(s.(field := s.field + word), [])
  {
    if word == "" {
      assert s.field + word == s.field;
    } else {
      var init, ch := word[..|word| - 1], word[|word| - 1];
      LexWord(s, init);
      assert s.field + word == s.field + init + [ch];
    }
  }

  lemma LexComma(s: Lexer, text: string, cell: string, row: Cells)
    requires Lex(s, text) == Lexed(Lexer(cell, row, false, false), [])
    ensures Lex(s, text + ",") == Lexed(Lexer("", row + [cell], false, false), [])
  {
    LexPast(s, Lexer(cell, row, false, false), text, ",");
    LexOne(Lexer(cell, row, false, false), ',');
  }

  lemma LexEnd(s: Lexer, text: string, cell: string, row: Cells)
    requires Lex(s, text) == Lexed(Lexer(cell, row, false, false), [])
    ensures Lex(s, text + "\n") == Lexed(START, [row + [cell]])
  {
    LexPast(s, Lexer(cell, row, false, false), text, "\n");
    LexOne(Lexer(cell, row, false, false), '\n');
  }

  lemma LexNext(s: Lexer, text: string, row: Cells, word: string)
    requires Lex(s, text) == Lexed(Lexer("", row, false, false), [])
    requires forall i :: 0 <= i < |word| ==> word[i] !in {',', '\n', '\r', '"'}
    ensures Lex(s, text + word) == Lexed(Lexer(word, row, false, false), [])
  {
    LexPast(s, Lexer("", row, false, false), text, word);
    LexWord(Lexer("", row, false, false), word);
    assert "" + word == word;
  }

  // ----- a quoted header -----

  const VALUES := "1" + "," + "2" + "\n"

  lemma LexValues()
    ensures Lex(START, VALUES) == Lexed(START, [["1", "2"]])
  {
    LexWord(START, "1");
    assert "" + "1" == "1" && [] + ["1"] == ["1"] && ["1"] + ["2"] == ["1", "2"];
    LexComma(START, "1", "1", []);
    LexNext(START, "1" + ",", ["1"], "2");
    LexEnd(START, "1" + "," + "2", "2", ["1"]);
  }

  const QUOTED_A := ['"', 'a', '"']
  const QUOTED_B := ['"', 'b', '"']
  const HEADER := QUOTED_A + "," + QUOTED_B

  lemma PrintOne(ch: char)
    requires ch != '"'
    ensures PrintCell([ch]) == ['"', ch, '"']
  {
    assert [ch][..0] == "";
    assert Doubled([ch]) == [ch];
  }

  lemma LexHeaderCells()
    ensures Lex(START, HEADER) == Lexed(Lexer("b", ["a"], true, true), [])
  {
    var cells := ["a", "b"];
    assert cells[..1] == ["a"];
    PrintOne('a');
    PrintOne('b');
    assert PrintCells(cells[..1]) == QUOTED_A;
    assert PrintCells(cells) == HEADER;
    LexCells(cells);
  }

  lemma LexHeaderEnds(text: string, cell: string)
    requires Lex(START, text) == Lexed(Lexer("b", [cell], true, true), [])
    ensures Lex(START, text + "\n") == Lexed(START, [[cell, "b"]])
  {
    LexPast(START, Lexer("b", [cell], true, true), text, "\n");
    LexBreak(Lexer("b", [cell], true, true), "\n");
    assert [cell] + ["b"] == [cell, "b"];
  }

  lemma LexMarkedFirst()
    ensures Lex(START, [BOM] + QUOTED_A + ",") == Lexed(Lexer("", [[BOM] + QUOTED_A], false, false), [])
  {
    LexOne(START, BOM);
    LexPast(START, Lexer([BOM], [], false, false), [BOM], QUOTED_A);
    LexWord(Lexer([BOM], [], false, false), QUOTED_A);
    LexComma(START, [BOM] + QUOTED_A, [BOM] + QUOTED_A, []);
  }

  lemma LexMarkedCells()
    ensures Lex(START, [BOM] + HEADER) == Lexed(Lexer("b", [[BOM] + QUOTED_A], true, true), [])
  {
    var row := [[BOM] + QUOTED_A];
    LexMarkedFirst();
    PrintOne('b');
    LexPast(START, Lexer("", row, false, false), [BOM] + QUOTED_A + ",", PrintCell("b"));
    LexCell(row, "b");
    assert [BOM] + QUOTED_A + "," + QUOTED_B == [BOM] + HEADER;
  }

  lemma TwoLines(header: Cells, values: Cells)
    requires |header| == 2 && |values| == 2
    ensures Api.NonBlank([header, values]) == [header, values] && [header, values][1..] == [values]
  {
    var rows := [header, values];
    assert rows[..1] == [header] && [header][..0] == [];
    assert Api.NonBlank([header]) == [header];
  }

  function OneTwo(a: string, b: string): Api.Table {
    Api.Table([JObject([(a, JString("1")), (b, JString("2"))])], 0)
  }

  lemma TabulateOneTwo(names: Cells)
    requires |names| == 2
    ensures Api.Tabulate(names, [["1", "2"]]) == OneTwo(names[0], names[1])
  {
    var values := ["1", "2"];
    assert [values][..0] == [];
    TrimTrimmed("1");
    TrimTrimmed("2");
    assert Record(names, values) == JObject([(names[0], JString("1")), (names[1], JString("2"))]);
  }

  lemma RowsOneTwo(header: Cells, names: Cells)
    requires |header| == 2 && names == TrimAll(header) && GoodHeader(names)
    ensures Collected(Collect([header, ["1", "2"]])) == Success(OneTwo(names[0], names[1]))
    ensures Api.Tabled([header, ["1", "2"]]) == Success(OneTwo(names[0], names[1]))
  {
    TwoLines(header, ["1", "2"]);
    CollectMeaning([header, ["1", "2"]]);
    TabulateOneTwo(names);
  }

  /** Both readers on a header of two names and one row of two values. */
  lemma OneRecord(text: string, header: Cells, names: Cells)
    requires |header| == 2 && names == TrimAll(header) && GoodHeader(names)
    requires Lex(START, text) == Lexed(START, [header, ["1", "2"]])
    ensures Streamed(text) == Success(OneTwo(names[0], names[1]))
            && Api.TableOf(text) == Success(OneTwo(names[0], names[1]))
  {
    AppendNothing([header, ["1", "2"]]);
    RowsOneTwo(header, names);
  }

  lemma PlainRecord()
    ensures Api.TableOf(HEADER + "\n" + VALUES)
         == Success(OneTwo("a", "b"))
  {
    LexValues();
    LexHeaderCells();
    LexHeaderEnds(HEADER, "a");
    LexMore(HEADER + "\n", [["a", "b"]], VALUES, ["1", "2"]);
    TrimTrimmed("a");
    TrimTrimmed("b");
    OneRecord(HEADER + "\n" + VALUES, ["a", "b"], ["a", "b"]);
  }

  lemma MarkedRecord()
    ensures Streamed([BOM] + HEADER + "\n" + VALUES)
         == Success(OneTwo(QUOTED_A, "b"))
  {
    var header := [[BOM] + QUOTED_A, "b"];
    LexValues();
    LexMarkedCells();
    LexHeaderEnds([BOM] + HEADER, [BOM] + QUOTED_A);
    LexMore([BOM] + HEADER + "\n", [header], VALUES, ["1", "2"]);
    TrimTrimmed("b");
    assert Trim(header[0]) == QUOTED_A by {
      assert StripBom(header[0]) == QUOTED_A;
      TrimStripsBom(header[0]);
      TrimTrimmed(QUOTED_A);
    }
    OneRecord([BOM] + HEADER + "\n" + VALUES, header, [QUOTED_A, "b"]);
  }

  /**
   The plainest such text, `"a","b"` over `1,2`: both readers take it, and call its first column by different names.
   */
  lemma QuotedHeaderUnderMark()
    ensures var text := [BOM] + HEADER + "\n" + VALUES;
            && Api.OneShot(text) == Success(OneTwo("a", "b"))
            && Streamed(text) == Success(OneTwo(QUOTED_A, "b"))
  {
    assert StripBom([BOM] + HEADER + "\n" + VALUES) == HEADER + "\n" + VALUES;
    PlainRecord();
    MarkedRecord();
  }

  // ----- a mark before a quote that changes nothing -----

  /**
   Three quotes and a line break: the end of a field that holds one quote more, or the start of a field that holds a
   quote and the break.
   */
  const TRIPLE := ['"', '"', '"', '\n']

  /** A cell of a quote, a break and a quote, and the line it is printed as. */
  const FIELD := ['"', '\n', '"']
  const LINE := TRIPLE + TRIPLE

  /** A row of two, with a quote in the first: too wide. */
  const WIDE := ("x" + ['"']) + "," + "z" + "\n"

  /** The text: its first field holds a break and a quote, or, under a mark, ends at the break. */
  const BROKEN := ['"', '\n'] + LINE + (TRIPLE + WIDE)

  lemma LexField(cell: string)
    ensures Lex(START, PrintCell(cell) + "\n") == Lexed(START, [[cell]])
  {
    assert PrintCells([cell]) == PrintCell(cell);
    LexLine([cell], "\n");
  }

  lemma DoubledMore(cell: string, ch: char)
    ensures Doubled(cell + [ch]) == Doubled(cell) + DoubledOne(ch)
  {
    assert (cell + [ch])[..|cell|] == cell;
  }

  lemma DoubledQuote()
    ensures Doubled(['"']) == ['"', '"'] && Doubled(['"', '\n']) == ['"', '"', '\n']
  {
    DoubledMore("", '"');
    DoubledMore(['"'], '\n');
    assert "" + ['"'] == ['"'] && ['"'] + ['\n'] == ['"', '\n'];
    assert Doubled(['"']) + DoubledOne('\n') == ['"', '"', '\n'];
  }

  lemma PrintFirst()
    ensures PrintCell(['\n', '"']) + "\n" == ['"', '\n'] + TRIPLE
  {
    DoubledMore("", '\n');
    DoubledMore(['\n'], '"');
    assert "" + ['\n'] == ['\n'] && ['\n'] + ['"'] == ['\n', '"'];
    assert Doubled(['\n', '"']) == ['\n', '"', '"'];
  }

  lemma PrintField()
    ensures PrintCell(FIELD) + "\n" == LINE
  {
    DoubledQuote();
    DoubledMore(['"', '\n'], '"');
    assert ['"', '\n'] + ['"'] == FIELD;
    assert Doubled(FIELD) == ['"', '"', '\n', '"', '"'];
  }

  lemma PrintWide()
    ensures PrintCell(['"', '\n', 'x']) == TRIPLE + ("x" + ['"'])
  {
    DoubledQuote();
    DoubledMore(['"', '\n'], 'x');
    assert ['"', '\n'] + ['x'] == ['"', '\n', 'x'];
    assert Doubled(['"', '\n', 'x']) == ['"', '"', '\n', 'x'];
  }

  lemma LexWide(cell: string, text: string)
    requires Lex(START, text) == Lexed(Lexer(cell, [], false, false), [])
          || Lex(START, text) == Lexed(Lexer(cell, [], true, true), [])
    ensures Lex(START, text + "," + "z" + "\n") == Lexed(START, [[cell, "z"]])
  {
    var s := Lex(START, text).lexer;
    LexPast(START, s, text, ",");
    LexOne(s, ',');
    assert [] + [cell] == [cell] && [cell] + ["z"] == [cell, "z"];
    LexNext(START, text + ",", [cell], "z");
    LexEnd(START, text + "," + "z", "z", [cell]);
  }

  lemma LexBareWide()
    ensures Lex(START, WIDE) == Lexed(START, [["x" + ['"'], "z"]])
  {
    LexWord(START, "x");
    assert "" + "x" == "x";
    LexPast(START, Lexer("x", [], false, false), "x", ['"']);
    LexWord(Lexer("x", [], false, false), ['"']);
    LexWide("x" + ['"'], "x" + ['"']);
  }

  lemma LexQuotedWide()
    ensures Lex(START, TRIPLE + WIDE) == Lexed(START, [[['"', '\n', 'x'], "z"]])
  {
    var cell := ['"', '\n', 'x'];
    PrintWide();
    LexCell([], cell);
    LexWide(cell, PrintCell(cell));
    WideSplits(TRIPLE, "x" + ['"']);
  }

  lemma WideSplits(a: string, b: string)
    ensures a + (b + "," + "z" + "\n") == (a + b) + "," + "z" + "\n"
  {}

  lemma LexLineField()
    ensures Lex(START, LINE) == Lexed(START, [[FIELD]])
  {
    PrintField();
    LexField(FIELD);
  }

  /** Three rows: one, the one of `LINE`, and another. */
  lemma LexThree(first: string, a: Cells, last: string, c: Cells)
    requires Lex(START, first) == Lexed(START, [a]) && Lex(START, last) == Lexed(START, [c])
    ensures Lex(START, first + LINE + last) == Lexed(START, [a, [FIELD], c])
  {
    LexLineField();
    LexMore(first, [a], LINE, [FIELD]);
    LexMore(first + LINE, [a] + [[FIELD]], last, c);
    assert [a] + [[FIELD]] + [c] == [a, [FIELD], c];
  }

  lemma LexBroken()
    ensures Lex(START, BROKEN) == Lexed(START, [[['\n', '"']], [FIELD], ["x" + ['"'], "z"]])
  {
    PrintFirst();
    LexField(['\n', '"']);
    LexBareWide();
    LexThree(['"', '\n'] + TRIPLE, [['\n', '"']], WIDE, ["x" + ['"'], "z"]);
    Regrouped(['"', '\n'], TRIPLE, WIDE);
  }

  lemma Regrouped(a: string, b: string, c: string)
    ensures a + b + (b + b) + c == a + (b + b) + (b + c)
  {}

  lemma LexMarkedBreak()
    ensures Lex(START, [BOM] + ['"'] + "\n") == Lexed(START, [[[BOM] + ['"']]])
  {
    LexOne(START, BOM);
    LexPast(START, Lexer([BOM], [], false, false), [BOM], ['"']);
    LexWord(Lexer([BOM], [], false, false), ['"']);
    LexEnd(START, [BOM] + ['"'], [BOM] + ['"'], []);
    assert [] + [[BOM] + ['"']] == [[BOM] + ['"']];
  }

  lemma LexMarkedBroken()
    ensures Lex(START, [BOM] + BROKEN) == Lexed(START, [[[BOM] + ['"']], [FIELD], [['"', '\n', 'x'], "z"]])
  {
    LexMarkedBreak();
    LexQuotedWide();
    LexThree([BOM] + ['"'] + "\n", [[BOM] + ['"']], TRIPLE + WIDE, [['"', '\n', 'x'], "z"]);
    assert ['"'] + "\n" == ['"', '\n'];
    Behind([BOM], ['"'], "\n", LINE, TRIPLE + WIDE);
  }

  lemma Behind(m: string, a: string, b: string, c: string, d: string)
    ensures m + a + b + c + d == m + ((a + b) + c + d)
  {}

  lemma ThreeLines(a: Cells, b: Cells, c: Cells)
    requires !Blank(a) && !Blank(b) && !Blank(c)
    ensures Api.NonBlank([a, b, c]) == [a, b, c] && [a, b, c][1..] == [b, c]
  {
    assert [a, b, c][..2] == [a, b] && [a, b][..1] == [a] && [a][..0] == [];
    assert Api.NonBlank([a]) == [a] && Api.NonBlank([a, b]) == [a, b];
  }

  /** One record, of one field, and a row too wide. */
  function OneField(): Api.Table {
    Api.Table([JObject([(['"'], JString(FIELD))])], 1)
  }

  lemma TabulateOneField(wide: Cells)
    requires |wide| == 2
    ensures Api.Tabulate([['"']], [[FIELD], wide]) == OneField()
  {
    var names, one := [['"']], JObject([(['"'], JString(FIELD))]);
    TrimTrimmed(FIELD);
    assert Record(names, [FIELD]) == one;
    assert [[FIELD], wide][..1] == [[FIELD]] && [[FIELD]][..0] == [];
    assert Api.Tabulate(names, [[FIELD]]) == Api.Table([one], 0);
  }

  lemma RowsOneField(cell: string, wide: Cells)
    requires Trim(cell) == ['"'] && |wide| == 2
    ensures Collect([[cell], [FIELD], wide]) == Collector(false, Some([['"']]), OneField(), None)
    ensures Api.Tabled([[cell], [FIELD], wide]) == Success(OneField()) && NamesOf([[cell], [FIELD], wide]) == [['"']]
  {
    TrimTrimmed(FIELD);
    ThreeLines([cell], [FIELD], wide);
    assert TrimAll([cell]) == [['"']];
    CollectMeaning([[cell], [FIELD], wide]);
    TabulateOneField(wide);
  }

  lemma BrokenNames()
    ensures Trim(['\n', '"']) == ['"'] && Trim([BOM] + ['"']) == ['"']
  {
    TrimTrimmed(['"']);
    assert ['\n', '"'][1..] == ['"'] && ([BOM] + ['"'])[1..] == ['"'];
  }

  /**
   A name that begins with a quote only once white space is gone can be the same under such a mark, and the table with
   it: without `PlainlyNamed` the readers may agree where a mark stands right before a quote.
   */
  lemma QuotedMarkCanAgree()
    ensures var text := [BOM] + BROKEN;
            && QuotedMark(text) && !PlainlyNamed(text) && SameNamed(text)
            && Api.OneShot(text) == Success(OneField()) && FirstKey(OneField()).Some?
  {
    var text := [BOM] + BROKEN;
    assert StripBom(text) == BROKEN;
    BrokenNames();
    assert Api.OneShot(text) == Success(OneField()) && OneShotNames(text) == [['"']] by {
      LexBroken();
      AppendNothing([[['\n', '"']], [FIELD], ["x" + ['"'], "z"]]);
      RowsOneField(['\n', '"'], ["x" + ['"'], "z"]);
    }
    assert Streamed(text) == Success(OneField()) && StreamedNames(text) == Some([['"']]) by {
      LexMarkedBroken();
      AppendNothing([[[BOM] + ['"']], [FIELD], [['"', '\n', 'x'], "z"]]);
      RowsOneField([BOM] + ['"'], [['"', '\n', 'x'], "z"]);
    }
    assert QuotedMark(text) by { assert text[1..] == BROKEN && BROKEN[0] == '"' && Returns(BROKEN[..0]); }
    assert FirstCell(Lex(START, BROKEN)) == ['\n', '"'] by { LexBroken(); }
  }

  // ----- a header both refuse -----

  const TWICE := HEADER + "," + QUOTED_B

  lemma LexTwice(text: string, cell: string)
    requires Lex(START, text) == Lexed(Lexer("b", [cell], true, true), [])
    ensures Lex(START, text + "," + QUOTED_B + "\n") == Lexed(START, [[cell, "b", "b"]])
  {
    PrintOne('b');
    assert [cell, "b"][..1] == [cell] && [cell, "b"] + ["b"] == [cell, "b", "b"];
    LexNextCell(text, [cell, "b"], "b");
    LexPast(START, Lexer("b", [cell, "b"], true, true), text + "," + QUOTED_B, "\n");
    LexBreak(Lexer("b", [cell, "b"], true, true), "\n");
  }

  lemma RowsTwice(cell: string)
    ensures Api.Tabled([[cell, "b", "b"]]) == Failure(Api.BadHeader)
    ensures Collected(Collect([[cell, "b", "b"]])) == Failure(Bulk.HeaderNames)
  {
    var row := [cell, "b", "b"];
    assert [row][..0] == [] && Api.NonBlank([row]) == [row];
    assert TrimAll(row)[1] == TrimAll(row)[2];
    CollectMeaning([row]);
  }

  /** A header with a name twice is refused by both, mark or no mark. */
  lemma RefusedAlike()
    ensures var text := [BOM] + TWICE + "\n";
            && QuotedMark(text) && SameTable(Streamed(text), Api.OneShot(text))
            && Api.OneShot(text) == Failure(Api.BadHeader)
  {
    var text := [BOM] + TWICE + "\n";
    assert StripBom(text) == HEADER + "," + QUOTED_B + "\n" && text == [BOM] + HEADER + "," + QUOTED_B + "\n";
    assert Api.OneShot(text) == Failure(Api.BadHeader) by {
      LexHeaderCells();
      LexTwice(HEADER, "a");
      AppendNothing([["a", "b", "b"]]);
      RowsTwice("a");
    }
    assert Streamed(text) == Failure(Bulk.HeaderNames) by {
      LexMarkedCells();
      LexTwice([BOM] + HEADER, [BOM] + QUOTED_A);
      AppendNothing([[[BOM] + QUOTED_A, "b", "b"]]);
      RowsTwice([BOM] + QUOTED_A);
    }
    assert QuotedMark(text) by { assert text[1..][0] == '"' && Returns(text[1..][..0]); }
  }
}
