/**
 The streaming dataset reader (server/adapters/bulk.js): chunks of decoded text in, items out, until the row limit.
 The class keeps the reader's own closure state; the functions above it say what that state is after any text.
 */
module BulkParser {
  import opened Basics
  import opened CsvLexer

  datatype Format = Csv | Tsv | Jsonl

  /** What stops a stream by an exception: bad header names, or a row met before any header. */
  datatype Failure = HeaderNames | NoHeader

  /** An endpoint: its format, its row limit, how a record maps to an item, and the JSON reader of the platform. */
  datatype Config = Config(
    format: Format, limit: nat, mapRecord: (Json, nat) -> Option<Item>, parseJson: string -> Option<Json>)

  const DEFAULT_ROWS := 1000
  const DEFAULT_ITEMS := 500

  /** The row limit of a parser: at least 1, at most `max_rows` and `maxItems`, each with its default when it is 0. */
  function Limit(maxRows: nat, maxItems: nat): (limit: nat)
    ensures limit >= 1
  {
    Max(1, Min(if maxRows == 0 then DEFAULT_ROWS else maxRows, if maxItems == 0 then DEFAULT_ITEMS else maxItems))
  }

  // ----- what the records do to the counts -----

  datatype Sink = Sink(
    first: bool, header: Option<Cells>, skip: nat, skipped: nat, rows: nat, scanned: nat, items: seq<Item>,
    stopped: bool, thrown: Option<Failure>)
  {
    predicate Done() {
      stopped || thrown.Some?
    }
  }

  function FreshSink(skip: nat): Sink {
    Sink(true, None, skip, 0, 0, 0, [], false, None)
  }

  function Accept(cfg: Config, s: Sink, rec: Json): Sink {
    var t := s.(scanned := s.scanned + 1);
    if t.skip > 0 then t.(skip := t.skip - 1)
    else if t.stopped then t
    else
      var u := t.(rows := t.rows + 1);
      var item := if rec.JObject? then cfg.mapRecord(rec, t.rows) else None;
      if item.None? || item.value.identity in Identities(u.items) then u.(skipped := u.skipped + 1)
      else u.(items := u.items + [item.value], stopped := |u.items| + 1 >= cfg.limit)
  }

  function HeaderOf(cells: Cells): (names: Cells)
    ensures names == TrimAll(cells)
  {
    var names := seq(|cells|, i requires 0 <= i < |cells| => Trim(StripBom(cells[i])));
    assert names == TrimAll(cells) by {
      forall i | 0 <= i < |cells| { TrimStripsBom(cells[i]); }
    }
    names
  }

  function Header(s: Sink, cells: Cells): Sink {
    var names := HeaderOf(cells);
    if GoodHeader(names) then s.(first := false, header := Some(names))
    else s.(first := false, thrown := Some(HeaderNames))
  }

  function Tabular(cfg: Config, s: Sink, cells: Cells): Sink
    requires s.header.Some?
  {
    if |cells| != |s.header.value| then s.(skipped := s.skipped + 1)
    else Accept(cfg, s, Record(s.header.value, cells))
  }

  function CsvRow(cfg: Config, s: Sink, cells: Cells): Sink {
    if s.first && Blank(cells) then s.(first := false)
    else if s.first then Header(s, cells)
    else if Blank(cells) then s
    else if s.header.None? then s.(thrown := Some(NoHeader))
    else Tabular(cfg, s, cells)
  }

  function Line(cfg: Config, s: Sink, text: string): Sink {
    if text == "" then s
    else if cfg.format.Jsonl? then
      match cfg.parseJson(text)
      case None => s.(skipped := s.skipped + 1)
      case Some(rec) => Accept(cfg, s, rec)
    else if s.first then Header(s, Split(text, '\t'))
    else if s.header.None? then s.(thrown := Some(NoHeader))
    else Tabular(cfg, s, Split(text, '\t'))
  }

  /** String.prototype.split on one character. */
  function Split(text: string, sep: char): (parts: seq<string>)
    ensures parts != []
    ensures sep !in parts[|parts| - 1]
  {
    if text == "" then [""]
    else
      var before := Split(text[..|text| - 1], sep);
      var ch := text[|text| - 1];
      if ch == sep then before + [""]
      else before[|before| - 1 := before[|before| - 1] + [ch]]
  }

  function Chop(line: string): string {
    if line != "" && line[|line| - 1] == '\r' then line[..|line| - 1] else line
  }

  // ----- what a text does -----

  /** The whole reader between two characters. A stopped reader keeps no partial line. */
  datatype Machine = Machine(lexer: Lexer, pending: string, sink: Sink)

  function Initial(skip: nat): Machine {
    Machine(START, "", FreshSink(skip))
  }

  /** A lexer step completes at most one row. */
  function Rowed(cfg: Config, s: Sink, rows: seq<Cells>): Sink {
    if rows == [] then s else CsvRow(cfg, s, rows[0])
  }

  function ReadChar(cfg: Config, m: Machine, ch: char): Machine {
    if m.sink.Done() then m
    else if cfg.format.Csv? then
      var e := Step(m.lexer, ch);
      m.(lexer := e.lexer, sink := Rowed(cfg, m.sink, e.rows))
    else if ch == '\n' then m.(pending := "", sink := Line(cfg, m.sink, Chop(m.pending)))
    else m.(pending := m.pending + [ch])
  }

  function Read(cfg: Config, m: Machine, text: string): Machine {
    if text == "" then m else ReadChar(cfg, Read(cfg, m, text[..|text| - 1]), text[|text| - 1])
  }

  /** The end of the stream: the last row or line, if it had no line break. */
  function Finish(cfg: Config, m: Machine): Sink {
    if m.sink.Done() then m.sink
    else if cfg.format.Csv? then
      if m.lexer.Open() then m.sink.(skipped := m.sink.skipped + 1)
      else Rowed(cfg, m.sink, LastRow(m.lexer))
    else if m.pending == "" then m.sink
    else Line(cfg, m.sink, Chop(m.pending))
  }

  datatype Parsed = Parsed(
    items: seq<Item>, skipped: nat, rows: nat, scanned: nat, skipRows: int, capped: bool)

  /** `cut`: the row limit ended the stream before its end. */
  datatype Answer = Answer(cut: bool, parsed: Result<Parsed, Failure>)

  function Outcome(skip: nat, s: Sink): Result<Parsed, Failure> {
    if s.thrown.Some? then Failure(s.thrown.value)
    else Success(Parsed(s.items, s.skipped, s.rows, s.scanned, skip - s.skip, s.stopped))
  }

  /** What reading a whole text gives; no word of how it was cut into chunks. */
  function Reading(cfg: Config, skip: nat, text: string): Answer {
    Conclude(cfg, skip, Read(cfg, Initial(skip), text))
  }

  function Conclude(cfg: Config, skip: nat, m: Machine): Answer {
    Answer(m.sink.stopped && m.sink.thrown.None?, Outcome(skip, Finish(cfg, m)))
  }

  lemma {:induction false} ReadDone(cfg: Config, m: Machine, text: string)
    requires m.sink.Done()
    ensures Read(cfg, m, text) == m
  {
    if text != "" {
      ReadDone(cfg, m, text[..|text| - 1]);
    }
  }

  lemma {:induction false} ReadAppend(cfg: Config, m: Machine, a: string, b: string)
    ensures Read(cfg, m, a + b) == Read(cfg, Read(cfg, m, a), b)
  {
    if b == "" {
      assert a + b == a;
    } else {
      assert (a + b)[..|a + b| - 1] == a + b[..|b| - 1];
      ReadAppend(cfg, m, a, b[..|b| - 1]);
    }
  }

  function ReadChunks(cfg: Config, m: Machine, chunks: seq<string>): Machine {
    if chunks == [] then m else Read(cfg, ReadChunks(cfg, m, chunks[..|chunks| - 1]), chunks[|chunks| - 1])
  }

  /**
   Chunk independence: however a text is cut, in every format and also inside a quote, the reader ends up the same.
   */
  lemma {:induction false} ChunkIndependence(cfg: Config, m: Machine, chunks: seq<string>)
    ensures ReadChunks(cfg, m, chunks) == Read(cfg, m, Flatten(chunks))
  {
    if chunks != [] {
      var init := chunks[..|chunks| - 1];
      ChunkIndependence(cfg, m, init);
      ReadAppend(cfg, m, Flatten(init), chunks[|chunks| - 1]);
    }
  }

  // ----- lines -----

  /** The lines up to where the reader is done. */
  function Lines(cfg: Config, s: Sink, lines: seq<string>): Sink {
    if lines == [] then s
    else
      var before := Lines(cfg, s, lines[..|lines| - 1]);
      if before.Done() then before else Line(cfg, before, Chop(lines[|lines| - 1]))
  }

  /** Reading characters is splitting into lines and reading those. */
  lemma {:induction false} ReadIsLines(cfg: Config, lexer: Lexer, s: Sink, text: string)
    requires !cfg.format.Csv? && !s.Done()
    ensures var parts := Split(text, '\n');
            var after := Lines(cfg, s, parts[..|parts| - 1]);
            Read(cfg, Machine(lexer, "", s), text)
            == Machine(lexer, if after.Done() then "" else parts[|parts| - 1], after)
  {
    if text != "" {
      var init, ch := text[..|text| - 1], text[|text| - 1];
      ReadIsLines(cfg, lexer, s, init);
      var parts := Split(init, '\n');
      if ch == '\n' {
        var whole := parts + [""];
        assert whole[..|whole| - 1] == parts;
      } else {
        var last := |parts| - 1;
        var whole := parts[last := parts[last] + [ch]];
        assert whole[..|whole| - 1] == parts[..last];
      }
    }
  }

  /** A line begun earlier: its characters can be read again with the new ones. */
  lemma {:induction false} ReadPending(cfg: Config, m: Machine, text: string)
    requires !cfg.format.Csv? && !m.sink.Done() && '\n' !in m.pending
    ensures Read(cfg, m, text) == Read(cfg, m.(pending := ""), m.pending + text)
  {
    ReadAppend(cfg, m.(pending := ""), m.pending, text);
    ReadPlain(cfg, m.(pending := ""), m.pending);
    assert "" + m.pending == m.pending;
  }

  lemma {:induction false} ReadPlain(cfg: Config, m: Machine, text: string)
    requires !cfg.format.Csv? && !m.sink.Done() && '\n' !in text
    ensures Read(cfg, m, text) == m.(pending := m.pending + text)
  {
    if text == "" {
      assert m.pending + text == m.pending;
    } else {
      ReadPlain(cfg, m, text[..|text| - 1]);
      assert m.pending + text == m.pending + text[..|text| - 1] + [text[|text| - 1]];
    }
  }

  /** A chunk of a line format: its complete lines are read, the pending one among them, and the last is kept. */
  lemma ReadLines(cfg: Config, m: Machine, text: string)
    requires !cfg.format.Csv? && !m.sink.Done() && '\n' !in m.pending
    ensures var parts := Split(m.pending + text, '\n');
            var after := Lines(cfg, m.sink, parts[..|parts| - 1]);
            Read(cfg, m, text) == Machine(m.lexer, if after.Done() then "" else parts[|parts| - 1], after)
  {
    ReadPending(cfg, m, text);
    ReadIsLines(cfg, m.lexer, m.sink, m.pending + text);
  }

  /**
   Where the CSV loop stands: at the machine of what it has read, or past a closing quote that its next character, not
   a quote, has just settled.
   */
  ghost predicate Reached(view: Machine, m: Machine, rest: string) {
    || view == m
    || (&& rest != "" && rest[0] != '"' && m.lexer.quotePending && !m.sink.Done()
        && view == m.(lexer := m.lexer.(quotePending := false, inQuotes := false)))
  }

  /** From there, reading the next character arrives at the machine of one character more. */
  lemma ReadNext(cfg: Config, start: Machine, text: string, i: nat, view: Machine)
    requires i < |text| && cfg.format.Csv? && Reached(view, Read(cfg, start, text[..i]), text[i..])
    ensures !(view.lexer.quotePending && text[i] != '"') ==>
              ReadChar(cfg, view, text[i]) == Read(cfg, start, text[..i + 1])
  {
    assert text[..i + 1][..i] == text[..i];
  }

  lemma ReadStays(cfg: Config, m: Machine, text: string, i: nat)
    requires i <= |text| && Read(cfg, m, text[..i]).sink.Done()
    ensures Read(cfg, m, text) == Read(cfg, m, text[..i])
  {
    assert text == text[..i] + text[i..];
    ReadAppend(cfg, m, text[..i], text[i..]);
    ReadDone(cfg, Read(cfg, m, text[..i]), text[i..]);
  }

  // ----- the reader -----

  class Parser {
    const cfg: Config
    const skippedAtStart: nat
    var skip: nat
    var skipped: nat
    var rows: nat
    var scanned: nat
    var stopped: bool
    var items: seq<Item>
    var seen: set<string>
    var pending: string
    var header: Option<Cells>
    var field: string
    var row: Cells
    var inQuotes: bool
    var quotePending: bool
    var first: bool
    var thrown: Option<Failure>    // an exception on its way out of the reader

    function SinkOf(): Sink
      reads this
    {
      Sink(first, header, skip, skipped, rows, scanned, items, stopped, thrown)
    }

    function LexerOf(): Lexer
      reads this
    {
      Lexer(field, row, inQuotes, quotePending)
    }

    function View(): Machine
      reads this
    {
      Machine(LexerOf(), if SinkOf().Done() then "" else pending, SinkOf())
    }

    ghost predicate Valid()
      reads this
    {
      && seen == Identities(items)
      && '\n' !in pending
      && (cfg.format.Csv? ==> pending == "")
    }

    constructor (cfg: Config, skipRows: nat)
      ensures Valid() && this.cfg == cfg && skippedAtStart == skipRows && View() == Initial(skipRows)
    {
      this.cfg := cfg;
      skippedAtStart := skipRows;
      skip, skipped, rows, scanned, stopped := skipRows, 0, 0, 0, false;
      items, seen := [], {};
      pending, header, field, row := "", None, "", [];
      inQuotes, quotePending, first, thrown := false, false, true, None;
    }

    method AcceptRecord(rec: Json)
      requires Valid()
      modifies this
      ensures Valid() && LexerOf() == old(LexerOf()) && pending == old(pending)
      ensures SinkOf() == Accept(cfg, old(SinkOf()), rec)
    {
      scanned := scanned + 1;
      if skip > 0 {
        skip := skip - 1;
      } else if !stopped {
        var index := rows;
        rows := rows + 1;
        var item := if rec.JObject? then cfg.mapRecord(rec, index) else None;
        if item.None? || item.value.identity in seen {
          skipped := skipped + 1;
        } else {
          Keep(item.value);
        }
      }
    }

    method Keep(item: Item)
      requires Valid()
      modifies this`seen, this`items, this`stopped
      ensures Valid() && items == old(items) + [item] && stopped == (old(stopped) || |items| >= cfg.limit)
    {
      IdentitiesAppend(items, item);
      seen := seen + {item.identity};
      items := items + [item];
      if |items| >= cfg.limit { stopped := true; }
    }

    method TakeHeader(cells: Cells)
      requires Valid()
      modifies this
      ensures Valid() && LexerOf() == old(LexerOf()) && pending == old(pending)
      ensures SinkOf() == Header(old(SinkOf()), cells)
    {
      first := false;
      var names := HeaderOf(cells);
      if !GoodHeader(names) {
        thrown := Some(HeaderNames);
        return;
      }
      header := Some(names);
    }

    method TakeCells(cells: Cells)
      requires Valid() && header.Some?
      modifies this
      ensures Valid() && LexerOf() == old(LexerOf()) && pending == old(pending)
      ensures SinkOf() == Tabular(cfg, old(SinkOf()), cells)
    {
      if |cells| != |header.value| {
        skipped := skipped + 1;
        return;
      }
      AcceptRecord(Record(header.value, cells));
    }

    method TakeCsvRow(cells: Cells)
      requires Valid()
      modifies this
      ensures Valid() && LexerOf() == old(LexerOf()) && pending == old(pending)
      ensures SinkOf() == CsvRow(cfg, old(SinkOf()), cells)
    {
      if first {
        if Blank(cells) {
          first := false;
          return;
        }
        TakeHeader(cells);
        return;
      }
      if Blank(cells) { return; }
      if header.None? {
        thrown := Some(NoHeader);
        return;
      }
      TakeCells(cells);
    }

    method TakeLine(text: string)
      requires Valid()
      modifies this
      ensures Valid() && LexerOf() == old(LexerOf()) && pending == old(pending)
      ensures SinkOf() == Line(cfg, old(SinkOf()), text)
    {
      if text == "" { return; }
      if cfg.format.Jsonl? {
        var rec := cfg.parseJson(text);
        if rec.None? {
          skipped := skipped + 1;
          return;
        }
        AcceptRecord(rec.value);
        return;
      }
      if first {
        TakeHeader(Split(text, '\t'));
        return;
      }
      if header.None? {
        thrown := Some(NoHeader);
        return;
      }
      TakeCells(Split(text, '\t'));
    }

    /**
     One turn of the CSV loop. Not `taken`: a closing quote was settled and its next character is still to be read.
     */
    method CsvTurn(ch: char) returns (taken: bool)
      requires Valid() && cfg.format.Csv? && !SinkOf().Done()
      modifies this
      ensures Valid() && pending == old(pending)
      ensures taken == !(old(quotePending) && ch != '"')
      ensures if taken then View() == ReadChar(cfg, old(View()), ch)
              else View() == old(View()).(lexer := old(LexerOf()).(quotePending := false, inQuotes := false))
    {
      taken := true;
      if quotePending {
        quotePending := false;
        if ch == '"' {
          field := field + "\"";
        } else {
          inQuotes := false;
          taken := false;
        }
      } else if inQuotes {
        if ch == '"' {
          quotePending := true;
        } else {
          field := field + [ch];
        }
      } else if ch == '"' && field == "" {
        inQuotes := true;
      } else if ch == ',' {
        row, field := row + [field], "";
      } else if ch == '\n' {
        var cells := row + [field];
        row, field := [], "";
        TakeCsvRow(cells);
      } else if ch != '\r' {
        field := field + [ch];
      }
    }

    method CsvWrite(text: string)
      requires Valid() && cfg.format.Csv? && thrown.None?
      modifies this
      ensures Valid() && View() == Read(cfg, old(View()), text)
    {
      ghost var start := View();
      assert text[..|text|] == text;
      var i := 0;
      while i < |text|
        invariant 0 <= i <= |text| && Valid() && thrown.None?
        invariant Reached(View(), Read(cfg, start, text[..i]), text[i..])
        decreases |text| - i, if quotePending then 1 else 0
      {
        if stopped {
          ReadStays(cfg, start, text, i);
          return;
        }
        ReadNext(cfg, start, text, i, View());
        var taken := CsvTurn(text[i]);
        if !taken { continue; }                  // the close-quote's next character is an ordinary one
        i := i + 1;
        if thrown.Some? {
          ReadStays(cfg, start, text, i);
          return;
        }
      }
    }

    method CsvFinish()
      requires Valid() && cfg.format.Csv? && !SinkOf().Done()
      modifies this
      ensures Valid() && SinkOf() == Finish(cfg, old(View()))
    {
      if quotePending {
        quotePending, inQuotes := false, false;
      }
      if inQuotes {
        skipped := skipped + 1;
        return;
      }
      if field == "" && row == [] { return; }
      row, field := row + [field], "";
      var cells := row;
      row := [];
      TakeCsvRow(cells);
    }

    method LineWrite(text: string)
      requires Valid() && !cfg.format.Csv? && !SinkOf().Done()
      modifies this
      ensures Valid() && View() == Read(cfg, old(View()), text)
    {
      ghost var start := View();
      var parts := KeepLast(text);
      TakeLines(parts[..|parts| - 1]);
      assert View() == Read(cfg, start, text) by { ReadLines(cfg, start, text); }
    }

    /** The lines with the new text; the last, incomplete one is pending again. */
    method KeepLast(text: string) returns (parts: seq<string>)
      requires Valid() && !cfg.format.Csv?
      modifies this`pending
      ensures Valid() && parts == Split(old(pending) + text, '\n') && pending == parts[|parts| - 1]
    {
      pending := pending + text;
      parts := Split(pending, '\n');
      pending := parts[|parts| - 1];
    }

    /** Complete lines in turn, until one stops the reader. */
    method TakeLines(parts: seq<string>)
      requires Valid() && !SinkOf().Done()
      modifies this
      ensures Valid() && LexerOf() == old(LexerOf()) && pending == old(pending)
      ensures SinkOf() == Lines(cfg, old(SinkOf()), parts)
    {
      ghost var start := SinkOf();
      var k := 0;
      while k < |parts|
        invariant 0 <= k <= |parts| && Valid() && !SinkOf().Done()
        invariant LexerOf() == old(LexerOf()) && pending == old(pending)
        invariant SinkOf() == Lines(cfg, start, parts[..k])
      {
        TakeLine(Chop(parts[k]));
        LinesNext(cfg, start, parts, k);
        k := k + 1;
        if SinkOf().Done() {
          LinesDone(cfg, start, parts, k);
          return;
        }
      }
      assert parts[..k] == parts;
    }

    /** Feed one chunk; false when the row limit is reached and the stream should stop. */
    method Write(text: string) returns (more: bool)
      requires Valid() && thrown.None?
      modifies this
      ensures Valid() && View() == Read(cfg, old(View()), text)
      ensures thrown.None? ==> more == !stopped
    {
      if stopped {
        ReadDone(cfg, View(), text);
        return false;
      }
      if text == "" { return true; }
      if cfg.format.Csv? { CsvWrite(text); } else { LineWrite(text); }
      return !stopped;
    }

    /** Finish the stream: the last row or line, unless the row limit stopped it. */
    method End() returns (r: Result<Parsed, Failure>)
      requires Valid() && thrown.None?
      modifies this
      ensures r == Outcome(skippedAtStart, Finish(cfg, old(View())))
    {
      if !stopped {
        if cfg.format.Csv? {
          CsvFinish();
        } else if pending != "" {
          TakeLine(Chop(pending));
        }
      }
      if thrown.Some? { return Failure(thrown.value); }
      return Success(Parsed(items, skipped, rows, scanned, skippedAtStart - skip, stopped));
    }
  }

  lemma LinesNext(cfg: Config, s: Sink, lines: seq<string>, k: nat)
    requires k < |lines| && !Lines(cfg, s, lines[..k]).Done()
    ensures Lines(cfg, s, lines[..k + 1]) == Line(cfg, Lines(cfg, s, lines[..k]), Chop(lines[k]))
  {
    assert lines[..k + 1][..k] == lines[..k];
  }

  lemma {:induction false} LinesDone(cfg: Config, s: Sink, lines: seq<string>, k: nat)
    requires k <= |lines| && Lines(cfg, s, lines[..k]).Done()
    ensures Lines(cfg, s, lines) == Lines(cfg, s, lines[..k])
  {
    if k == |lines| {
      assert lines[..k] == lines;
    } else {
      assert lines[..|lines| - 1][..k] == lines[..k];
      LinesDone(cfg, s, lines[..|lines| - 1], k);
    }
  }

  /** Chunk by chunk, until the reader asks to stop or an exception ends the stream. */
  method Feed(parser: Parser, chunks: seq<string>) returns (cut: bool)
    requires parser.Valid() && !parser.SinkOf().Done()
    modifies parser
    ensures parser.Valid()
    ensures parser.View() == ReadChunks(parser.cfg, old(parser.View()), chunks)
    ensures parser.thrown.None? ==> cut == parser.stopped
  {
    ghost var start := parser.View();
    var k := 0;
    while k < |chunks|
      invariant 0 <= k <= |chunks|
      invariant parser.Valid() && !parser.SinkOf().Done()
      invariant parser.View() == ReadChunks(parser.cfg, start, chunks[..k])
    {
      var more := parser.Write(chunks[k]);
      assert chunks[..k + 1][..k] == chunks[..k];
      k := k + 1;
      if parser.thrown.Some? || !more {
        ChunksStay(parser.cfg, start, chunks, k);
        return !more;
      }
    }
    assert chunks[..k] == chunks;
    return false;
  }

  /** A stream through a new reader, then the end of it: chunks in, the answer of the whole text out. */
  method ReadStream(cfg: Config, skip: nat, chunks: seq<string>) returns (a: Answer)
    ensures a == Reading(cfg, skip, Flatten(chunks))
  {
    var parser := new Parser(cfg, skip);
    var cut := Feed(parser, chunks);
    ChunkIndependence(cfg, Initial(skip), chunks);
    ghost var m := Read(cfg, Initial(skip), Flatten(chunks));
    assert parser.View() == m;
    if parser.thrown.Some? {
      return Answer(false, Failure(parser.thrown.value));
    }
    var parsed := parser.End();
    return Answer(cut, parsed);
  }

  lemma {:induction false} ChunksStay(cfg: Config, m: Machine, chunks: seq<string>, k: nat)
    requires k <= |chunks|
    requires k == |chunks| || ReadChunks(cfg, m, chunks[..k]).sink.Done()
    ensures ReadChunks(cfg, m, chunks) == ReadChunks(cfg, m, chunks[..k])
  {
    if k == |chunks| {
      assert chunks[..k] == chunks;
    } else {
      assert chunks[..|chunks| - 1][..k] == chunks[..k];
      ChunksStay(cfg, m, chunks[..|chunks| - 1], k);
      ReadDone(cfg, ReadChunks(cfg, m, chunks[..k]), chunks[|chunks| - 1]);
    }
  }
}
