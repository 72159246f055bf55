/**
 What a reading means in records. Whatever the format, the reader hands a list of records to `Accept`; how many it takes
 and which items it keeps is a matter of that list alone. Here: the list of a JSONL text.
 */
module RecordStream {
  import opened Basics
  import opened CsvLexer
  import opened BulkParser
  import opened Duplicates

  function AcceptAll(cfg: Config, s: Sink, recs: seq<Json>): Sink {
    if recs == [] then s
    else
      var before := AcceptAll(cfg, s, recs[..|recs| - 1]);
      if before.stopped then before else Accept(cfg, before, recs[|recs| - 1])
  }

  function MapOne(cfg: Config, rec: Json, index: nat): seq<Item> {
    if !rec.JObject? then []
    else match cfg.mapRecord(rec, index) case None => [] case Some(item) => [item]
  }

  /** The items a list of records states, each mapped with its position. */
  function Mapped(cfg: Config, recs: seq<Json>): seq<Item> {
    if recs == [] then []
    else Mapped(cfg, recs[..|recs| - 1]) + MapOne(cfg, recs[|recs| - 1], |recs| - 1)
  }

  /** The records an accepting reader took after the ones it skipped. */
  function Taken(skip: nat, s: Sink, recs: seq<Json>): seq<Json> {
    if skip <= s.scanned <= |recs| then recs[skip..s.scanned] else []
  }

  lemma TakenSnoc(skip: nat, b: Sink, a: Sink, init: seq<Json>, rec: Json)
    requires b.scanned == |init| && a.scanned == |init| + 1
    ensures Taken(skip, a, init + [rec]) == if skip <= |init| then Taken(skip, b, init) + [rec] else []
  {}

  lemma TakenSame(skip: nat, b: Sink, init: seq<Json>, rec: Json)
    requires b.scanned <= |init|
    ensures Taken(skip, b, init + [rec]) == Taken(skip, b, init)
  {}

  /** What accepting one more record, which states the items `more`, does to a reader past its skipped rows. */
  ghost predicate Stepped(cfg: Config, b: Sink, a: Sink, more: seq<Item>) {
    var isNew := more != [] && more[0].identity !in Identities(b.items);
    && |more| <= 1
    && a.scanned == b.scanned + 1 && a.rows == b.rows + 1 && a.skip == 0 && a.thrown == b.thrown
    && a.items == (if isNew then b.items + more else b.items)
    && a.skipped == (if isNew then b.skipped else b.skipped + 1)
    && a.stopped == (isNew && |a.items| >= cfg.limit)
  }

  lemma AcceptStep(cfg: Config, b: Sink, rec: Json)
    requires b.skip == 0 && !b.stopped
    ensures Stepped(cfg, b, Accept(cfg, b, rec), MapOne(cfg, rec, b.rows))
  {}

  /** Below the limit, keeping goes on as accepting does. */
  lemma KeepsStep(kept: seq<Item>, items: seq<Item>, limit: nat, more: seq<Item>)
    requires Keeps(kept, items, limit, false) && |kept| < limit && |more| <= 1
    ensures Keeps(if more != [] && more[0].identity !in Identities(kept) then kept + more
              else kept, items + more, limit, false)
  {
    if more == [] {
      AppendNothing(items);
    } else {
      assert more == [more[0]];
      KeptIdentities(kept, items, limit, more[0].identity);
      if more[0].identity in Identities(kept) {
        KeepsRepeat(kept, items, limit, false, more[0]);
      } else {
        KeepsNew(kept, items, limit, false, more[0]);
      }
    }
  }

  lemma MappedSnoc(cfg: Config, recs: seq<Json>, rec: Json)
    ensures Mapped(cfg, recs + [rec]) == Mapped(cfg, recs) + MapOne(cfg, rec, |recs|)
  {
    assert (recs + [rec])[..|recs|] == recs;
  }

  lemma AcceptAllSnoc(cfg: Config, s: Sink, recs: seq<Json>, rec: Json)
    ensures AcceptAll(cfg, s, recs + [rec])
            == if AcceptAll(cfg, s, recs).stopped then AcceptAll(cfg, s, recs)
              else Accept(cfg, AcceptAll(cfg, s, recs), rec)
  {
    assert (recs + [rec])[..|recs|] == recs;
  }

  ghost predicate Accounted(cfg: Config, skip: nat, recs: seq<Json>, a: Sink) {
    && a.scanned <= |recs| && (!a.stopped ==> a.scanned == |recs|)
    && a.rows == |Taken(skip, a, recs)| && a.skip == Max(0, skip - a.scanned)
    && Keeps(a.items, Mapped(cfg, Taken(skip, a, recs)), cfg.limit, false)
    && |a.items| <= cfg.limit && a.stopped == (|a.items| == cfg.limit)
    && a.skipped == a.rows - |a.items|
    && a.thrown.None?
  }

  /**
   What accepting does, said of the list: it passes over `skip` records, then takes the following ones until the
   identities it kept reach the limit, and keeps the first item of each.
   */
  lemma {:induction false} AcceptMeaning(cfg: Config, skip: nat, recs: seq<Json>)
    requires cfg.limit >= 1
    ensures Accounted(cfg, skip, recs, AcceptAll(cfg, FreshSink(skip), recs))
  {
    if recs != [] {
      var init, rec := recs[..|recs| - 1], recs[|recs| - 1];
      assert recs == init + [rec];
      AcceptMeaning(cfg, skip, init);
      AcceptAllSnoc(cfg, FreshSink(skip), init, rec);
      AcceptOne(cfg, skip, init, rec, AcceptAll(cfg, FreshSink(skip), init));
    }
  }

  /** The counts alone: how far accepting scanned, how many rows it took, and that a stopped one took some. */
  lemma AcceptCounts(cfg: Config, skip: nat, recs: seq<Json>)
    requires cfg.limit >= 1
    ensures var a := AcceptAll(cfg, FreshSink(skip), recs);
            && a.scanned <= |recs| && (!a.stopped ==> a.scanned == |recs|)
            && a.rows == Max(0, a.scanned - skip) && |a.items| <= a.rows && (a.stopped ==> a.items != [])
  {
    AcceptMeaning(cfg, skip, recs);
  }

  lemma AcceptOne(cfg: Config, skip: nat, init: seq<Json>, rec: Json, b: Sink)
    requires cfg.limit >= 1 && Accounted(cfg, skip, init, b)
    ensures Accounted(cfg, skip, init + [rec], if b.stopped then b else Accept(cfg, b, rec))
  {
    if b.stopped {
      TakenSame(skip, b, init, rec);
    } else if b.skip > 0 {
      TakenSnoc(skip, b, Accept(cfg, b, rec), init, rec);
    } else {
      AcceptStep(cfg, b, rec);
      AcceptTaking(cfg, skip, init, rec, b, Accept(cfg, b, rec), MapOne(cfg, rec, b.rows));
    }
  }

  lemma AcceptTaking(cfg: Config, skip: nat, init: seq<Json>, rec: Json, b: Sink, a: Sink, more: seq<Item>)
    requires cfg.limit >= 1 && Accounted(cfg, skip, init, b) && b.skip == 0 && !b.stopped
    requires more == MapOne(cfg, rec, b.rows) && Stepped(cfg, b, a, more)
    ensures Accounted(cfg, skip, init + [rec], a)
  {
    var before := Taken(skip, b, init);
    TakenSnoc(skip, b, a, init, rec);
    MappedSnoc(cfg, before, rec);
    KeepsStep(b.items, Mapped(cfg, before), cfg.limit, more);
  }

  /** Below the limit every identity seen is kept. */
  lemma KeptIdentities(kept: seq<Item>, items: seq<Item>, limit: nat, id: string)
    requires Keeps(kept, items, limit, false) && |kept| < limit
    ensures id in Identities(kept) <==> id in FirstSeen(items)
  {
    if id in FirstSeen(items) {
      var k :| 0 <= k < |FirstSeen(items)| && FirstSeen(items)[k] == id;
      assert kept[k].identity == id;
    }
    if id in Identities(kept) { ListedSeen(kept, items, limit, id); }
  }

  // ----- counts that do not look at the item -----

  /** A sink without what only the parser of the format changes. */
  function Core(s: Sink): Sink {
    s.(first := true, header := None, skipped := 0)
  }

  lemma AcceptCore(cfg: Config, s: Sink, t: Sink, rec: Json)
    requires Core(s) == Core(t)
    ensures Core(Accept(cfg, s, rec)) == Core(Accept(cfg, t, rec))
    ensures Accept(cfg, s, rec).skipped - s.skipped == Accept(cfg, t, rec).skipped - t.skipped
  {}

  // ----- JSONL -----

  /** The record of a line: what JSON.parse makes of it. An empty line and one that does not parse are no record. */
  function LineRecord(cfg: Config, line: string): seq<Json> {
    if Chop(line) == "" then []
    else match cfg.parseJson(Chop(line)) case None => [] case Some(rec) => [rec]
  }

  function LineRecords(cfg: Config, lines: seq<string>): seq<Json> {
    if lines == [] then [] else LineRecords(cfg, lines[..|lines| - 1]) + LineRecord(cfg, lines[|lines| - 1])
  }

  /** The well-formed rows of a JSONL text: a malformed line is not one of them. */
  function Records(cfg: Config, text: string): seq<Json> {
    LineRecords(cfg, Split(text, '\n'))
  }

  lemma LineAccepts(cfg: Config, s: Sink, t: Sink, line: string)
    requires cfg.format.Jsonl? && Core(s) == Core(t) && s.thrown.None?
    ensures var s' := if s.Done() then s else Line(cfg, s, Chop(line));
            var t' := if t.stopped || LineRecord(cfg, line) == [] then t else Accept(cfg, t, LineRecord(cfg, line)[0]);
            Core(s') == Core(t') && s'.thrown.None?
  {
    if !s.Done() && LineRecord(cfg, line) != [] {
      AcceptCore(cfg, s, t, LineRecord(cfg, line)[0]);
    }
  }

  lemma LineRecordsSnoc(cfg: Config, s: Sink, lines: seq<string>, line: string)
    ensures LineRecords(cfg, lines + [line]) == LineRecords(cfg, lines) + LineRecord(cfg, line)
    ensures var t := AcceptAll(cfg, s, LineRecords(cfg, lines));
            AcceptAll(cfg, s, LineRecords(cfg, lines + [line]))
            == if t.stopped || LineRecord(cfg, line) == [] then t else Accept(cfg, t, LineRecord(cfg, line)[0])
  {
    assert (lines + [line])[..|lines|] == lines;
    var more := LineRecord(cfg, line);
    if more == [] {
      AppendNothing(LineRecords(cfg, lines));
    } else {
      assert more == [more[0]];
      AcceptAllSnoc(cfg, s, LineRecords(cfg, lines), more[0]);
    }
  }

  lemma {:induction false} LinesAccept(cfg: Config, skip: nat, lines: seq<string>)
    requires cfg.format.Jsonl?
    ensures Core(Lines(cfg, FreshSink(skip), lines)) == Core(AcceptAll(cfg, FreshSink(skip), LineRecords(cfg, lines)))
    ensures Lines(cfg, FreshSink(skip), lines).thrown.None?
  {
    if lines != [] {
      var init, last := lines[..|lines| - 1], lines[|lines| - 1];
      assert lines == init + [last];
      LinesAccept(cfg, skip, init);
      LineAccepts(cfg, Lines(cfg, FreshSink(skip), init),
        AcceptAll(cfg, FreshSink(skip), LineRecords(cfg, init)), last);
      LineRecordsSnoc(cfg, FreshSink(skip), init, last);
    }
  }

  /** A sink whose counts are those of accepting `recs`. */
  ghost predicate Accepts(cfg: Config, skip: nat, recs: seq<Json>, s: Sink) {
    Core(s) == Core(AcceptAll(cfg, FreshSink(skip), recs))
  }

  lemma LineScans(cfg: Config, s: Sink, line: string)
    requires cfg.format.Jsonl? && s.thrown.None? && !s.stopped
    ensures Line(cfg, s, Chop(line)).scanned == s.scanned + |LineRecord(cfg, line)|
  {}

  /** Of all lines and all but the last: the last one adds at most one record, and only a stopped reader leaves it. */
  lemma LastLine(cfg: Config, skip: nat, lines: seq<string>)
    requires cfg.format.Jsonl? && cfg.limit >= 1 && lines != []
    ensures var init, whole := Lines(cfg, FreshSink(skip), lines[..|lines| - 1]), Lines(cfg, FreshSink(skip), lines);
            && whole.thrown.None? && init.thrown.None?
            && (init.stopped ==> whole.stopped)
            && (!init.stopped ==> whole.scanned == |LineRecords(cfg, lines)|)
  {
    var init, last := lines[..|lines| - 1], lines[|lines| - 1];
    var s := Lines(cfg, FreshSink(skip), init);
    LinesAccept(cfg, skip, lines);
    LinesAccept(cfg, skip, init);
    AcceptCounts(cfg, skip, LineRecords(cfg, init));
    if !s.stopped { LineScans(cfg, s, last); }
  }

  lemma FinishIsLines(cfg: Config, skip: nat, text: string)
    requires cfg.format.Jsonl?
    ensures var lines, m := Split(text, '\n'), Read(cfg, Initial(skip), text);
            && m.sink == Lines(cfg, FreshSink(skip), lines[..|lines| - 1])
            && Finish(cfg, m) == Lines(cfg, FreshSink(skip), lines)
  {
    ReadIsLines(cfg, START, FreshSink(skip), text);
  }

  /**
   Reading a JSONL text ends in a sink `s` without exception whose counts are those of accepting its records; when the
   row limit did not cut the stream every record was scanned, so the text is finished.
   */
  lemma JsonlMeaning(cfg: Config, skip: nat, text: string) returns (s: Sink)
    requires cfg.format.Jsonl? && cfg.limit >= 1
    ensures Reading(cfg, skip, text).parsed == Outcome(skip, s) && s.thrown.None?
    ensures Accepts(cfg, skip, Records(cfg, text), s)
    ensures !Reading(cfg, skip, text).cut ==> s.scanned == |Records(cfg, text)|
    ensures Reading(cfg, skip, text).cut ==> s.stopped
  {
    FinishIsLines(cfg, skip, text);
    LinesAccept(cfg, skip, Split(text, '\n'));
    LastLine(cfg, skip, Split(text, '\n'));
    s := Finish(cfg, Read(cfg, Initial(skip), text));
  }

  /** JSON lines are never a failure: a malformed line is only counted. */
  lemma JsonlReads(cfg: Config, skip: nat, text: string)
    requires cfg.format.Jsonl? && cfg.limit >= 1
    ensures Reading(cfg, skip, text).parsed.Success?
  {
    var s := JsonlMeaning(cfg, skip, text);
  }

  /** The same as one answer: how many rows a reading from row `skip` on took, and what a cut says. */
  lemma ReadingCounts(cfg: Config, skip: nat, text: string)
    requires cfg.format.Jsonl? && cfg.limit >= 1 && skip <= |Records(cfg, text)|
    ensures Counted(Reading(cfg, skip, text), |Records(cfg, text)| - skip)
  {
    var s := JsonlMeaning(cfg, skip, text);
    AcceptCounts(cfg, skip, Records(cfg, text));
    CountsOf(skip, |Records(cfg, text)|, Reading(cfg, skip, text), s,
      AcceptAll(cfg, FreshSink(skip), Records(cfg, text)));
  }

  lemma CountsOf(skip: nat, count: nat, a: Answer, s: Sink, t: Sink)
    requires Core(s) == Core(t) && s.thrown.None? && a.parsed == Outcome(skip, s) && skip <= count
    requires (!a.cut ==> s.scanned == count) && (a.cut ==> s.stopped)
    requires t.scanned <= count && t.rows == Max(0, t.scanned - skip) && |t.items| <= t.rows
             && (t.stopped ==> t.items != [])
    ensures Counted(a, count - skip)
  {}

  /**
   An answer that took at most `left` rows: all of them unless cut, and at least one when it was cut or made an item.
   */
  ghost predicate Counted(a: Answer, left: nat) {
    && a.parsed.Success?
    && a.parsed.value.rows <= left
    && (!a.cut ==> a.parsed.value.rows == left)
    && |a.parsed.value.items| <= a.parsed.value.rows
    && (a.cut ==> a.parsed.value.items != [])
  }
}
