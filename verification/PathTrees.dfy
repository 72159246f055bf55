/**
 Paths as trees, and the language as a whole: reading a text and printing a tree are inverse, and the validity check of
 server/adapters/api.js accepts exactly the texts of the trees nested no deeper than its bound.
 */
module PathTrees {
  import opened Basics
  import opened PathSyntax

  datatype Segment = Any | MapKey | Key(name: string) | Select(name: string, conds: seq<Cond>)

  datatype Cond = Cond(field: string, value: Value)

  /** What a condition compares with: text, a path from the record, or a path from the body. */
  datatype Value = Text(text: string) | OfRecord(path: seq<Segment>) | OfRoot(path: seq<Segment>)

  type Path = seq<Segment>

  // ----- trees the language can write -----

  ghost predicate WellFormed(p: Path) {
    p != [] && forall i :: 0 <= i < |p| ==> SegmentOk(p[i])
  }

  ghost predicate SegmentOk(s: Segment) {
    match s
    case Any => true
    case MapKey => true
    case Key(name) => Name(name)
    case Select(name, conds) => Name(name) && 1 <= |conds| <= 4 && forall i :: 0 <= i < |conds| ==> CondOk(conds[i])
  }

  ghost predicate CondOk(c: Cond) {
    Field(c.field) && ValueOk(c.value)
  }

  ghost predicate ValueOk(v: Value) {
    match v
    case Text(text) => LiteralText(text)
    case OfRecord(path) => WellFormed(path)
    case OfRoot(path) => WellFormed(path)
  }

  /** References nested at most `n` deep. */
  ghost predicate Within(p: Path, n: int)
    decreases p
  {
    n >= 0 && forall i :: 0 <= i < |p| ==> SegmentWithin(p[i], n)
  }

  ghost predicate SegmentWithin(s: Segment, n: int)
    decreases s
  {
    s.Select? ==> forall i :: 0 <= i < |s.conds| ==> ValueWithin(s.conds[i].value, n)
  }

  ghost predicate ValueWithin(v: Value, n: int)
    decreases v
  {
    v.Text? || Within(v.path, n - 1)
  }

  // ----- printing -----

  function Print(p: Path): string
    decreases p, 1
  {
    Join('.', PrintSegments(p))
  }

  function PrintSegments(p: Path): (r: seq<string>)
    ensures |r| == |p|
    decreases p, 0
  {
    seq(|p|, i requires 0 <= i < |p| => PrintSegment(p[i]))
  }

  function PrintSegment(s: Segment): string
    decreases s, 1
  {
    match s
    case Any => "*"
    case MapKey => "{$key}"
    case Key(name) => name
    case Select(name, conds) => name + ("[" + Join(',', PrintConds(conds)) + "]")
  }

  function PrintConds(conds: seq<Cond>): (r: seq<string>)
    ensures |r| == |conds|
    decreases conds, 0
  {
    seq(|conds|, i requires 0 <= i < |conds| => PrintCond(conds[i]))
  }

  function PrintCond(c: Cond): string
    decreases c, 1
  {
    c.field + "=" + PrintValue(c.value)
  }

  function PrintValue(v: Value): string
    decreases v, 2
  {
    match v
    case Text(text) => text
    case OfRecord(path) => REC + Print(path)
    case OfRoot(path) => ROOT + Print(path)
  }

  // ----- reading -----

  /** What a text says as a whole; None when any of it is malformed, at any depth. */
  function ReadPath(text: string): Option<Path>
    decreases |text|, 5
  {
    if text == "" then None else ReadSegments(|text|, Pieces('.', text))
  }

  function ReadSegments(n: nat, segs: seq<string>): (r: Option<Path>)
    requires forall s :: s in segs ==> |s| <= n
    ensures r.Some? ==> |r.value| == |segs|
    decreases n, 4, |segs|
  {
    if segs == [] then Some([])
    else
      var init, last := ReadSegments(n, segs[..|segs| - 1]), ReadSegment(segs[|segs| - 1]);
      if init.None? || last.None? then None else Some(init.value + [last.value])
  }

  function ReadSegment(seg: string): Option<Segment>
    decreases |seg|, 3
  {
    match ParseSegment(seg)
    case PAny => Some(Any)
    case PMapKey => Some(MapKey)
    case PKey(name) => Some(Key(name))
    case PSelect(name, conds) =>
      var read := ReadConds(|seg|, conds);
      if read.None? then None else Some(Select(name, read.value))
    case PBad => None
  }

  function ReadConds(n: nat, conds: seq<(string, string)>): (r: Option<seq<Cond>>)
    requires forall c :: c in conds ==> |c.1| < n
    ensures r.Some? ==> |r.value| == |conds|
    decreases n, 2, |conds|
  {
    if conds == [] then Some([])
    else
      var init, last := ReadConds(n, conds[..|conds| - 1]), ReadCond(conds[|conds| - 1]);
      if init.None? || last.None? then None else Some(init.value + [last.value])
  }

  function ReadCond(c: (string, string)): Option<Cond>
    decreases |c.1|, 7
  {
    var value := ReadValue(c.1);
    if value.None? then None else Some(Cond(c.0, value.value))
  }

  function ReadValue(raw: string): Option<Value>
    decreases |raw|, 6
  {
    if StartsWith(raw, REC) then
      var path := ReadPath(raw[5..]);
      if path.None? then None else Some(OfRecord(path.value))
    else if StartsWith(raw, ROOT) then
      var path := ReadPath(raw[6..]);
      if path.None? then None else Some(OfRoot(path.value))
    else if LiteralText(raw) then Some(Text(raw))
    else None
  }

  // ----- reading, item by item -----

  /** `r` holds what each item reads as, or is nothing when one of them reads as nothing. */
  ghost predicate Each<A, B>(items: seq<A>, r: Option<seq<B>>, read: A -> Option<B>) {
    && (r.Some? <==> forall i :: 0 <= i < |items| ==> read(items[i]).Some?)
    && (r.Some? ==> |r.value| == |items| && forall i :: 0 <= i < |items| ==> read(items[i]) == Some(r.value[i]))
  }

  lemma EachSnoc<A, B>(items: seq<A>, r: Option<seq<B>>, read: A -> Option<B>)
    requires items != [] && Each(items[..|items| - 1], r, read)
    ensures var last := read(items[|items| - 1]);
            Each(items, if r.None? || last.None? then None else Some(r.value + [last.value]), read)
  {
    var init := items[..|items| - 1];
    assert forall i :: 0 <= i < |init| ==> init[i] == items[i];
    if r.None? {
      var i :| 0 <= i < |init| && read(init[i]).None?;
      assert read(items[i]).None?;
    }
  }

  lemma {:induction false} SegmentsRead(n: nat, segs: seq<string>)
    requires forall s :: s in segs ==> |s| <= n
    ensures Each(segs, ReadSegments(n, segs), ReadSegment)
  {
    if segs != [] {
      SegmentsRead(n, segs[..|segs| - 1]);
      EachSnoc(segs, ReadSegments(n, segs[..|segs| - 1]), ReadSegment);
    }
  }

  lemma {:induction false} CondsRead(n: nat, conds: seq<(string, string)>)
    requires forall c :: c in conds ==> |c.1| < n
    ensures Each(conds, ReadConds(n, conds), ReadCond)
  {
    if conds != [] {
      CondsRead(n, conds[..|conds| - 1]);
      EachSnoc(conds, ReadConds(n, conds[..|conds| - 1]), ReadCond);
    }
  }

  // ----- printed text has its separators in brackets -----

  lemma FlatName(s: string)
    requires Name(s)
    ensures Flat(s) && Plain('.', s) && Plain(',', s) && '[' !in s
  {
    assert forall i :: 0 <= i < |s| ==> s[i] in s;
  }

  lemma FlatField(s: string)
    requires Field(s)
    ensures Flat(s) && Plain(',', s) && '=' !in s
  {
    assert forall i :: 0 <= i < |s| ==> s[i] in s;
  }

  lemma FlatLiteral(s: string)
    requires LiteralText(s)
    ensures Flat(s) && Plain(',', s) && s[0] != '$'
  {
    assert forall i :: 0 <= i < |s| ==> s[i] in s;
  }

  ghost predicate Solid(t: string) {
    t != "" && Balanced(t) && Plain(',', t)
  }

  lemma SolidAppend(a: string, b: string)
    requires Solid(a) && Solid(b)
    ensures Solid(a + b)
  {
    BalancedAppend(a, b);
    PlainAppend(',', a, b);
  }

  lemma SolidFlat(t: string)
    requires t != "" && Flat(t) && Plain(',', t)
    ensures Solid(t)
  {
    FlatBalanced(t);
  }

  lemma {:induction false} JoinSolid(pieces: seq<string>)
    requires pieces != [] && forall i :: 0 <= i < |pieces| ==> Solid(pieces[i])
    ensures Solid(Join('.', pieces))
  {
    if |pieces| > 1 {
      JoinSolid(pieces[..|pieces| - 1]);
      SolidFlat(".");
      SolidAppend(Join('.', pieces[..|pieces| - 1]), ".");
      SolidAppend(Join('.', pieces[..|pieces| - 1]) + ".", pieces[|pieces| - 1]);
    }
  }

  lemma {:induction false} PathSolid(p: Path)
    requires WellFormed(p)
    ensures Solid(Print(p))
    decreases p, 1
  {
    forall i | 0 <= i < |p| ensures Solid(PrintSegments(p)[i]) {
      SegmentSolid(p[i]);
    }
    JoinSolid(PrintSegments(p));
  }

  lemma {:induction false} SegmentSolid(s: Segment)
    requires SegmentOk(s)
    ensures Solid(PrintSegment(s)) && Plain('.', PrintSegment(s))
    decreases s, 1
  {
    match s
    case Any => SolidFlat("*");
    case MapKey => SolidFlat("{$key}");
    case Key(name) =>
      FlatName(name);
      SolidFlat(name);
    case Select(name, conds) => SelectSolid(s);
  }

  lemma {:induction false} SelectSolid(s: Segment)
    requires SegmentOk(s) && s.Select?
    ensures Solid(PrintSegment(s)) && Plain('.', PrintSegment(s))
    decreases s, 0
  {
    CondsSolid(s.conds);
    JoinBalanced(',', PrintConds(s.conds));
    var inner := Join(',', PrintConds(s.conds));
    InBrackets(',', inner);
    InBrackets('.', inner);
    FlatName(s.name);
    SolidFlat(s.name);
    SolidAppend(s.name, "[" + inner + "]");
    PlainAppend('.', s.name, "[" + inner + "]");
  }

  lemma {:induction false} CondsSolid(conds: seq<Cond>)
    requires forall i :: 0 <= i < |conds| ==> CondOk(conds[i])
    ensures AllPlain(',', PrintConds(conds))
    decreases conds
  {
    forall i | 0 <= i < |conds| ensures Balanced(PrintConds(conds)[i]) && Plain(',', PrintConds(conds)[i]) {
      var c := conds[i];
      FlatField(c.field);
      SolidFlat(c.field);
      SolidFlat("=");
      SolidAppend(c.field, "=");
      ValueSolid(c.value);
      SolidAppend(c.field + "=", PrintValue(c.value));
    }
  }

  lemma {:induction false} ValueSolid(v: Value)
    requires ValueOk(v)
    ensures Solid(PrintValue(v))
    decreases v
  {
    match v
    case Text(text) =>
      FlatLiteral(text);
      SolidFlat(text);
    case OfRecord(path) =>
      PathSolid(path);
      SolidFlat(REC);
      SolidAppend(REC, Print(path));
    case OfRoot(path) =>
      PathSolid(path);
      SolidFlat(ROOT);
      SolidAppend(ROOT, Print(path));
  }

  // ----- reading what was printed -----

  /** Printing a path and reading the text gives the path back. */
  lemma {:induction false} ReadPrint(p: Path)
    requires WellFormed(p)
    ensures ReadPath(Print(p)) == Some(p)
    decreases p, 1
  {
    PathSolid(p);
    var text, segs := Print(p), PrintSegments(p);
    forall i | 0 <= i < |segs| ensures Balanced(segs[i]) && Plain('.', segs[i]) {
      SegmentSolid(p[i]);
    }
    PiecesJoin('.', segs);
    SegmentsRead(|text|, segs);
    forall i | 0 <= i < |segs| ensures ReadSegment(segs[i]) == Some(p[i]) {
      ReadPrintSegment(p[i]);
    }
    assert ReadSegments(|text|, segs).value == p;
  }

  lemma {:induction false} ReadPrintSegment(s: Segment)
    requires SegmentOk(s)
    ensures ReadSegment(PrintSegment(s)) == Some(s)
    decreases s, 1
  {
    match s
    case Any =>
    case MapKey =>
    case Key(name) =>
      FlatName(name);
      KeyParses(name);
    case Select(name, conds) => ReadPrintSelect(s);
  }

  lemma KeyParses(name: string)
    requires Name(name)
    ensures ParseSegment(name) == PKey(name)
  {
    FlatName(name);
    assert name[0] in name;
  }

  function Raw(conds: seq<Cond>): (r: seq<(string, string)>)
    ensures |r| == |conds|
  {
    seq(|conds|, i requires 0 <= i < |conds| => (conds[i].field, PrintValue(conds[i].value)))
  }

  /** A printed selector parses to its name and its conditions, their values as printed. */
  lemma SelectParses(s: Segment)
    requires SegmentOk(s) && s.Select?
    ensures ParseSegment(PrintSegment(s)) == PSelect(s.name, Raw(s.conds))
  {
    var parts := PrintConds(s.conds);
    assert Conditions(Join(',', parts)) == Some(parts) by {
      CondsSolid(s.conds);
      JoinBalanced(',', parts);
      PiecesJoin(',', parts);
    }
    assert ParseConditions(parts) == Some(Raw(s.conds)) by {
      forall i | 0 <= i < |s.conds| ensures ParseCondition(parts[i]) == Some(Raw(s.conds)[i]) {
        ConditionParses(s.conds[i]);
      }
      CondsParse(parts, Raw(s.conds));
    }
    CutsParse(s.name, Join(',', parts), parts, Raw(s.conds));
  }

  lemma CutsParse(name: string, inner: string, parts: seq<string>, conds: seq<(string, string)>)
    requires Name(name) && Conditions(inner) == Some(parts) && 1 <= |parts| <= 4
             && ParseConditions(parts) == Some(conds)
    ensures ParseSegment(name + ("[" + inner + "]")) == PSelect(name, conds)
  {
    SegmentIsSelector(name, inner);
    SelectorParses(name, inner, parts, conds);
  }

  lemma SegmentIsSelector(name: string, inner: string)
    requires Name(name)
    ensures ParseSegment(name + ("[" + inner + "]")) == ParseSelector(name, inner)
  {
    SelectCuts(name, inner);
  }

  lemma SelectorParses(name: string, inner: string, parts: seq<string>, conds: seq<(string, string)>)
    requires Conditions(inner) == Some(parts) && |parts| <= 4 && ParseConditions(parts) == Some(conds)
    ensures ParseSelector(name, inner) == PSelect(name, conds)
  {}

  lemma CondsParse(parts: seq<string>, conds: seq<(string, string)>)
    requires |parts| == |conds| && forall i :: 0 <= i < |parts| ==> ParseCondition(parts[i]) == Some(conds[i])
    ensures ParseConditions(parts) == Some(conds)
  {
    var r := ParseConditions(parts);
    assert r.Some?;
    assert r.value == conds;
  }

  lemma SelectCuts(name: string, inner: string)
    requires Name(name)
    ensures var seg := name + ("[" + inner + "]");
            && IndexOf(seg, '[') == |name| && seg[|seg| - 1] == ']' && seg[..|name|] == name
            && seg[|name| + 1..|seg| - 1] == inner && seg != "*" && seg != "{$key}"
  {
    FlatName(name);
    var seg := name + ("[" + inner + "]");
    assert seg == name + ['['] + (inner + "]");
    IndexOfAppend(name, '[', inner + "]");
    assert name[0] in name && seg[0] == name[0];
  }

  lemma ConditionParses(c: Cond)
    requires CondOk(c)
    ensures ParseCondition(PrintCond(c)) == Some((c.field, PrintValue(c.value)))
  {
    FlatField(c.field);
    ValueSolid(c.value);
    var part := PrintCond(c);
    assert part == c.field + ['='] + PrintValue(c.value);
    IndexOfAppend(c.field, '=', PrintValue(c.value));
    assert part[..|c.field|] == c.field && part[|c.field| + 1..] == PrintValue(c.value);
  }

  lemma {:induction false} ReadPrintSelect(s: Segment)
    requires SegmentOk(s) && s.Select?
    ensures ReadSegment(PrintSegment(s)) == Some(s)
    decreases s, 0
  {
    SelectParses(s);
    var raw, n := Raw(s.conds), |PrintSegment(s)|;
    forall i | 0 <= i < |raw| ensures ReadCond(raw[i]) == Some(s.conds[i]) {
      ReadPrintValue(s.conds[i].value);
    }
    CondsRead(n, raw);
    assert ReadConds(n, raw).value == s.conds;
  }

  lemma {:induction false} ReadPrintValue(v: Value)
    requires ValueOk(v)
    ensures ReadValue(PrintValue(v)) == Some(v)
    decreases v
  {
    match v
    case Text(text) =>
      FlatLiteral(text);
    case OfRecord(path) =>
      ReadPrint(path);
      ReadReference(Print(path), path);
    case OfRoot(path) =>
      ReadPrint(path);
      ReadReference(Print(path), path);
  }

  lemma ReadReference(text: string, path: Path)
    requires ReadPath(text) == Some(path)
    ensures ReadValue(REC + text) == Some(OfRecord(path)) && ReadValue(ROOT + text) == Some(OfRoot(path))
  {
    ReferenceStarts(text);
    assert ReadValue(REC + text) == Some(OfRecord(path));
    assert ReadValue(ROOT + text) == Some(OfRoot(path));
  }

  lemma ReferenceStarts(text: string)
    ensures StartsWith(REC + text, REC) && (REC + text)[|REC|..] == text && |REC| == 5
    ensures StartsWith(ROOT + text, ROOT) && (ROOT + text)[|ROOT|..] == text && |ROOT| == 6
    ensures !StartsWith(ROOT + text, REC)
  {
    assert (ROOT + text)[2] == 'o' && REC[2] == 'e';
  }

  // ----- printing what was read -----

  /** A text that reads as a path is the one that path prints. */
  lemma {:induction false} PrintRead(text: string)
    requires ReadPath(text).Some?
    ensures WellFormed(ReadPath(text).value) && Print(ReadPath(text).value) == text
    decreases |text|, 5
  {
    var p, segs := ReadPath(text).value, Pieces('.', text);
    SegmentsRead(|text|, segs);
    forall i | 0 <= i < |segs| ensures SegmentOk(p[i]) && PrintSegment(p[i]) == segs[i] {
      assert segs[i] in segs;
      PrintReadSegment(segs[i]);
    }
    assert PrintSegments(p) == segs;
    JoinPieces('.', text);
  }

  lemma {:induction false} PrintReadSegment(seg: string)
    requires ReadSegment(seg).Some?
    ensures SegmentOk(ReadSegment(seg).value) && PrintSegment(ReadSegment(seg).value) == seg
    decreases |seg|, 3
  {
    match ParseSegment(seg)
    case PAny =>
    case PMapKey =>
    case PKey(name) => ParsedKey(seg);
    case PSelect(name, raw) =>
      var conds := ReadConds(|seg|, raw).value;
      assert Raw(conds) == raw && forall i :: 0 <= i < |conds| ==> ValueOk(conds[i].value) by {
        PrintReadConds(|seg|, raw);
      }
      ParsedSelect(seg, name, conds);
    case PBad =>
  }

  lemma {:induction false} PrintReadConds(n: nat, raw: seq<(string, string)>)
    requires (forall c :: c in raw ==> |c.1| < n) && ReadConds(n, raw).Some?
    ensures var conds := ReadConds(n, raw).value;
            Raw(conds) == raw && forall i :: 0 <= i < |conds| ==> ValueOk(conds[i].value)
    decreases n, 2
  {
    var conds := ReadConds(n, raw).value;
    CondsRead(n, raw);
    forall i | 0 <= i < |raw| ensures Raw(conds)[i] == raw[i] && ValueOk(conds[i].value) {
      assert raw[i] in raw && ReadCond(raw[i]) == Some(conds[i]);
      PrintReadValue(raw[i].1);
    }
  }

  lemma ParsedKey(seg: string)
    requires ParseSegment(seg).PKey?
    ensures ParseSegment(seg).name == seg && Name(seg)
  {}

  /** What a segment that parses as a selector is made of. */
  lemma SelectorCut(seg: string, name: string, conds: seq<(string, string)>) returns (inner: string)
    requires ParseSegment(seg) == PSelect(name, conds)
    ensures seg == name + ("[" + inner + "]") && Name(name)
    ensures var parts := Pieces(',', inner); |parts| <= 4 && ParseConditions(parts) == Some(conds)
  {
    var open := SelectorBrackets(seg);
    inner := seg[open + 1..|seg| - 1];
    SelectorOf(seg[..open], inner, name, conds);
    CutAt(seg, open);
  }

  /** Where the brackets of a selector stand. */
  lemma SelectorBrackets(seg: string) returns (open: nat)
    requires ParseSegment(seg).PSelect?
    ensures open < |seg| - 1 && seg[open] == '[' && seg[|seg| - 1] == ']' && Name(seg[..open])
    ensures ParseSegment(seg) == ParseSelector(seg[..open], seg[open + 1..|seg| - 1])
  {
    var at := IndexOf(seg, '[');
    assert at >= 0 && seg[|seg| - 1] == ']' && Name(seg[..at]);
    open := at;
    BracketsApart(seg, open);
  }

  lemma BracketsApart(seg: string, open: nat)
    requires open < |seg| && seg[open] == '[' && seg[|seg| - 1] == ']'
    ensures open < |seg| - 1
  {}

  lemma SelectorOf(start: string, inner: string, name: string, conds: seq<(string, string)>)
    requires ParseSelector(start, inner) == PSelect(name, conds)
    ensures start == name
    ensures var parts := Pieces(',', inner); |parts| <= 4 && ParseConditions(parts) == Some(conds)
  {}

  lemma CutAt(seg: string, open: nat)
    requires open < |seg| - 1 && seg[open] == '[' && seg[|seg| - 1] == ']'
    ensures seg == seg[..open] + ("[" + seg[open + 1..|seg| - 1] + "]")
  {}

  /** A segment that parses as a selector is its name, a bracket, its conditions joined, and a bracket. */
  lemma ParsedSelect(seg: string, name: string, conds: seq<Cond>)
    requires ParseSegment(seg) == PSelect(name, Raw(conds)) && forall i :: 0 <= i < |conds| ==> ValueOk(conds[i].value)
    ensures SegmentOk(Select(name, conds)) && PrintSegment(Select(name, conds)) == seg
  {
    var inner := SelectorCut(seg, name, Raw(conds));
    ParsedConditions(Pieces(',', inner), conds);
    JoinPieces(',', inner);
  }

  lemma ParsedConditions(parts: seq<string>, conds: seq<Cond>)
    requires ParseConditions(parts) == Some(Raw(conds))
    ensures PrintConds(conds) == parts && forall i :: 0 <= i < |conds| ==> Field(conds[i].field)
  {
    forall i | 0 <= i < |parts| ensures PrintConds(conds)[i] == parts[i] && Field(conds[i].field) {
      assert ParseCondition(parts[i]) == Some(Raw(conds)[i]);
      ParsedCondition(parts[i], conds[i]);
    }
  }

  lemma ParsedCondition(part: string, c: Cond)
    requires ParseCondition(part) == Some((c.field, PrintValue(c.value)))
    ensures PrintCond(c) == part && Field(c.field)
  {
    var eq := IndexOf(part, '=');
    assert part == part[..eq] + "=" + part[eq + 1..];
  }

  lemma {:induction false} PrintReadValue(raw: string)
    requires ReadValue(raw).Some?
    ensures ValueOk(ReadValue(raw).value) && PrintValue(ReadValue(raw).value) == raw
    decreases |raw|, 6
  {
    if StartsWith(raw, REC) {
      PrintRead(raw[5..]);
      PrefixFirst(raw, REC);
      assert ReadValue(raw).value == OfRecord(ReadPath(raw[5..]).value);
    } else if StartsWith(raw, ROOT) {
      PrintRead(raw[6..]);
      PrefixFirst(raw, ROOT);
      assert ReadValue(raw).value == OfRoot(ReadPath(raw[6..]).value);
    } else {
      assert ReadValue(raw).value == Text(raw);
    }
  }

  lemma PrefixFirst(text: string, prefix: string)
    requires StartsWith(text, prefix)
    ensures text == prefix + text[|prefix|..]
  {}

  // ----- the validity check -----

  /**
   A text reads as a path nested no deeper than what `depth` leaves of the bound, and at the top not a `$rec` path.
   */
  ghost predicate Fits(text: string, depth: nat, top: bool) {
    ReadPath(text).Some? && Within(ReadPath(text).value, MAX_DEPTH - depth)
      && !(top && ReadPath(text).value[0] == Key("$rec"))
  }

  ghost predicate SegmentFits(seg: string, depth: nat) {
    ReadSegment(seg).Some? && SegmentWithin(ReadSegment(seg).value, MAX_DEPTH - depth)
  }

  ghost predicate ValueFits(raw: string, depth: nat) {
    ReadValue(raw).Some? && ValueWithin(ReadValue(raw).value, MAX_DEPTH - depth)
  }

  ghost predicate SegmentsFit(segs: seq<string>, depth: nat) {
    forall i :: 0 <= i < |segs| ==> SegmentFits(segs[i], depth)
  }

  lemma FitsParts(text: string, depth: nat, top: bool)
    requires text != "" && depth <= MAX_DEPTH
    ensures Fits(text, depth, top) <==>
              SegmentsFit(Pieces('.', text), depth) && !(top && ReadSegment(Pieces('.', text)[0]) == Some(Key("$rec")))
  {
    var segs := Pieces('.', text);
    var r := ReadSegments(|text|, segs);
    assert Each(segs, r, ReadSegment) by { SegmentsRead(|text|, segs); }
    assert ReadPath(text) == r;
    assert SegmentsFit(segs, depth) <==> r.Some? && Within(r.value, MAX_DEPTH - depth) by { EachFits(segs, r, depth); }
    assert r.Some? ==> ReadSegment(segs[0]) == Some(r.value[0]);
  }

  lemma EachFits(segs: seq<string>, r: Option<Path>, depth: nat)
    requires segs != [] && depth <= MAX_DEPTH && Each(segs, r, ReadSegment)
    ensures SegmentsFit(segs, depth) <==> r.Some? && Within(r.value, MAX_DEPTH - depth)
  {
    if r.Some? {
      if Within(r.value, MAX_DEPTH - depth) {
        forall i | 0 <= i < |segs| ensures SegmentFits(segs[i], depth) {
          assert ReadSegment(segs[i]) == Some(r.value[i]);
        }
      }
      if SegmentsFit(segs, depth) {
        forall i | 0 <= i < |segs| ensures SegmentWithin(r.value[i], MAX_DEPTH - depth) {
          assert ReadSegment(segs[i]) == Some(r.value[i]);
        }
      }
    } else {
      var i :| 0 <= i < |segs| && ReadSegment(segs[i]).None?;
      assert !SegmentFits(segs[i], depth);
    }
  }

  lemma RecParses(seg: string)
    ensures ParseSegment(seg) == PKey("$rec") <==> ReadSegment(seg) == Some(Key("$rec"))
  {}

  /**
   The check accepts exactly the texts that read as a path nested no deeper than its bound, not itself a `$rec` path.
   */
  lemma {:induction false} ValidExact(text: string, depth: nat, top: bool)
    ensures PathValid(text, depth, top) <==> Fits(text, depth, top)
    decreases |text|, 5
  {
    if text != "" && depth <= MAX_DEPTH {
      var segs := Pieces('.', text);
      assert SegmentsValid(segs, depth) <==> SegmentsFit(segs, depth) by { SegmentsValidExact(|text|, segs, depth); }
      FitsParts(text, depth, top);
      RecParses(segs[0]);
    } else if text != "" && ReadPath(text).Some? {
      assert !Within(ReadPath(text).value, MAX_DEPTH - depth);
    }
  }

  lemma {:induction false} SegmentsValidExact(n: nat, segs: seq<string>, depth: nat)
    requires depth <= MAX_DEPTH && forall s :: s in segs ==> |s| <= n
    ensures SegmentsValid(segs, depth) <==> SegmentsFit(segs, depth)
    decreases n, 4
  {
    forall i | 0 <= i < |segs| ensures SegmentValid(ParseSegment(segs[i]), depth) == SegmentFits(segs[i], depth) {
      assert segs[i] in segs;
      SegmentValidExact(segs[i], depth);
    }
  }

  lemma {:induction false} SegmentValidExact(seg: string, depth: nat)
    requires depth <= MAX_DEPTH
    ensures SegmentValid(ParseSegment(seg), depth) <==> SegmentFits(seg, depth)
    decreases |seg|, 3
  {
    var s := ParseSegment(seg);
    if s.PSelect? {
      assert SegmentFits(seg, depth) <==> ValuesFit(s.conds, depth) by { SelectorFits(seg, s.name, s.conds, depth); }
      assert ValuesValid(s.conds, depth) <==> ValuesFit(s.conds, depth) by { ValuesValidExact(|seg|, s.conds, depth); }
    }
  }

  ghost predicate ValuesFit(conds: seq<(string, string)>, depth: nat) {
    forall j :: 0 <= j < |conds| ==> ValueFits(conds[j].1, depth)
  }

  lemma {:induction false} ValuesValidExact(n: nat, conds: seq<(string, string)>, depth: nat)
    requires depth <= MAX_DEPTH && forall c :: c in conds ==> |c.1| < n
    ensures ValuesValid(conds, depth) <==> ValuesFit(conds, depth)
    decreases n, 2
  {
    forall j | 0 <= j < |conds| ensures ValueValid(conds[j].1, depth) == ValueFits(conds[j].1, depth) {
      assert conds[j] in conds;
      ValueValidExact(conds[j].1, depth);
    }
  }

  lemma SelectorFits(seg: string, name: string, conds: seq<(string, string)>, depth: nat)
    requires ParseSegment(seg) == PSelect(name, conds)
    ensures SegmentFits(seg, depth) <==> ValuesFit(conds, depth)
  {
    var r := ReadConds(|seg|, conds);
    assert Each(conds, r, ReadCond) by { CondsRead(|seg|, conds); }
    CondsFit(name, conds, r, depth);
    assert ReadSegment(seg) == if r.None? then None else Some(Select(name, r.value));
  }

  lemma CondsFit(name: string, conds: seq<(string, string)>, r: Option<seq<Cond>>, depth: nat)
    requires Each(conds, r, ReadCond)
    ensures r.Some? && SegmentWithin(Select(name, r.value), MAX_DEPTH - depth) <==> ValuesFit(conds, depth)
  {
    if r.Some? {
      assert forall j :: 0 <= j < |conds| ==> ReadCond(conds[j]) == Some(r.value[j]);
    } else {
      var j :| 0 <= j < |conds| && ReadCond(conds[j]).None?;
      assert !ValueFits(conds[j].1, depth);
    }
  }

  lemma {:induction false} ValueValidExact(raw: string, depth: nat)
    requires depth <= MAX_DEPTH
    ensures ValueValid(raw, depth) <==> ValueFits(raw, depth)
    decreases |raw|, 6
  {
    if StartsWith(raw, REC) {
      assert PathValid(raw[5..], depth + 1, false) <==> Fits(raw[5..], depth + 1, false) by {
        ValidExact(raw[5..], depth + 1, false);
      }
      ReferenceFits(raw, raw[5..], depth);
    } else if StartsWith(raw, ROOT) {
      assert PathValid(raw[6..], depth + 1, false) <==> Fits(raw[6..], depth + 1, false) by {
        ValidExact(raw[6..], depth + 1, false);
      }
      ReferenceFits(raw, raw[6..], depth);
    }
  }

  lemma ReferenceFits(raw: string, text: string, depth: nat)
    requires if StartsWith(raw, REC) then text == raw[5..] else StartsWith(raw, ROOT) && text == raw[6..]
    ensures ValueFits(raw, depth) <==> Fits(text, depth + 1, false)
  {
    var r := ReadPath(text);
    if r.Some? {
      assert ReadValue(raw).Some? && ReadValue(raw).value.path == r.value;
      assert ValueWithin(ReadValue(raw).value, MAX_DEPTH - depth) == Within(r.value, MAX_DEPTH - (depth + 1));
    }
  }
}
