/**
 Walking a path over a parsed body (server/adapters/api.js): the walker works on text, parses as it goes and gives up
 on a malformed segment or past its depth bound; on a valid path it does neither, and computes what the path's tree
 means.
 */
module PathWalk {
  import opened Basics
  import opened PathSyntax
  import opened PathTrees

  // ----- properties and scalars -----

  predicate Digits(s: string) {
    forall i :: 0 <= i < |s| ==> '0' <= s[i] <= '9'
  }

  function Number(s: string): nat
    requires Digits(s)
  {
    if s == "" then 0 else 10 * Number(s[..|s| - 1]) + (s[|s| - 1] as int - '0' as int)
  }

  /** A count as JavaScript writes it. */
  function Decimal(n: nat): string {
    (if n < 10 then "" else Decimal(n / 10)) + [(n % 10) as char + '0']
  }

  lemma {:induction false} DecimalReads(n: nat)
    ensures IsIndex(Decimal(n)) && Number(Decimal(n)) == n
  {
    var init, text := if n < 10 then "" else Decimal(n / 10), Decimal(n);
    assert text[..|text| - 1] == init;
    if n >= 10 { DecimalReads(n / 10); }
  }

  predicate IsIndex(name: string) {
    name != "" && Digits(name) && (name[0] != '0' || |name| == 1)
  }

  /** A member's value; undefined when there is none. */
  function Member(members: seq<(string, Json)>, name: string): (r: Json)
    ensures r == JUndefined || exists i :: 0 <= i < |members| && members[i].1 == r
  {
    if members == [] then JUndefined
    else if members[|members| - 1].0 == name then members[|members| - 1].1
    else Member(members[..|members| - 1], name)
  }

  /** An own property of an object, an element of an array by its index, or its length. */
  function Own(v: Json, name: string): Json {
    match v
    case JObject(members) => Member(members, name)
    case JArray(elems) =>
      if name == "length" then JNumber(Decimal(|elems|))
      else if IsIndex(name) && Number(name) < |elems| then elems[Number(name)] else JUndefined
    case _ => JUndefined
  }

  lemma IndexIsNotLength(name: string)
    requires IsIndex(name)
    ensures name != "length"
  {
    assert '0' <= name[0] <= '9';
  }

  /** An array's own properties: each element under its index as JavaScript writes it, and the count as `length`. */
  lemma ArrayOwn(elems: seq<Json>, i: nat)
    ensures Own(JArray(elems), Decimal(i)) == if i < |elems| then elems[i] else JUndefined
    ensures Own(JArray(elems), "length").JNumber? && IsIndex(Own(JArray(elems), "length").digits)
            && Number(Own(JArray(elems), "length").digits) == |elems|
  {
    var name := Decimal(i);
    assert IsIndex(name) && Number(name) == i && name != "length" by {
      DecimalReads(i);
      IndexIsNotLength(name);
    }
    DecimalReads(|elems|);
  }

  predicate IsObject(v: Json) {
    v.JObject? || v.JArray?
  }

  predicate Nullish(v: Json) {
    v.JUndefined? || v.JNull?
  }

  function Scalar(v: Json): (r: Json)
    ensures r.JNull? || r.JBool? || r.JNumber? || r.JString?
    decreases v
  {
    match v
    case JNumber(_) => v
    case JBool(_) => v
    case JString(text) => if |text| > 500 then JString(text[..499] + "\U{2026}") else v
    case JObject(members) =>
      var text := Member(members, "#text");
      if Nullish(text) then JNull else Scalar(text)
    case _ => JNull
  }

  /** String(v) of a scalar. */
  function Written(v: Json): string {
    match v
    case JNumber(digits) => digits
    case JBool(flag) => if flag then "true" else "false"
    case JString(text) => text
    case _ => "null"
  }

  /** Does an element's property, as a scalar, equal the wanted one as text? */
  predicate Matches(el: Json, field: string, wanted: Json) {
    var a := Scalar(Own(el, field));
    a != JNull && Written(a) == Written(wanted)
  }

  /** The first element that is an object and matches every field; undefined when none does. */
  function Find(elems: seq<Json>, fields: seq<string>, wanted: seq<Json>): Json
    requires |fields| == |wanted|
  {
    if elems == [] then JUndefined
    else if IsObject(elems[0]) && forall j :: 0 <= j < |fields| ==>
      Matches(elems[0], fields[j], wanted[j]) then elems[0]
    else Find(elems[1..], fields, wanted)
  }

  predicate AnyNull(wanted: seq<Json>) {
    exists j :: 0 <= j < |wanted| && Nullish(wanted[j])
  }

  // ----- the walker -----

  /** What a path may refer to: the map key, the record and the body. */
  datatype Context = Context(key: Option<string>, rec: Json, root: Json)

  /** A value, and whether a malformed segment or the depth bound was met on the way. */
  datatype Walked = Walked(value: Json, trouble: bool)

  const NOWHERE := Walked(JUndefined, false)

  function Walk(c: Context, obj: Json, path: string, depth: nat): Walked
    decreases MAX_DEPTH + 1 - depth, 4
  {
    if depth > MAX_DEPTH then Walked(JUndefined, true) else WalkSegments(c, obj, ParsePath(path), depth)
  }

  function WalkSegments(c: Context, cur: Json, segs: seq<Parsed>, depth: nat): Walked
    requires depth <= MAX_DEPTH
    decreases MAX_DEPTH + 1 - depth, 3, |segs|
  {
    if segs == [] then Walked(cur, false)
    else if !IsObject(cur) then NOWHERE
    else
      var next := StepInto(c, cur, segs[0], depth);
      if next.trouble then Walked(JUndefined, true) else WalkSegments(c, next.value, segs[1..], depth)
  }

  function StepInto(c: Context, cur: Json, seg: Parsed, depth: nat): Walked
    requires depth <= MAX_DEPTH
    decreases MAX_DEPTH + 1 - depth, 2
  {
    match seg
    case PAny => Walked(OnlyChild(cur), false)
    case PMapKey => if c.key.None? then NOWHERE else Walked(Own(cur, c.key.value), false)
    case PKey(name) => Walked(Own(cur, name), false)
    case PSelect(name, conds) =>
      var list := Own(cur, name);
      if !list.JArray? then NOWHERE
      else
        var wanted := Wanted(c, conds, depth);
        if wanted.1 then Walked(JUndefined, true)
        else if AnyNull(wanted.0) then NOWHERE
        else Walked(Find(list.elems, Fields(conds), wanted.0), false)
    case PBad => Walked(JUndefined, true)
  }

  function OnlyChild(v: Json): Json {
    if v.JObject? && |v.members| == 1 then v.members[0].1 else JUndefined
  }

  function Fields(conds: seq<(string, string)>): seq<string> {
    seq(|conds|, i requires 0 <= i < |conds| => conds[i].0)
  }

  /** The values a selector asks for, and whether any met trouble. */
  function Wanted(c: Context, conds: seq<(string, string)>, depth: nat): (r: (seq<Json>, bool))
    requires depth <= MAX_DEPTH
    ensures |r.0| == |conds|
    decreases MAX_DEPTH + 1 - depth, 1, |conds|
  {
    if conds == [] then ([], false)
    else
      var before, last := Wanted(c, conds[..|conds| - 1], depth), RefValue(c, conds[|conds| - 1].1, depth);
      (before.0 + [last.value], before.1 || last.trouble)
  }

  function RefValue(c: Context, raw: string, depth: nat): Walked
    requires depth <= MAX_DEPTH
    decreases MAX_DEPTH + 1 - depth, 0
  {
    if StartsWith(raw, REC) then AsScalar(Walk(c, c.rec, raw[5..], depth + 1))
    else if StartsWith(raw, ROOT) then AsScalar(Walk(c, c.root, raw[6..], depth + 1))
    else Walked(JString(raw), false)
  }

  function AsScalar(w: Walked): Walked {
    Walked(Scalar(w.value), w.trouble)
  }

  // ----- what a path means -----

  /** The value a path's tree leads to: no text, no bound, nothing malformed. */
  function Eval(c: Context, cur: Json, p: Path): Json
    decreases p, 1
  {
    if p == [] then cur
    else if !IsObject(cur) then JUndefined
    else Eval(c, Into(c, cur, p[0]), p[1..])
  }

  function Into(c: Context, cur: Json, s: Segment): Json
    decreases s, 1
  {
    match s
    case Any => OnlyChild(cur)
    case MapKey => if c.key.None? then JUndefined else Own(cur, c.key.value)
    case Key(name) => Own(cur, name)
    case Select(name, conds) =>
      var list, wanted := Own(cur, name), Values(c, conds);
      if !list.JArray? || AnyNull(wanted) then JUndefined
      else Find(list.elems, FieldsOf(conds), wanted)
  }

  function FieldsOf(conds: seq<Cond>): seq<string> {
    seq(|conds|, i requires 0 <= i < |conds| => conds[i].field)
  }

  function Values(c: Context, conds: seq<Cond>): (r: seq<Json>)
    ensures |r| == |conds|
    decreases conds
  {
    seq(|conds|, i requires 0 <= i < |conds| => Refer(c, conds[i].value))
  }

  function Refer(c: Context, v: Value): Json
    decreases v
  {
    match v
    case Text(text) => JString(text)
    case OfRecord(path) => Scalar(Eval(c, c.rec, path))
    case OfRoot(path) => Scalar(Eval(c, c.root, path))
  }

  // ----- walking is evaluating -----

  lemma {:induction false} WalkIsEval(c: Context, obj: Json, text: string, depth: nat, top: bool)
    requires PathValid(text, depth, top)
    ensures ReadPath(text).Some? && Walk(c, obj, text, depth) == Walked(Eval(c, obj, ReadPath(text).value), false)
    decreases |text|, 5
  {
    ValidExact(text, depth, top);
    var segs, p := Pieces('.', text), ReadPath(text).value;
    assert Each(segs, Some(p), ReadSegment) by { SegmentsRead(|text|, segs); }
    assert SegmentsValid(segs, depth);
    SegmentsWalk(c, obj, |text|, segs, p, depth);
  }

  ghost predicate Reads(segs: seq<string>, p: Path, depth: nat)
    requires depth <= MAX_DEPTH
  {
    |segs| == |p| && forall i :: 0 <= i < |segs| ==>
      ReadSegment(segs[i]) == Some(p[i]) && SegmentValid(ParseSegment(segs[i]), depth)
  }

  lemma {:induction false} SegmentsWalk(c: Context, cur: Json, n: nat, segs: seq<string>, p: Path, depth: nat)
    requires depth <= MAX_DEPTH && (forall s :: s in segs ==> |s| <= n) && Reads(segs, p, depth)
    ensures WalkSegments(c, cur, ParseSegments(segs), depth) == Walked(Eval(c, cur, p), false)
    decreases n, 4, |segs|
  {
    if segs != [] && IsObject(cur) {
      ReadsFirst(segs, p, depth);
      assert segs[0] in segs;
      SegmentSteps(c, cur, segs[0], depth);
      var next := Into(c, cur, p[0]);
      WalkFirst(c, cur, ParseSegments(segs), depth, next);
      EvalFirst(c, cur, p);
      SegmentsWalk(c, next, n, segs[1..], p[1..], depth);
    }
  }

  lemma ReadsFirst(segs: seq<string>, p: Path, depth: nat)
    requires depth <= MAX_DEPTH && Reads(segs, p, depth) && segs != []
    ensures Reads(segs[1..], p[1..], depth) && ReadSegment(segs[0]) == Some(p[0])
    ensures SegmentValid(ParseSegment(segs[0]), depth)
    ensures ParseSegments(segs)[0] == ParseSegment(segs[0]) && ParseSegments(segs)[1..] == ParseSegments(segs[1..])
  {}

  lemma WalkFirst(c: Context, cur: Json, segs: seq<Parsed>, depth: nat, next: Json)
    requires depth <= MAX_DEPTH && segs != [] && IsObject(cur)
             && StepInto(c, cur, segs[0], depth) == Walked(next, false)
    ensures WalkSegments(c, cur, segs, depth) == WalkSegments(c, next, segs[1..], depth)
  {}

  lemma EvalFirst(c: Context, cur: Json, p: Path)
    requires p != [] && IsObject(cur)
    ensures Eval(c, cur, p) == Eval(c, Into(c, cur, p[0]), p[1..])
  {}

  lemma {:induction false} SegmentSteps(c: Context, cur: Json, seg: string, depth: nat)
    requires depth <= MAX_DEPTH && ReadSegment(seg).Some? && SegmentValid(ParseSegment(seg), depth)
    ensures StepInto(c, cur, ParseSegment(seg), depth) == Walked(Into(c, cur, ReadSegment(seg).value), false)
    decreases |seg|, 3
  {
    var s := ParseSegment(seg);
    if s.PSelect? {
      var conds := ReadConds(|seg|, s.conds).value;
      assert Each(s.conds, Some(conds), ReadCond) by { CondsRead(|seg|, s.conds); }
      assert Wanted(c, s.conds, depth) == (Values(c, conds), false) by {
        assert ValuesValid(s.conds, depth);
        CondsWanted(c, |seg|, s.conds, conds, depth);
      }
      assert FieldsOf(conds) == Fields(s.conds) by { SameFields(s.conds, conds); }
      SelectSteps(c, cur, s.name, s.conds, conds, depth);
    }
  }

  lemma SameFields(raw: seq<(string, string)>, conds: seq<Cond>)
    requires |raw| == |conds| && forall i :: 0 <= i < |raw| ==> ReadCond(raw[i]) == Some(conds[i])
    ensures FieldsOf(conds) == Fields(raw)
  {
    forall i | 0 <= i < |raw| ensures FieldsOf(conds)[i] == Fields(raw)[i] {
      assert ReadCond(raw[i]) == Some(conds[i]);
    }
  }

  lemma SelectSteps(c: Context, cur: Json, name: string, raw: seq<(string, string)>, conds: seq<Cond>, depth: nat)
    requires depth <= MAX_DEPTH && Wanted(c, raw, depth) == (Values(c, conds), false) && FieldsOf(conds) == Fields(raw)
    ensures StepInto(c, cur, PSelect(name, raw), depth) == Walked(Into(c, cur, Select(name, conds)), false)
  {}

  lemma {:induction false} CondsWanted(c: Context, n: nat, raw: seq<(string, string)>, conds: seq<Cond>, depth: nat)
    requires depth <= MAX_DEPTH && (forall r :: r in raw ==> |r.1| < n) && |raw| == |conds|
    requires forall i :: 0 <= i < |raw| ==> ReadCond(raw[i]) == Some(conds[i]) && ValueValid(raw[i].1, depth)
    ensures Wanted(c, raw, depth) == (Values(c, conds), false)
    decreases n, 2, |raw|
  {
    if raw != [] {
      var k := |raw| - 1;
      ValuesSnoc(c, conds);
      assert Wanted(c, raw[..k], depth) == (Values(c, conds[..k]), false) by {
        CondsWanted(c, n, raw[..k], conds[..k], depth);
      }
      assert RefValue(c, raw[k].1, depth) == Walked(Refer(c, conds[k].value), false) by {
        assert raw[k] in raw && ReadCond(raw[k]) == Some(conds[k]);
        ValueRefers(c, raw[k].1, depth);
      }
    }
  }

  lemma ValuesSnoc(c: Context, conds: seq<Cond>)
    requires conds != []
    ensures Values(c, conds) == Values(c, conds[..|conds| - 1]) + [Refer(c, conds[|conds| - 1].value)]
  {
    var init := conds[..|conds| - 1];
    forall i | 0 <= i < |init| ensures Values(c, conds)[i] == Values(c, init)[i] {
      assert conds[i] == init[i];
    }
  }

  lemma {:induction false} ValueRefers(c: Context, raw: string, depth: nat)
    requires depth <= MAX_DEPTH && ValueValid(raw, depth)
    ensures ReadValue(raw).Some? && RefValue(c, raw, depth) == Walked(Refer(c, ReadValue(raw).value), false)
    decreases |raw|, 6
  {
    if StartsWith(raw, REC) {
      WalkIsEval(c, c.rec, raw[5..], depth + 1, false);
    } else if StartsWith(raw, ROOT) {
      WalkIsEval(c, c.root, raw[6..], depth + 1, false);
    }
  }

  // ----- a field of a record -----

  /** A record's value: `$key` is its map key, a `$root.` path starts at the body, any other at the record. */
  function GetField(c: Context, p: string): Walked {
    if p == "" then Walked(c.rec, false)
    else if p == "$key" then Walked(if c.key.None? then JUndefined else JString(c.key.value), false)
    else if StartsWith(p, ROOT) then Walk(c, c.root, p[6..], 0)
    else Walk(c, c.rec, p, 0)
  }

  /** The same on trees. */
  function FieldOf(c: Context, p: Path): Json {
    if p == [Key("$key")] then if c.key.None? then JUndefined else JString(c.key.value)
    else if |p| > 1 && p[0] == Key("$root") then Eval(c, c.root, p[1..])
    else Eval(c, c.rec, p)
  }

  lemma HeightCons(sep: char, a: string, t: string)
    requires Height(a) == 0 && sep != '[' && sep != ']'
    ensures Height(a + [sep] + t) == Height(t)
  {
    HeightAppend(a + [sep], t);
    HeightAppend(a, [sep]);
    FlatHeight([sep]);
  }

  lemma PiecesConsStep(sep: char, a: string, t: string, ch: char)
    requires Height(a) == 0 && sep != '[' && sep != ']' && Pieces(sep, a + [sep] + t) == [a] + Pieces(sep, t)
    ensures Pieces(sep, a + [sep] + t + [ch]) == [a] + Pieces(sep, t + [ch])
  {
    PiecesStep(sep, a + [sep] + t, ch);
    PiecesStep(sep, t, ch);
    HeightCons(sep, a, t);
    ConsPieces(a, Pieces(sep, t), [ch]);
  }

  /** A first piece split off. */
  lemma {:induction false} PiecesCons(sep: char, a: string, t: string)
    requires Height(a) == 0 && Plain(sep, a) && sep != '[' && sep != ']'
    ensures Pieces(sep, a + [sep] + t) == [a] + Pieces(sep, t)
  {
    if t == "" {
      AppendNothing(a + [sep]);
      PiecesStep(sep, a, sep);
      OnePiece(sep, a);
    } else {
      var init, last := t[..|t| - 1], t[|t| - 1];
      assert t == init + [last];
      PiecesCons(sep, a, init);
      PiecesConsStep(sep, a, init, last);
      AppendAssociates(a + [sep], init, [last]);
    }
  }

  lemma ConsPieces(a: string, pieces: seq<string>, t: string)
    requires pieces != []
    ensures Extended([a] + pieces, t) == [a] + Extended(pieces, t)
    ensures ([a] + pieces) + [""] == [a] + (pieces + [""])
  {}

  /** A valid `$root.` path is `$root` and a path that is valid in its own right. */
  lemma RootPath(text: string)
    requires PathValid(ROOT + text, 0, true)
    ensures PathValid(text, 0, false) && ReadPath(text).Some?
    ensures ReadPath(ROOT + text) == Some([Key("$root")] + ReadPath(text).value)
  {
    RootPieces(text);
    var segs := Pieces('.', text);
    assert text != "" && SegmentsValid(segs, 0) by { RootValid(text); }
    ValidExact(text, 0, false);
    ValidExact(ROOT + text, 0, true);
    RootRead(text);
  }

  lemma RootPieces(text: string)
    ensures Pieces('.', ROOT + text) == ["$root"] + Pieces('.', text)
  {
    FlatHeight("$root");
    assert ROOT + text == "$root" + ['.'] + text;
    PiecesCons('.', "$root", text);
  }

  lemma TailValid(a: string, segs: seq<string>)
    requires SegmentsValid([a] + segs, 0)
    ensures SegmentsValid(segs, 0)
  {
    forall i | 0 <= i < |segs| ensures SegmentValid(ParseSegment(segs[i]), 0) {
      assert ([a] + segs)[i + 1] == segs[i];
    }
  }

  lemma EmptyInvalid()
    ensures !SegmentsValid([""], 0)
  {
    assert ParseSegment("") == PBad;
    assert !SegmentValid(ParseSegment([""][0]), 0);
  }

  lemma RootValid(text: string)
    requires SegmentsValid(Pieces('.', ROOT + text), 0)
    ensures text != "" && SegmentsValid(Pieces('.', text), 0)
  {
    RootPieces(text);
    TailValid("$root", Pieces('.', text));
    EmptyInvalid();
  }

  lemma EachTail<A, B>(a: A, items: seq<A>, p: seq<B>, q: seq<B>, read: A -> Option<B>)
    requires Each(items, Some(p), read) && Each([a] + items, Some(q), read)
    ensures read(a).Some? && q == [read(a).value] + p
  {
    var all := [a] + items;
    assert all[0] == a;
    forall i | 0 <= i < |items| ensures q[i + 1] == p[i] {
      assert all[i + 1] == items[i];
    }
  }

  lemma RootRead(text: string)
    requires ReadPath(text).Some? && ReadPath(ROOT + text).Some?
    ensures ReadPath(ROOT + text) == Some([Key("$root")] + ReadPath(text).value)
  {
    var segs, all := Pieces('.', text), Pieces('.', ROOT + text);
    var p, q := ReadPath(text).value, ReadPath(ROOT + text).value;
    assert all == ["$root"] + segs by { RootPieces(text); }
    assert Each(segs, Some(p), ReadSegment) by { SegmentsRead(|text|, segs); }
    assert Each(all, Some(q), ReadSegment) by { SegmentsRead(|ROOT + text|, all); }
    EachTail("$root", segs, p, q, ReadSegment);
    RootKey();
  }

  lemma RootKey()
    ensures ReadSegment("$root") == Some(Key("$root"))
  {
    KeyParses("$root");
  }

  /** A tree that starts at the body prints with `$root.` in front. */
  lemma RootPrints(p: Path)
    requires WellFormed(p) && |p| > 1 && p[0] == Key("$root")
    ensures StartsWith(Print(p), ROOT)
  {
    JoinHead('.', PrintSegments(p));
    assert PrintSegments(p)[0] == "$root" && "$root" + ['.'] == ROOT;
  }

  lemma {:induction false} JoinHead(sep: char, pieces: seq<string>)
    requires |pieces| > 1
    ensures pieces[0] + [sep] <= Join(sep, pieces)
  {
    if |pieces| > 2 {
      JoinHead(sep, pieces[..|pieces| - 1]);
    } else {
      assert pieces[..1] == [pieces[0]];
    }
  }

  lemma KeyField()
    ensures ReadPath("$key") == Some([Key("$key")])
  {
    KeyPrints();
    ReadPrint([Key("$key")]);
  }

  lemma KeyPrints()
    ensures WellFormed([Key("$key")]) && Print([Key("$key")]) == "$key"
  {
    assert PrintSegments([Key("$key")]) == ["$key"];
  }

  lemma RootField(c: Context, text: string)
    requires PathValid(ROOT + text, 0, true)
    ensures ReadPath(ROOT + text).Some?
    ensures Walk(c, c.root, text, 0) == Walked(FieldOf(c, ReadPath(ROOT + text).value), false)
  {
    RootPath(text);
    WalkIsEval(c, c.root, text, 0, false);
    var rest := ReadPath(text).value;
    assert rest != [] by { PrintRead(text); }
    assert ([Key("$root")] + rest)[1..] == rest;
  }

  lemma RecordField(c: Context, p: string, path: Path)
    requires PathValid(p, 0, true) && ReadPath(p) == Some(path) && p != "$key" && !StartsWith(p, ROOT)
    ensures Walk(c, c.rec, p, 0) == Walked(FieldOf(c, path), false)
  {
    WalkIsEval(c, c.rec, p, 0, true);
    assert WellFormed(path) && Print(path) == p by { PrintRead(p); }
    KeyPrints();
    if |path| > 1 && path[0] == Key("$root") { RootPrints(path); }
  }

  /**
   A path the registry accepts is read on any record and body without meeting a malformed segment or the depth bound at
   any nesting level, and gives what its tree means.
   */
  lemma ValidFieldIsRead(c: Context, p: string)
    requires PathValid(p, 0, true)
    ensures ReadPath(p).Some? && GetField(c, p) == Walked(FieldOf(c, ReadPath(p).value), false)
  {
    assert ReadPath(p).Some? by { ValidExact(p, 0, true); }
    if p == "$key" {
      KeyField();
    } else if StartsWith(p, ROOT) {
      assert p == ROOT + p[6..];
      RootField(c, p[6..]);
    } else {
      RecordField(c, p, ReadPath(p).value);
    }
  }
}
