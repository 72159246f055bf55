/**
 The path parser and walker as they run (server/adapters/api.js): loops over characters, parts and segments, with the
 two caches of parsed paths.
 */
module PathParser {
  import opened Basics
  import opened PathSyntax
  import opened PathWalk

  const SPLIT_LIMIT := 1000
  const PATHS_LIMIT := 2000

  /** What a character does to the depth. */
  function Opens(c: char): int {
    match c case '[' => 1 case ']' => -1 case _ => 0
  }

  /** Where a splitting loop is: the pieces found, the one under way, and how many brackets are open. */
  datatype Scanned = Scanned(found: seq<string>, piece: string, depth: int)

  /** After `i` characters: a separator outside brackets ends the piece, any other character lengthens it. */
  function Scan(sep: char, t: string, i: nat): Scanned
    requires i <= |t|
  {
    if i == 0 then Scanned([], "", 0)
    else
      var before := Scan(sep, t, i - 1);
      if t[i - 1] == sep && before.depth == 0 then Scanned(before.found + [before.piece], "", before.depth)
      else Scanned(before.found, before.piece + [t[i - 1]], before.depth + Opens(t[i - 1]))
  }

  lemma HeightSnoc(t: string, c: char)
    ensures Height(t + [c]) == Height(t) + Opens(c)
  {
    assert (t + [c])[..|t|] == t;
  }

  lemma ExtendedLast(found: seq<string>, piece: string, t: string)
    ensures Extended(found + [piece], t) == found + [piece + t]
  {}

  /** The scan finds the pieces of what it has read, and the height it ends at. */
  lemma {:induction false} ScanIsPieces(sep: char, t: string, i: nat)
    requires i <= |t| && Opens(sep) == 0
    ensures var s := Scan(sep, t, i);
            Pieces(sep, t[..i]) == s.found + [s.piece] && Height(t[..i]) == s.depth
  {
    if i > 0 {
      var s, c := Scan(sep, t, i - 1), t[i - 1];
      assert t[..i] == t[..i - 1] + [c];
      ScanIsPieces(sep, t, i - 1);
      assert Height(t[..i - 1] + [c]) == s.depth + Opens(c) by { HeightSnoc(t[..i - 1], c); }
      PiecesStep(sep, t[..i - 1], c);
      ExtendedLast(s.found, s.piece, [c]);
    }
  }

  /** The scan of a whole text. */
  lemma ScanAll(sep: char, t: string)
    requires Opens(sep) == 0
    ensures var s := Scan(sep, t, |t|);
            Pieces(sep, t) == s.found + [s.piece] && Height(t) == s.depth
  {
    ScanIsPieces(sep, t, |t|);
    assert t[..|t|] == t;
  }

  /** A selector's inner text that the scan never finds below no open bracket. */
  lemma Balances(t: string)
    requires forall j :: 0 <= j <= |t| ==> Scan(',', t, j).depth >= 0
    ensures var s := Scan(',', t, |t|);
            Conditions(t) == if s.depth == 0 then Some(s.found + [s.piece]) else None
  {
    ScanAll(',', t);
    forall j | 0 <= j <= |t| ensures Height(t[..j]) >= 0 {
      ScanIsPieces(',', t, j);
    }
  }

  /** A bracket closed that was not opened. */
  lemma Unbalanced(t: string, i: nat)
    requires i <= |t| && Scan(',', t, i).depth < 0
    ensures Conditions(t) == None
  {
    ScanIsPieces(',', t, i);
  }

  lemma SliceStep(t: string, start: nat, i: nat)
    requires start <= i < |t|
    ensures t[start..i + 1] == t[start..i] + [t[i]]
  {}

  /** A selector's inner text cut at its outer commas; None when its brackets do not balance. */
  method SelectorConds(inner: string) returns (parts: Option<seq<string>>)
    ensures parts == Conditions(inner)
  {
    var found: seq<string> := [];
    var depth, start, i := 0, 0, 0;
    while i < |inner|
      invariant 0 <= start <= i <= |inner|
      invariant Scan(',', inner, i) == Scanned(found, inner[start..i], depth)
      invariant forall j :: 0 <= j <= i ==> Scan(',', inner, j).depth >= 0
    {
      SliceStep(inner, start, i);
      if inner[i] == '[' {
        depth := depth + 1;
      } else if inner[i] == ']' {
        depth := depth - 1;
        if depth < 0 {
          Unbalanced(inner, i + 1);
          return None;
        }
      } else if inner[i] == ',' && depth == 0 {
        found := found + [inner[start..i]];
        start := i + 1;
      }
      i := i + 1;
    }
    Balances(inner);
    if depth != 0 { return None; }
    parts := Some(found + [inner[start..i]]);
  }

  /** A path's text cut at its outer dots. */
  method SplitNew(path: string) returns (segs: seq<string>)
    ensures segs == Pieces('.', path)
  {
    segs := [];
    var depth, cur := 0, "";
    var i := 0;
    while i < |path|
      invariant 0 <= i <= |path| && Scan('.', path, i) == Scanned(segs, cur, depth)
    {
      var ch := path[i];
      if ch == '[' { depth := depth + 1; } else if ch == ']' { depth := depth - 1; }
      if ch == '.' && depth == 0 {
        segs, cur := segs + [cur], "";
      } else {
        cur := cur + [ch];
      }
      i := i + 1;
    }
    ScanAll('.', path);
    segs := segs + [cur];
  }

  /** One segment; the conditions of a selector one by one. */
  method ParseOne(seg: string) returns (r: Parsed)
    ensures r == ParseSegment(seg)
  {
    if seg == "*" { return PAny; }
    if seg == "{$key}" { return PMapKey; }
    var open := IndexOf(seg, '[');
    if open == -1 { return if Name(seg) then PKey(seg) else PBad; }
    if seg[|seg| - 1] != ']' || !Name(seg[..open]) { return PBad; }
    var parts := SelectorConds(seg[open + 1..|seg| - 1]);
    if parts.None? || |parts.value| < 1 || |parts.value| > 4 { return PBad; }
    var conds := ParseParts(parts.value);
    if conds.None? { return PBad; }
    r := PSelect(seg[..open], conds.value);
  }

  method ParseParts(parts: seq<string>) returns (r: Option<seq<(string, string)>>)
    ensures r == ParseConditions(parts)
  {
    var conds: seq<(string, string)> := [];
    var i := 0;
    while i < |parts|
      invariant 0 <= i <= |parts| && ParseConditions(parts[..i]) == Some(conds)
    {
      assert parts[..i + 1][..i] == parts[..i];
      var eq := IndexOf(parts[i], '=');
      if eq <= 0 || !Field(parts[i][..eq]) || parts[i][eq + 1..] == "" {
        NoneBad(parts, i);
        return None;
      }
      conds := conds + [(parts[i][..eq], parts[i][eq + 1..])];
      i := i + 1;
    }
    assert parts[..|parts|] == parts;
    r := Some(conds);
  }

  lemma NoneBad(parts: seq<string>, i: nat)
    requires i < |parts| && ParseCondition(parts[i]).None?
    ensures ParseConditions(parts).None?
  {}

  method ParseAll(texts: seq<string>) returns (segs: seq<Parsed>)
    ensures segs == ParseSegments(texts)
  {
    segs := [];
    var i := 0;
    while i < |texts|
      invariant 0 <= i <= |texts| && segs == ParseSegments(texts[..i])
    {
      var seg := ParseOne(texts[i]);
      segs := segs + [seg];
      assert segs == ParseSegments(texts[..i + 1]) by { ParseNext(texts, i); }
      i := i + 1;
    }
    assert texts[..i] == texts;
  }

  lemma ParseNext(texts: seq<string>, i: nat)
    requires i < |texts|
    ensures ParseSegments(texts[..i + 1]) == ParseSegments(texts[..i]) + [ParseSegment(texts[i])]
  {
    assert texts[..i + 1] == texts[..i] + [texts[i]];
    ParseSnoc(texts[..i], texts[i]);
  }

  lemma ParseSnoc(texts: seq<string>, text: string)
    ensures ParseSegments(texts + [text]) == ParseSegments(texts) + [ParseSegment(text)]
  {}

  /** One segment of a walk. */
  lemma WalkNext(c: Context, cur: Json, segs: seq<Parsed>, i: nat, depth: nat)
    requires i < |segs| && depth <= MAX_DEPTH
    ensures WalkSegments(c, cur, segs[i..], depth)
         == if !IsObject(cur) then NOWHERE
            else var next := StepInto(c, cur, segs[i], depth);
                 if next.trouble then Walked(JUndefined, true) else WalkSegments(c, next.value, segs[i + 1..], depth)
  {
    assert segs[i..][0] == segs[i] && segs[i..][1..] == segs[i + 1..];
  }

  class Paths {
    var split: map<string, seq<string>>
    var parsed: map<string, seq<Parsed>>

    /** The caches hold what would be computed. */
    ghost predicate Valid()
      reads this
    {
      && (forall p :: p in split ==> split[p] == Pieces('.', p))
      && (forall p :: p in parsed ==> parsed[p] == PathSyntax.ParsePath(p))
    }

    constructor ()
      ensures Valid()
    {
      split, parsed := map[], map[];
    }

    method SplitPath(path: string) returns (segs: seq<string>)
      requires Valid()
      modifies this`split
      ensures Valid() && segs == Pieces('.', path)
      ensures split == old(split) || split == old(split)[path := segs]
    {
      if path in split { return split[path]; }
      segs := SplitNew(path);
      if |split| < SPLIT_LIMIT { split := split[path := segs]; }
    }

    method ParsePath(path: string) returns (segs: seq<Parsed>)
      requires Valid()
      modifies this
      ensures Valid() && segs == PathSyntax.ParsePath(path)
    {
      if path in parsed { return parsed[path]; }
      var texts := SplitPath(path);
      segs := ParseAll(texts);
      if |parsed| < PATHS_LIMIT { parsed := parsed[path := segs]; }
    }

    /** Walks a path segment by segment; a selector's references are walks of their own. */
    method WalkPath(c: Context, obj: Json, path: string, depth: nat) returns (w: Walked)
      requires Valid()
      modifies this
      ensures Valid() && w == Walk(c, obj, path, depth)
      decreases MAX_DEPTH + 1 - depth, 5
    {
      if depth > MAX_DEPTH { return Walked(JUndefined, true); }
      var segs := ParsePath(path);
      w := WalkParsed(c, obj, segs, depth);
    }

    method WalkParsed(c: Context, obj: Json, segs: seq<Parsed>, depth: nat) returns (w: Walked)
      requires Valid() && depth <= MAX_DEPTH
      modifies this
      ensures Valid() && w == WalkSegments(c, obj, segs, depth)
      decreases MAX_DEPTH + 1 - depth, 4
    {
      ghost var whole := WalkSegments(c, obj, segs, depth);
      var cur, i := obj, 0;
      assert segs[0..] == segs;
      while i < |segs|
        invariant 0 <= i <= |segs| && Valid() && whole == WalkSegments(c, cur, segs[i..], depth)
      {
        WalkNext(c, cur, segs, i, depth);
        if !IsObject(cur) { return NOWHERE; }
        var next := Step(c, cur, segs[i], depth);
        if next.trouble { return Walked(JUndefined, true); }
        cur := next.value;
        i := i + 1;
      }
      w := Walked(cur, false);
    }

    method Step(c: Context, cur: Json, seg: Parsed, depth: nat) returns (w: Walked)
      requires Valid() && depth <= MAX_DEPTH
      modifies this
      ensures Valid() && w == StepInto(c, cur, seg, depth)
      decreases MAX_DEPTH + 1 - depth, 3
    {
      match seg {
        case PAny => w := Walked(OnlyChild(cur), false);
        case PMapKey => w := if c.key.None? then NOWHERE else Walked(Own(cur, c.key.value), false);
        case PKey(name) => w := Walked(Own(cur, name), false);
        case PSelect(name, conds) =>
          var list := Own(cur, name);
          if !list.JArray? { return NOWHERE; }
          var wanted, trouble := WantedValues(c, conds, depth);
          if trouble { return Walked(JUndefined, true); }
          if AnyNull(wanted) { return NOWHERE; }
          var found := FindFirst(list.elems, Fields(conds), wanted);
          w := Walked(found, false);
        case PBad => w := Walked(JUndefined, true);
      }
    }

    method WantedValues(c: Context, conds: seq<(string, string)>, depth: nat) returns (wanted: seq<Json>, trouble: bool)
      requires Valid() && depth <= MAX_DEPTH
      modifies this
      ensures Valid() && (wanted, trouble) == Wanted(c, conds, depth)
      decreases MAX_DEPTH + 1 - depth, 2
    {
      wanted, trouble := [], false;
      var i := 0;
      while i < |conds|
        invariant 0 <= i <= |conds| && Valid()
        invariant (wanted, trouble) == Wanted(c, conds[..i], depth)
      {
        assert conds[..i + 1][..i] == conds[..i];
        var value := Reference(c, conds[i].1, depth);
        wanted, trouble := wanted + [value.value], trouble || value.trouble;
        i := i + 1;
      }
      assert conds[..|conds|] == conds;
    }

    method Reference(c: Context, raw: string, depth: nat) returns (w: Walked)
      requires Valid() && depth <= MAX_DEPTH
      modifies this
      ensures Valid() && w == RefValue(c, raw, depth)
      decreases MAX_DEPTH + 1 - depth, 1
    {
      if StartsWith(raw, REC) {
        w := WalkPath(c, c.rec, raw[5..], depth + 1);
        w := AsScalar(w);
      } else if StartsWith(raw, ROOT) {
        w := WalkPath(c, c.root, raw[6..], depth + 1);
        w := AsScalar(w);
      } else {
        w := Walked(JString(raw), false);
      }
    }

    method FindFirst(elems: seq<Json>, fields: seq<string>, wanted: seq<Json>) returns (found: Json)
      requires |fields| == |wanted|
      ensures found == Find(elems, fields, wanted)
    {
      var i := 0;
      while i < |elems|
        invariant 0 <= i <= |elems| && Find(elems, fields, wanted) == Find(elems[i..], fields, wanted)
      {
        assert elems[i..][0] == elems[i] && elems[i..][1..] == elems[i + 1..];
        if IsObject(elems[i]) && forall j :: 0 <= j < |fields| ==> Matches(elems[i], fields[j], wanted[j]) {
          return elems[i];
        }
        i := i + 1;
      }
      found := JUndefined;
    }
  }
}
