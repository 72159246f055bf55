/**
 The path and selector language of API mappings (server/adapters/api.js): its texts, what they parse to, and when they
 are valid. A path is dotted segments; a selector's conditions may hold paths that hold selectors in turn.
 */
module PathSyntax {
  import opened Basics

  // ----- brackets -----

  /** How many brackets are open at the end of a text. */
  function Height(t: string): int {
    if t == "" then 0
    else Height(t[..|t| - 1]) + match t[|t| - 1] case '[' => 1 case ']' => -1 case _ => 0
  }

  ghost predicate Balanced(t: string) {
    Height(t) == 0 && forall i :: 0 <= i <= |t| ==> Height(t[..i]) >= 0
  }

  /** No `sep` stands outside brackets. */
  ghost predicate Plain(sep: char, t: string) {
    forall i :: 0 <= i < |t| && t[i] == sep ==> Height(t[..i]) != 0
  }

  predicate Flat(t: string) {
    forall i :: 0 <= i < |t| ==> t[i] != '[' && t[i] != ']'
  }

  lemma {:induction false} HeightAppend(a: string, b: string)
    ensures Height(a + b) == Height(a) + Height(b)
  {
    if b == "" {
      assert a + b == a;
    } else {
      assert (a + b)[..|a + b| - 1] == a + b[..|b| - 1];
      HeightAppend(a, b[..|b| - 1]);
    }
  }

  lemma {:induction false} FlatHeight(t: string)
    requires Flat(t)
    ensures Height(t) == 0
  {
    if t != "" {
      FlatHeight(t[..|t| - 1]);
    }
  }

  lemma FlatBalanced(t: string)
    requires Flat(t)
    ensures Balanced(t)
  {
    forall i | 0 <= i <= |t| ensures Height(t[..i]) == 0 {
      FlatHeight(t[..i]);
    }
    assert t[..|t|] == t;
  }

  lemma PrefixOfAppend(a: string, b: string, i: nat)
    requires i <= |a| + |b|
    ensures Height((a + b)[..i]) == if i <= |a| then Height(a[..i]) else Height(a) + Height(b[..i - |a|])
  {
    if i <= |a| {
      assert (a + b)[..i] == a[..i];
    } else {
      assert (a + b)[..i] == a + b[..i - |a|];
      HeightAppend(a, b[..i - |a|]);
    }
  }

  lemma BalancedAppend(a: string, b: string)
    requires Balanced(a) && Balanced(b)
    ensures Balanced(a + b)
  {
    HeightAppend(a, b);
    forall i | 0 <= i <= |a + b| ensures Height((a + b)[..i]) >= 0 {
      PrefixOfAppend(a, b, i);
    }
  }

  lemma PlainAppend(sep: char, a: string, b: string)
    requires Plain(sep, a) && Plain(sep, b) && Height(a) == 0
    ensures Plain(sep, a + b)
  {
    assert a[..|a|] == a;
    forall i | 0 <= i < |a + b| && (a + b)[i] == sep ensures Height((a + b)[..i]) != 0 {
      PrefixOfAppend(a, b, i);
    }
  }

  lemma InBracketsHeight(t: string, i: nat)
    requires i <= |t| + 2
    ensures Height(("[" + t + "]")[..i]) == if i == 0 then 0 else if i <= |t| + 1 then 1 + Height(t[..i - 1])
              else Height(t)
  {
    var s := "[" + t + "]";
    assert Height("[") == 1 && Height("]") == -1 by { assert "["[..0] == "" && "]"[..0] == ""; }
    if 0 < i <= |t| + 1 {
      assert s[..i] == "[" + t[..i - 1];
      HeightAppend("[", t[..i - 1]);
    } else if i > 0 {
      assert s[..i] == ("[" + t) + "]";
      HeightAppend("[" + t, "]");
      HeightAppend("[", t);
    }
  }

  /** A balanced text in brackets is balanced, and shows no separator. */
  lemma InBrackets(sep: char, t: string)
    requires Balanced(t) && sep != '[' && sep != ']'
    ensures Balanced("[" + t + "]") && Plain(sep, "[" + t + "]")
  {
    var s := "[" + t + "]";
    forall i | 0 <= i <= |s| ensures Height(s[..i]) >= 0 && (0 < i < |s| ==> Height(s[..i]) > 0) {
      InBracketsHeight(t, i);
    }
    InBracketsHeight(t, |s|);
    assert s[..|s|] == s;
  }

  // ----- splitting -----

  /** A text cut at every `sep` outside brackets. */
  function Pieces(sep: char, t: string): (r: seq<string>)
    ensures r != [] && forall p :: p in r ==> |p| <= |t|
  {
    if t == "" then [""]
    else
      var before := Pieces(sep, t[..|t| - 1]);
      if t[|t| - 1] == sep && Height(t[..|t| - 1]) == 0 then before + [""]
      else before[..|before| - 1] + [before[|before| - 1] + [t[|t| - 1]]]
  }

  function Join(sep: char, pieces: seq<string>): string {
    if pieces == [] then ""
    else if |pieces| == 1 then pieces[0]
    else Join(sep, pieces[..|pieces| - 1]) + [sep] + pieces[|pieces| - 1]
  }

  /** The last piece, longer. */
  function Extended(pieces: seq<string>, t: string): seq<string>
    requires pieces != []
  {
    pieces[..|pieces| - 1] + [pieces[|pieces| - 1] + t]
  }

  lemma JoinExtended(sep: char, pieces: seq<string>, t: string)
    requires pieces != []
    ensures Join(sep, Extended(pieces, t)) == Join(sep, pieces) + t
  {
    var e := Extended(pieces, t);
    if |pieces| > 1 {
      assert e[..|e| - 1] == pieces[..|pieces| - 1];
      AppendAssociates(Join(sep, pieces[..|pieces| - 1]) + [sep], pieces[|pieces| - 1], t);
    }
  }

  lemma {:induction false} JoinPieces(sep: char, t: string)
    ensures Join(sep, Pieces(sep, t)) == t
  {
    if t != "" {
      var init, before := t[..|t| - 1], Pieces(sep, t[..|t| - 1]);
      assert t == init + [t[|t| - 1]];
      JoinPieces(sep, init);
      if t[|t| - 1] == sep && Height(init) == 0 {
        assert (before + [""])[..|before|] == before;
        AppendNothing(Join(sep, before) + [sep]);
      } else {
        JoinExtended(sep, before, [t[|t| - 1]]);
      }
    }
  }

  lemma PiecesStep(sep: char, s: string, c: char)
    ensures Pieces(sep, s + [c]) == if c == sep && Height(s) == 0 then Pieces(sep, s) + [""]
              else Extended(Pieces(sep, s), [c])
  {
    assert (s + [c])[..|s|] == s;
  }

  lemma ExtendedTwice(pieces: seq<string>, t: string, u: string)
    requires pieces != []
    ensures Extended(Extended(pieces, t), u) == Extended(pieces, t + u)
  {
    AppendAssociates(pieces[|pieces| - 1], t, u);
  }

  /** After a text with no bracket open, a text without separators lengthens the last piece. */
  lemma {:induction false} PiecesPlain(sep: char, a: string, t: string)
    requires Height(a) == 0 && Plain(sep, t)
    ensures Pieces(sep, a + t) == Extended(Pieces(sep, a), t)
  {
    if t == "" {
      AppendNothing(a);
      AppendNothing(Pieces(sep, a)[|Pieces(sep, a)| - 1]);
    } else {
      var init, last := t[..|t| - 1], t[|t| - 1];
      assert t == init + [last];
      PlainInit(sep, t);
      PiecesPlain(sep, a, init);
      AppendAssociates(a, init, [last]);
      HeightAppend(a, init);
      PiecesStep(sep, a + init, last);
      ExtendedTwice(Pieces(sep, a), init, [last]);
    }
  }

  lemma PlainInit(sep: char, t: string)
    requires Plain(sep, t) && t != ""
    ensures Plain(sep, t[..|t| - 1])
  {
    var init := t[..|t| - 1];
    forall i | 0 <= i < |init| && init[i] == sep ensures Height(init[..i]) != 0 {
      assert init[..i] == t[..i];
    }
  }

  ghost predicate AllPlain(sep: char, pieces: seq<string>) {
    forall i :: 0 <= i < |pieces| ==> Balanced(pieces[i]) && Plain(sep, pieces[i])
  }

  lemma {:induction false} JoinBalanced(sep: char, pieces: seq<string>)
    requires AllPlain(sep, pieces) && sep != '[' && sep != ']'
    ensures Balanced(Join(sep, pieces))
  {
    if |pieces| > 1 {
      JoinBalanced(sep, pieces[..|pieces| - 1]);
      FlatBalanced([sep]);
      BalancedAppend(Join(sep, pieces[..|pieces| - 1]), [sep]);
      BalancedAppend(Join(sep, pieces[..|pieces| - 1]) + [sep], pieces[|pieces| - 1]);
    }
  }

  /** What was joined is what is split. */
  lemma {:induction false} PiecesJoin(sep: char, pieces: seq<string>)
    requires pieces != [] && AllPlain(sep, pieces) && sep != '[' && sep != ']'
    ensures Pieces(sep, Join(sep, pieces)) == pieces
  {
    if |pieces| == 1 {
      assert pieces == [pieces[0]];
      OnePiece(sep, pieces[0]);
    } else {
      var init, last := pieces[..|pieces| - 1], pieces[|pieces| - 1];
      assert pieces == init + [last];
      assert Pieces(sep, Join(sep, init)) == init by { PiecesJoin(sep, init); }
      assert Height(Join(sep, init)) == 0 by { JoinBalanced(sep, init); }
      OnePieceMore(sep, Join(sep, init), last);
    }
  }

  lemma OnePiece(sep: char, t: string)
    requires Plain(sep, t)
    ensures Pieces(sep, t) == [t]
  {
    PiecesPlain(sep, "", t);
    assert "" + t == t;
    ExtendedEmpty([], t);
  }

  lemma ExtendedEmpty(pieces: seq<string>, t: string)
    ensures Extended(pieces + [""], t) == pieces + [t]
  {
    assert (pieces + [""])[..|pieces|] == pieces;
    assert "" + t == t;
  }

  lemma OnePieceMore(sep: char, a: string, last: string)
    requires Height(a) == 0 && Plain(sep, last) && sep != '[' && sep != ']'
    ensures Pieces(sep, a + [sep] + last) == Pieces(sep, a) + [last]
  {
    assert Pieces(sep, a + [sep]) == Pieces(sep, a) + [""] by { PiecesStep(sep, a, sep); }
    assert Height(a + [sep]) == 0 by {
      HeightAppend(a, [sep]);
      FlatHeight([sep]);
    }
    PiecesPlain(sep, a + [sep], last);
    ExtendedEmpty(Pieces(sep, a), last);
  }

  // ----- one segment -----

  predicate NameChar(c: char) {
    'A' <= c <= 'Z' || 'a' <= c <= 'z' || '0' <= c <= '9' || c == '_' || c == '@' || c == ':' || c == '$' || c == '-'
  }

  predicate FieldChar(c: char) {
    'A' <= c <= 'Z' || 'a' <= c <= 'z' || '0' <= c <= '9' || c == '_'
  }

  predicate LiteralChar(c: char) {
    FieldChar(c) || c == ' ' || c == ':' || c == '@' || c == '+' || c == '-'
  }

  predicate Name(s: string) {
    s != "" && forall c :: c in s ==> NameChar(c)
  }

  predicate Field(s: string) {
    s != "" && forall c :: c in s ==> FieldChar(c)
  }

  predicate LiteralText(s: string) {
    s != "" && forall c :: c in s ==> LiteralChar(c)
  }

  /** Where `c` first stands, or -1. */
  function IndexOf(s: string, c: char): (i: int)
    ensures -1 <= i < |s|
    ensures i >= 0 ==> s[i] == c && c !in s[..i]
    ensures i == -1 ==> c !in s
  {
    if s == "" then -1
    else if s[0] == c then 0
    else
      var i := IndexOf(s[1..], c);
      if i == -1 then -1 else (assert s[..i + 1] == [s[0]] + s[1..][..i]; i + 1)
  }

  lemma IndexOfAppend(a: string, c: char, b: string)
    requires c !in a
    ensures IndexOf(a + [c] + b, c) == |a|
  {
    var s := a + [c] + b;
    var i := IndexOf(s, c);
    assert s[|a|] == c && forall j :: 0 <= j < |a| ==> s[j] == a[j];
    forall k | |a| < k <= |s| ensures c in s[..k] {
      assert s[..k][|a|] == c;
    }
  }

  /** A segment as the parser gives it: a condition's value is still text. */
  datatype Parsed = PAny | PMapKey | PKey(name: string) | PSelect(name: string, conds: seq<(string, string)>) | PBad

  function Conditions(inner: string): Option<seq<string>> {
    if forall i :: 0 <= i <= |inner| ==> Height(inner[..i]) >= 0 then
      if Height(inner) == 0 then Some(Pieces(',', inner)) else None
    else None
  }

  function ParseCondition(part: string): (r: Option<(string, string)>)
    ensures r.Some? ==> |r.value.1| < |part|
  {
    var eq := IndexOf(part, '=');
    if eq <= 0 then None
    else if !Field(part[..eq]) || part[eq + 1..] == "" then None
    else Some((part[..eq], part[eq + 1..]))
  }

  function ParseConditions(parts: seq<string>): (r: Option<seq<(string, string)>>)
    ensures r.Some? ==>
              |r.value| == |parts| && forall i :: 0 <= i < |parts| ==> ParseCondition(parts[i]) == Some(r.value[i])
    ensures r.None? ==> exists i :: 0 <= i < |parts| && ParseCondition(parts[i]).None?
  {
    if parts == [] then Some([])
    else
      var init := ParseConditions(parts[..|parts| - 1]);
      var last := ParseCondition(parts[|parts| - 1]);
      if init.None? || last.None? then None else Some(init.value + [last.value])
  }

  /** What follows a selector's name, between its brackets. */
  function ParseSelector(name: string, inner: string): (r: Parsed)
    ensures r.PSelect? ==> forall c :: c in r.conds ==> |c.1| <= |inner|
  {
    var parts := Conditions(inner);
    if parts.None? || |parts.value| > 4 then PBad
    else
      var conds := ParseConditions(parts.value);
      if conds.None? then PBad else PSelect(name, conds.value)
  }

  function ParseSegment(seg: string): (r: Parsed)
    ensures r.PSelect? ==> forall c :: c in r.conds ==> |c.1| < |seg|
  {
    if seg == "*" then PAny
    else if seg == "{$key}" then PMapKey
    else
      var open := IndexOf(seg, '[');
      if open == -1 then if Name(seg) then PKey(seg) else PBad
      else if seg[|seg| - 1] != ']' then PBad
      else if !Name(seg[..open]) then PBad
      else ParseSelector(seg[..open], seg[open + 1..|seg| - 1])
  }

  function ParseSegments(segs: seq<string>): seq<Parsed> {
    seq(|segs|, i requires 0 <= i < |segs| => ParseSegment(segs[i]))
  }

  /** A path's segments. */
  function ParsePath(path: string): seq<Parsed> {
    ParseSegments(Pieces('.', path))
  }

  // ----- validity -----

  const MAX_DEPTH := 8
  const REC := "$rec."
  const ROOT := "$root."

  predicate StartsWith(s: string, prefix: string) {
    prefix <= s
  }

  predicate PathValid(path: string, depth: nat, top: bool)
    decreases MAX_DEPTH + 1 - depth, 4
  {
    && path != "" && depth <= MAX_DEPTH
    && SegmentsValid(Pieces('.', path), depth)
    && !(top && ParseSegment(Pieces('.', path)[0]) == PKey("$rec"))
  }

  predicate SegmentsValid(segs: seq<string>, depth: nat)
    requires depth <= MAX_DEPTH
    decreases MAX_DEPTH + 1 - depth, 3
  {
    forall i :: 0 <= i < |segs| ==> SegmentValid(ParseSegment(segs[i]), depth)
  }

  predicate SegmentValid(s: Parsed, depth: nat)
    requires depth <= MAX_DEPTH
    decreases MAX_DEPTH + 1 - depth, 2
  {
    s != PBad && (s.PSelect? ==> ValuesValid(s.conds, depth))
  }

  predicate ValuesValid(conds: seq<(string, string)>, depth: nat)
    requires depth <= MAX_DEPTH
    decreases MAX_DEPTH + 1 - depth, 1
  {
    forall j :: 0 <= j < |conds| ==> ValueValid(conds[j].1, depth)
  }

  predicate ValueValid(value: string, depth: nat)
    requires depth <= MAX_DEPTH
    decreases MAX_DEPTH + 1 - depth, 0
  {
    if StartsWith(value, REC) then PathValid(value[5..], depth + 1, false)
    else if StartsWith(value, ROOT) then PathValid(value[6..], depth + 1, false)
    else LiteralText(value)
  }
}
