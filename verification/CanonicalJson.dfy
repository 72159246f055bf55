/**
 canonicalJson (server/adapters/util.js), the text by which a changed item is told from an unchanged one: object members
 in key order, undefined members left out, everything else as JSON.stringify writes it.
 */
module CanonicalJson {
  import opened Basics

  type Member = (string, Json)

  // ----- strings, per section 7 of RFC 8259 -----

  const HEX := "0123456789abcdef"

  function Escape(c: char): string {
    if c == '"' then "\\\""
    else if c == '\\' then "\\\\"
    else if c == '\U{8}' then "\\b"
    else if c == '\U{C}' then "\\f"
    else if c == '\n' then "\\n"
    else if c == '\r' then "\\r"
    else if c == '\t' then "\\t"
    else if c < ' ' then "\\u00" + [HEX[c as int / 16], HEX[c as int % 16]]
    else [c]
  }

  function Escaped(s: string): string {
    if s == "" then "" else Escape(s[0]) + Escaped(s[1..])
  }

  function Quote(s: string): string {
    "\"" + Escaped(s) + "\""
  }

  // ----- values -----

  /** JSON.stringify of a finite number: a sign or a digit, then digits, a point, an exponent. */
  predicate NumberText(s: string) {
    && s != "" && ('0' <= s[0] <= '9' || s[0] == '-')
    && forall i :: 0 <= i < |s| ==> NumberChar(s[i])
  }

  predicate NumberChar(c: char) {
    '0' <= c <= '9' || c == '-' || c == '+' || c == '.' || c == 'e'
  }

  /** A value JavaScript can hold: numbers are number texts, and an object has each property once. */
  ghost predicate WellFormed(v: Json) {
    match v
    case JNumber(digits) => NumberText(digits)
    case JArray(elems) => forall i :: 0 <= i < |elems| ==> WellFormed(elems[i])
    case JObject(members) =>
      && (forall i :: 0 <= i < |members| ==> WellFormed(members[i].1))
      && (forall i, j :: 0 <= i < j < |members| ==> members[i].0 != members[j].0)
    case _ => true
  }

  /** Object.keys(value).sort(), with the members that are not undefined. */
  function SortedMembers(members: seq<Member>): (r: seq<Member>)
    ensures forall m :: m in r <==> m in members && m.1 != JUndefined
  {
    if members == [] then []
    else
      var last := members[|members| - 1];
      assert members == members[..|members| - 1] + [last];
      var before := SortedMembers(members[..|members| - 1]);
      if last.1 == JUndefined then before else InsertMember(before, last)
  }

  function InsertMember(members: seq<Member>, m: Member): (r: seq<Member>)
    ensures forall x :: x in r <==> x in members || x == m
  {
    if members == [] || StringLess(members[|members| - 1].0, m.0) then members + [m]
    else
      assert members == members[..|members| - 1] + [members[|members| - 1]];
      InsertMember(members[..|members| - 1], m) + [members[|members| - 1]]
  }

  function Canonical(v: Json): string
    decreases v
  {
    match v
    case JUndefined => "null"
    case JNull => "null"
    case JBool(flag) => if flag then "true" else "false"
    case JNumber(digits) => digits
    case JString(text) => Quote(text)
    case JArray(elems) => "[" + Elements(elems) + "]"
    case JObject(members) => "{" + Members(v, SortedMembers(members)) + "}"
  }

  function Elements(elems: seq<Json>): string
    decreases elems
  {
    if elems == [] then ""
    else if |elems| == 1 then Canonical(elems[0])
    else Canonical(elems[0]) + "," + Elements(elems[1..])
  }

  function Members(whole: Json, members: seq<Member>): string
    requires forall m :: m in members ==> m.1 < whole
    decreases whole, |members|
  {
    if members == [] then ""
    else
      var first := Quote(members[0].0) + ":" + Canonical(members[0].1);
      if |members| == 1 then first else first + "," + Members(whole, members[1..])
  }

  // ----- what a value means -----

  /**
   A value up to what canonicalJson ignores: an object is a map of its defined members, undefined elsewhere is null.
   */
  datatype Meaning =
    | Null
    | Bool(flag: bool)
    | Number(digits: string)
    | String(text: string)
    | Array(elems: seq<Meaning>)
    | Object(members: map<string, Meaning>)

  function MeaningOf(v: Json): Meaning
    decreases v
  {
    match v
    case JUndefined => Null
    case JNull => Null
    case JBool(flag) => Bool(flag)
    case JNumber(digits) => Number(digits)
    case JString(text) => String(text)
    case JArray(elems) => Array(seq(|elems|, i requires 0 <= i < |elems| => MeaningOf(elems[i])))
    case JObject(members) => Object(MembersMeaning(v, members))
  }

  function MembersMeaning(whole: Json, members: seq<Member>): map<string, Meaning>
    requires forall m :: m in members ==> m.1 < whole
    decreases whole, |members|
  {
    if members == [] then map[]
    else
      var last := members[|members| - 1];
      var before := MembersMeaning(whole, members[..|members| - 1]);
      if last.1 == JUndefined then before else before[last.0 := MeaningOf(last.1)]
  }

  // ----- the order of members -----

  ghost predicate Ordered(members: seq<Member>) {
    forall i, j :: 0 <= i < j < |members| ==> StringLess(members[i].0, members[j].0)
  }

  ghost predicate DistinctKeys(members: seq<Member>) {
    forall i, j :: 0 <= i < j < |members| ==> members[i].0 != members[j].0
  }

  lemma OrderedSnoc(members: seq<Member>, m: Member)
    requires Ordered(members) && forall x :: x in members ==> StringLess(x.0, m.0)
    ensures Ordered(members + [m])
  {
    forall i | 0 <= i < |members| ensures StringLess(members[i].0, m.0) {
      assert members[i] in members;
    }
  }

  lemma {:induction false} InsertOrdered(members: seq<Member>, m: Member)
    requires Ordered(members) && forall x :: x in members ==> x.0 != m.0
    ensures Ordered(InsertMember(members, m))
  {
    if members != [] {
      var init, last := members[..|members| - 1], members[|members| - 1];
      assert members == init + [last];
      if StringLess(last.0, m.0) {
        forall x | x in members ensures StringLess(x.0, m.0) {
          if x in init { StringLessTransitive(x.0, last.0, m.0); }
        }
        OrderedSnoc(members, m);
      } else {
        InsertOrdered(init, m);
        assert last in members;
        StringLessTotal(last.0, m.0);
        OrderedSnoc(InsertMember(init, m), last);
      }
    }
  }

  lemma {:induction false} SortedOrdered(members: seq<Member>)
    requires DistinctKeys(members)
    ensures Ordered(SortedMembers(members))
  {
    if members != [] {
      var init, last := members[..|members| - 1], members[|members| - 1];
      SortedOrdered(init);
      if last.1 != JUndefined {
        InsertOrdered(SortedMembers(init), last);
      }
    }
  }

  function DefinedKeys(members: seq<Member>): set<string> {
    set i | 0 <= i < |members| && members[i].1 != JUndefined :: members[i].0
  }

  lemma DefinedKeysSnoc(members: seq<Member>, m: Member)
    ensures DefinedKeys(members + [m]) == DefinedKeys(members) + if m.1 == JUndefined then {} else {m.0}
  {
    var more := members + [m];
    assert more[|members|] == m;
    forall k | k in DefinedKeys(members) ensures k in DefinedKeys(more) {
      var i :| 0 <= i < |members| && members[i].1 != JUndefined && members[i].0 == k;
      assert more[i] == members[i];
    }
  }

  /** The meaning of an object, member by member. */
  lemma {:induction false} MeaningMembers(whole: Json, members: seq<Member>)
    requires forall m :: m in members ==> m.1 < whole
    requires DistinctKeys(members)
    ensures MembersMeaning(whole, members).Keys == DefinedKeys(members)
    ensures forall i :: 0 <= i < |members| && members[i].1 != JUndefined ==>
              members[i].0 in MembersMeaning(whole, members)
                && MembersMeaning(whole, members)[members[i].0] == MeaningOf(members[i].1)
  {
    if members != [] {
      var init, last := members[..|members| - 1], members[|members| - 1];
      assert members == init + [last];
      MeaningMembers(whole, init);
      DefinedKeysSnoc(init, last);
    }
  }

  /** The same, read off the sorted members. */
  lemma SortedMeaning(whole: Json, members: seq<Member>)
    requires forall m :: m in members ==> m.1 < whole
    requires DistinctKeys(members)
    ensures var s, meaning := SortedMembers(members), MembersMeaning(whole, members);
            && meaning.Keys == DefinedKeys(s)
            && forall i :: 0 <= i < |s| ==> s[i].0 in meaning && meaning[s[i].0] == MeaningOf(s[i].1)
  {
    var s := SortedMembers(members);
    MeaningMembers(whole, members);
    forall i | 0 <= i < |s| ensures exists j :: 0 <= j < |members| && members[j] == s[i] && s[i].1 != JUndefined {
      assert s[i] in s;
    }
    forall k ensures k in DefinedKeys(s) <==> k in DefinedKeys(members) {
      if k in DefinedKeys(members) {
        var j :| 0 <= j < |members| && members[j].1 != JUndefined && members[j].0 == k;
        assert members[j] in s;
      }
    }
  }

  /** Members with the same keys in the same places, and values that mean the same. */
  ghost predicate SameMembers(a: seq<Member>, b: seq<Member>) {
    && |a| == |b|
    && forall i :: 0 <= i < |a| ==> a[i].0 == b[i].0 && MeaningOf(a[i].1) == MeaningOf(b[i].1)
  }

  lemma SameMembersMeaning(v: Json, a: seq<Member>, w: Json, b: seq<Member>)
    requires (forall m :: m in a ==> m.1 < v) && (forall m :: m in b ==> m.1 < w)
    requires DistinctKeys(a) && DistinctKeys(b)
    ensures SameMembers(SortedMembers(a), SortedMembers(b)) <==> MembersMeaning(v, a) == MembersMeaning(w, b)
  {
    SortedMeaning(v, a);
    SortedMeaning(w, b);
    SortedOrdered(a);
    SortedOrdered(b);
    AllDefined(SortedMembers(a), a);
    AllDefined(SortedMembers(b), b);
    SameMeaning(SortedMembers(a), MembersMeaning(v, a), SortedMembers(b), MembersMeaning(w, b));
  }

  /** Ordered members that state a map. */
  ghost predicate States(s: seq<Member>, m: map<string, Meaning>) {
    && Ordered(s) && (forall i :: 0 <= i < |s| ==> s[i].1 != JUndefined)
    && m.Keys == DefinedKeys(s)
    && forall i :: 0 <= i < |s| ==> s[i].0 in m && m[s[i].0] == MeaningOf(s[i].1)
  }

  lemma SameMeaning(s: seq<Member>, m: map<string, Meaning>, t: seq<Member>, n: map<string, Meaning>)
    requires States(s, m) && States(t, n)
    ensures SameMembers(s, t) <==> m == n
  {
    if SameMembers(s, t) {
      SameKeys(s, t);
      forall k | k in m ensures m[k] == n[k] {
        var i :| 0 <= i < |s| && s[i].1 != JUndefined && s[i].0 == k;
        assert t[i].0 == k;
      }
      assert m == n;
    }
    if m == n {
      OrderedKeysUnique(s, t);
    }
  }

  lemma AllDefined(s: seq<Member>, members: seq<Member>)
    requires s == SortedMembers(members)
    ensures forall i :: 0 <= i < |s| ==> s[i].1 != JUndefined
  {
    forall i | 0 <= i < |s| ensures s[i].1 != JUndefined {
      assert s[i] in s;
    }
  }

  lemma SameKeys(s: seq<Member>, t: seq<Member>)
    requires |s| == |t| && forall i :: 0 <= i < |s| ==> s[i].0 == t[i].0
    requires (forall i :: 0 <= i < |s| ==> s[i].1 != JUndefined) && (forall i :: 0 <= i < |t| ==> t[i].1 != JUndefined)
    ensures DefinedKeys(s) == DefinedKeys(t)
  {
    forall k ensures k in DefinedKeys(s) <==> k in DefinedKeys(t) {
      if i :| 0 <= i < |s| && s[i].0 == k {
        assert t[i].0 == k;
      }
    }
  }

  lemma LastKey(s: seq<Member>)
    requires Ordered(s) && s != [] && forall i :: 0 <= i < |s| ==> s[i].1 != JUndefined
    ensures s[|s| - 1].0 in DefinedKeys(s)
    ensures DefinedKeys(s[..|s| - 1]) == DefinedKeys(s) - {s[|s| - 1].0}
    ensures forall k :: k in DefinedKeys(s) ==> k == s[|s| - 1].0 || StringLess(k, s[|s| - 1].0)
  {
    var init, last := s[..|s| - 1], s[|s| - 1];
    assert s == init + [last];
    DefinedKeysSnoc(init, last);
    StringLessIrreflexive(last.0);
  }

  /** Ordered members with the same keys have them in the same places. */
  lemma {:induction false} OrderedKeysUnique(s: seq<Member>, t: seq<Member>)
    requires Ordered(s) && Ordered(t) && DefinedKeys(s) == DefinedKeys(t)
    requires (forall i :: 0 <= i < |s| ==> s[i].1 != JUndefined) && (forall i :: 0 <= i < |t| ==> t[i].1 != JUndefined)
    ensures |s| == |t| && forall i :: 0 <= i < |s| ==> s[i].0 == t[i].0
  {
    if s != [] { LastKey(s); }
    if t != [] { LastKey(t); }
    if s != [] {
      assert DefinedKeys([]) == {};
      StringLessTotal(s[|s| - 1].0, t[|t| - 1].0);
      OrderedKeysUnique(s[..|s| - 1], t[..|t| - 1]);
    }
  }

  // ----- unique readability -----

  function HexValue(c: char): nat {
    if '0' <= c <= '9' then c as int - '0' as int else if 'a' <= c <= 'f' then c as int - 'a' as int + 10 else 0
  }

  /** Reads one escaped character back. */
  function Unescape(text: string): (char, string) {
    if text == "" then (' ', "")
    else if text[0] != '\\' || |text| < 2 then (text[0], text[1..])
    else if text[1] == 'b' then ('\U{8}', text[2..])
    else if text[1] == 'f' then ('\U{C}', text[2..])
    else if text[1] == 'n' then ('\n', text[2..])
    else if text[1] == 'r' then ('\r', text[2..])
    else if text[1] == 't' then ('\t', text[2..])
    else if text[1] == 'u' && |text| >= 6 then ((16 * HexValue(text[4]) + HexValue(text[5])) as char, text[6..])
    else (text[1], text[2..])
  }

  lemma EscapeReadsBack(c: char, rest: string)
    ensures Unescape(Escape(c) + rest) == (c, rest)
    ensures Escape(c) != "" && Escape(c)[0] != '"'
  {
    assert (Escape(c) + rest)[|Escape(c)|..] == rest;
    if c < ' ' && Escape(c)[1] == 'u' { HexReadsBack(c, rest); }
  }

  lemma HexReads(n: nat)
    requires n < 16
    ensures HexValue(HEX[n]) == n
  {}

  lemma HexReadsBack(c: char, rest: string)
    requires c < ' ' && Escape(c) == "\\u00" + [HEX[c as int / 16], HEX[c as int % 16]]
    ensures Unescape(Escape(c) + rest) == (c, (Escape(c) + rest)[6..])
  {
    HexReads(c as int / 16);
    HexReads(c as int % 16);
    var text := Escape(c) + rest;
    assert text[0] == '\\' && text[1] == 'u' && text[4] == HEX[c as int / 16] && text[5] == HEX[c as int % 16];
  }

  /** An escaped string, its closing quote, and what follows. */
  function Closed(s: string, rest: string): string {
    Escaped(s) + ("\"" + rest)
  }

  lemma ClosedStep(s: string, rest: string)
    ensures s == "" ==> Closed(s, rest) == "\"" + rest
    ensures s != "" ==> Closed(s, rest) != "" && Closed(s, rest)[0] != '"'
                        && Unescape(Closed(s, rest)) == (s[0], Closed(s[1..], rest))
  {
    if s != "" {
      EscapeReadsBack(s[0], Closed(s[1..], rest));
      AppendAssociates(Escape(s[0]), Escaped(s[1..]), "\"" + rest);
    }
  }

  /** A quoted string ends at its own closing quote, whatever follows. */
  lemma {:induction false} QuoteReads(a: string, x: string, b: string, y: string)
    requires Closed(a, x) == Closed(b, y)
    ensures a == b && x == y
  {
    ClosedStep(a, x);
    ClosedStep(b, y);
    if a == "" {
      assert x == ("\"" + x)[1..] && y == ("\"" + y)[1..];
    } else {
      QuoteReads(a[1..], x, b[1..], y);
      assert a == [a[0]] + a[1..] && b == [b[0]] + b[1..];
    }
  }

  /** What can follow a value inside a text. */
  predicate Delimited(rest: string) {
    rest == "" || rest[0] == ',' || rest[0] == ']' || rest[0] == '}'
  }

  /** The first character tells the kind of a value apart, and a value from a closing bracket. */
  function Kind(c: char): nat {
    if c == 'n' then 0
    else if c == 't' || c == 'f' then 1
    else if '0' <= c <= '9' || c == '-' then 2
    else if c == '"' then 3
    else if c == '[' then 4
    else if c == '{' then 5
    else 6
  }

  function KindOf(v: Json): nat {
    match v
    case JUndefined => 0
    case JNull => 0
    case JBool(_) => 1
    case JNumber(_) => 2
    case JString(_) => 3
    case JArray(_) => 4
    case JObject(_) => 5
  }

  lemma FirstCharacter(v: Json, rest: string)
    requires WellFormed(v)
    ensures Canonical(v) != "" && (Canonical(v) + rest)[0] == Canonical(v)[0]
    ensures Kind(Canonical(v)[0]) == KindOf(v) < 6
  {}

  lemma NumberReads(a: string, x: string, b: string, y: string)
    requires NumberText(a) && NumberText(b) && Delimited(x) && Delimited(y)
    requires a + x == b + y
    ensures a == b && x == y
  {
    Overlap(a, x, b, y);
    Overlap(b, y, a, x);
    assert a == (a + x)[..|a|] && b == (b + y)[..|b|];
    assert x == (a + x)[|a|..] && y == (b + y)[|b|..];
  }

  lemma Overlap(a: string, x: string, b: string, y: string)
    requires a + x == b + y
    ensures |a| < |b| ==> x != "" && x[0] == b[|a|]
  {
    if |a| < |b| {
      assert (a + x)[|a|] == (b + y)[|a|];
    }
  }

  lemma Enclosed(open: string, body: string, close: string, rest: string)
    ensures open + body + close + rest == open + (body + (close + rest))
  {}

  lemma DropFirst(c: char, x: string, y: string)
    requires [c] + x == [c] + y
    ensures x == y
  {
    assert ([c] + x)[1..] == x && ([c] + y)[1..] == y;
  }

  lemma DropSame(a: string, x: string, y: string)
    requires a + x == a + y
    ensures x == y
  {
    assert (a + x)[|a|..] == x && (a + y)[|a|..] == y;
  }

  /** The elements of an array after the first, its closing bracket, and what follows. */
  function AfterElement(elems: seq<Json>, rest: string): string {
    if |elems| <= 1 then "]" + rest else "," + (Elements(elems[1..]) + ("]" + rest))
  }

  lemma ElementsText(elems: seq<Json>, rest: string)
    ensures elems == [] ==> Elements(elems) + ("]" + rest) == "]" + rest
    ensures elems != [] ==> Elements(elems) + ("]" + rest) == Canonical(elems[0]) + AfterElement(elems, rest)
    ensures Delimited(AfterElement(elems, rest))
  {
    if |elems| > 1 {
      AppendAssociates(Canonical(elems[0]), ",", Elements(elems[1..]) + ("]" + rest));
      AppendAssociates(Canonical(elems[0]) + ",", Elements(elems[1..]), "]" + rest);
    }
  }

  function AfterMember(whole: Json, members: seq<Member>, rest: string): string
    requires forall m :: m in members ==> m.1 < whole
  {
    if |members| <= 1 then "}" + rest else "," + (Members(whole, members[1..]) + ("}" + rest))
  }

  lemma MembersText(whole: Json, members: seq<Member>, rest: string)
    requires forall m :: m in members ==> m.1 < whole
    ensures members == [] ==> Members(whole, members) + ("}" + rest) == "}" + rest
    ensures members != [] ==>
              Members(whole, members) + ("}" + rest)
              == "\"" + Closed(members[0].0, ":" + (Canonical(members[0].1) + AfterMember(whole, members, rest)))
    ensures Delimited(AfterMember(whole, members, rest))
  {
    if members != [] {
      var k, text := members[0].0, Canonical(members[0].1);
      var after := AfterMember(whole, members, rest);
      Enclosed("\"", Escaped(k), "\"", ":" + (text + after));
      AppendAssociates(Quote(k), ":", text + after);
      AppendAssociates(Quote(k) + ":", text, after);
      if |members| > 1 {
        AppendAssociates(Quote(k) + ":" + text, ",", Members(whole, members[1..]) + ("}" + rest));
        AppendAssociates(Quote(k) + ":" + text + ",", Members(whole, members[1..]), "}" + rest);
      }
    }
  }

  /** Unique readability: equal texts, with anything that may follow, have equal meanings and equal rests. */
  lemma {:induction false} Reads(v: Json, x: string, w: Json, y: string)
    requires WellFormed(v) && WellFormed(w) && Delimited(x) && Delimited(y)
    requires Canonical(v) + x == Canonical(w) + y
    ensures MeaningOf(v) == MeaningOf(w) && x == y
    decreases v, 2
  {
    FirstCharacter(v, x);
    FirstCharacter(w, y);
    if v.JArray? {
      ArrayReads(v, x, w, y);
    } else if v.JObject? {
      ObjectReads(v, x, w, y);
    } else {
      ScalarReads(v, x, w, y);
    }
  }

  lemma ScalarReads(v: Json, x: string, w: Json, y: string)
    requires WellFormed(v) && WellFormed(w) && Delimited(x) && Delimited(y)
    requires Canonical(v) + x == Canonical(w) + y
    requires KindOf(v) == KindOf(w) < 4
    ensures MeaningOf(v) == MeaningOf(w) && x == y
  {
    match v
    case JNumber(a) => NumberReads(a, x, w.digits, y);
    case JString(a) =>
      Enclosed("\"", Escaped(a), "\"", x);
      Enclosed("\"", Escaped(w.text), "\"", y);
      DropFirst('"', Closed(a, x), Closed(w.text, y));
      QuoteReads(a, x, w.text, y);
    case JBool(_) =>
      assert (Canonical(v) + x)[0] == (Canonical(w) + y)[0];
      DropSame(Canonical(v), x, y);
    case _ => DropSame("null", x, y);
  }

  lemma {:induction false} ArrayReads(v: Json, x: string, w: Json, y: string)
    requires WellFormed(v) && WellFormed(w) && v.JArray? && w.JArray?
    requires Canonical(v) + x == Canonical(w) + y
    ensures MeaningOf(v) == MeaningOf(w) && x == y
    decreases v, 1
  {
    Enclosed("[", Elements(v.elems), "]", x);
    Enclosed("[", Elements(w.elems), "]", y);
    DropFirst('[', Elements(v.elems) + ("]" + x), Elements(w.elems) + ("]" + y));
    ElementsRead(v.elems, x, w.elems, y);
    assert MeaningOf(v).elems == MeaningOf(w).elems;
  }

  lemma {:induction false} ElementsRead(a: seq<Json>, x: string, b: seq<Json>, y: string)
    requires (forall i :: 0 <= i < |a| ==> WellFormed(a[i])) && (forall i :: 0 <= i < |b| ==> WellFormed(b[i]))
    requires Elements(a) + ("]" + x) == Elements(b) + ("]" + y)
    ensures |a| == |b| && x == y
    ensures forall i :: 0 <= i < |a| ==> MeaningOf(a[i]) == MeaningOf(b[i])
    decreases a, 0
  {
    ElementsBegin(a, x, b, y);
    if a != [] {
      Reads(a[0], AfterElement(a, x), b[0], AfterElement(b, y));
      AfterElements(a, x, b, y);
      if |a| > 1 {
        ElementsRead(a[1..], x, b[1..], y);
        assert forall i :: 1 <= i < |a| ==> a[i] == a[1..][i - 1] && b[i] == b[1..][i - 1];
      }
    }
  }

  /** Either both arrays are empty, or both have a first element. */
  lemma ElementsBegin(a: seq<Json>, x: string, b: seq<Json>, y: string)
    requires (forall i :: 0 <= i < |a| ==> WellFormed(a[i])) && (forall i :: 0 <= i < |b| ==> WellFormed(b[i]))
    requires Elements(a) + ("]" + x) == Elements(b) + ("]" + y)
    ensures a == [] <==> b == []
    ensures a == [] ==> x == y
    ensures a != [] ==> Canonical(a[0]) + AfterElement(a, x) == Canonical(b[0]) + AfterElement(b, y)
    ensures Delimited(AfterElement(a, x)) && Delimited(AfterElement(b, y))
  {
    ElementsText(a, x);
    ElementsText(b, y);
    if a != [] { FirstCharacter(a[0], AfterElement(a, x)); }
    if b != [] { FirstCharacter(b[0], AfterElement(b, y)); }
    if a == [] { DropFirst(']', x, y); }
  }

  /** After the first element either both arrays end, or both go on. */
  lemma AfterElements(a: seq<Json>, x: string, b: seq<Json>, y: string)
    requires a != [] && b != [] && AfterElement(a, x) == AfterElement(b, y)
    ensures |a| == 1 <==> |b| == 1
    ensures |a| == 1 ==> x == y
    ensures |a| > 1 ==> Elements(a[1..]) + ("]" + x) == Elements(b[1..]) + ("]" + y)
  {
    assert AfterElement(a, x)[0] == AfterElement(b, y)[0];
    if |a| == 1 {
      DropFirst(']', x, y);
    } else {
      DropFirst(',', Elements(a[1..]) + ("]" + x), Elements(b[1..]) + ("]" + y));
    }
  }

  lemma {:induction false} ObjectReads(v: Json, x: string, w: Json, y: string)
    requires WellFormed(v) && WellFormed(w) && v.JObject? && w.JObject?
    requires Canonical(v) + x == Canonical(w) + y
    ensures MeaningOf(v) == MeaningOf(w) && x == y
    decreases v, 1
  {
    var a, b := SortedMembers(v.members), SortedMembers(w.members);
    Enclosed("{", Members(v, a), "}", x);
    Enclosed("{", Members(w, b), "}", y);
    DropFirst('{', Members(v, a) + ("}" + x), Members(w, b) + ("}" + y));
    MembersRead(v, a, x, w, b, y);
    SameMembersMeaning(v, v.members, w, w.members);
  }

  lemma {:induction false} MembersRead(v: Json, a: seq<Member>, x: string, w: Json, b: seq<Member>, y: string)
    requires (forall m :: m in a ==> m.1 < v && WellFormed(m.1)) && (forall m :: m in b ==> m.1 < w && WellFormed(m.1))
    requires Members(v, a) + ("}" + x) == Members(w, b) + ("}" + y)
    ensures SameMembers(a, b) && x == y
    decreases v, 0, |a|
  {
    MembersText(v, a, x);
    MembersText(w, b, y);
    if a != [] {
      assert a[0] in a && b[0] in b;
      MemberReads(v, a[0], AfterMember(v, a, x), b[0], AfterMember(w, b, y));
      if |a| > 1 {
        MembersRest(v, a, x, w, b, y);
        MembersRead(v, a[1..], x, w, b[1..], y);
        SameMembersCons(a, b);
      } else {
        DropFirst('}', x, y);
      }
    } else {
      DropFirst('}', x, y);
    }
  }

  lemma SameMembersCons(a: seq<Member>, b: seq<Member>)
    requires a != [] && b != [] && SameMembers(a[1..], b[1..])
    requires a[0].0 == b[0].0 && MeaningOf(a[0].1) == MeaningOf(b[0].1)
    ensures SameMembers(a, b)
  {
    assert forall i :: 1 <= i < |a| ==> a[i] == a[1..][i - 1] && b[i] == b[1..][i - 1];
  }

  lemma MembersRest(v: Json, a: seq<Member>, x: string, w: Json, b: seq<Member>, y: string)
    requires (forall m :: m in a ==> m.1 < v) && (forall m :: m in b ==> m.1 < w)
    requires |a| > 1 && AfterMember(v, a, x) == AfterMember(w, b, y)
    ensures |b| > 1 && Members(v, a[1..]) + ("}" + x) == Members(w, b[1..]) + ("}" + y)
  {
    assert AfterMember(v, a, x)[0] == ',' && ("}" + y)[0] == '}';
    DropFirst(',', Members(v, a[1..]) + ("}" + x), Members(w, b[1..]) + ("}" + y));
  }

  lemma {:induction false} MemberReads(v: Json, m: Member, x: string, n: Member, y: string)
    requires m.1 < v && WellFormed(m.1) && WellFormed(n.1) && Delimited(x) && Delimited(y)
    requires "\"" + Closed(m.0, ":" + (Canonical(m.1) + x)) == "\"" + Closed(n.0, ":" + (Canonical(n.1) + y))
    ensures m.0 == n.0 && MeaningOf(m.1) == MeaningOf(n.1) && x == y
    decreases v, 0, 0
  {
    var s, t := Canonical(m.1) + x, Canonical(n.1) + y;
    DropFirst('"', Closed(m.0, ":" + s), Closed(n.0, ":" + t));
    QuoteReads(m.0, ":" + s, n.0, ":" + t);
    DropFirst(':', s, t);
    Reads(m.1, x, n.1, y);
  }

  // ----- equal meanings have equal texts -----

  lemma {:induction false} SameText(v: Json, w: Json)
    requires WellFormed(v) && WellFormed(w) && MeaningOf(v) == MeaningOf(w)
    ensures Canonical(v) == Canonical(w)
    decreases v
  {
    match v
    case JArray(elems) =>
      assert |elems| == |w.elems| by {
        assert |MeaningOf(v).elems| == |MeaningOf(w).elems|;
      }
      forall i | 0 <= i < |elems| ensures MeaningOf(elems[i]) == MeaningOf(w.elems[i]) {
        assert MeaningOf(v).elems[i] == MeaningOf(w).elems[i];
      }
      ElementsSame(elems, w.elems);
    case JObject(members) =>
      SameMembersMeaning(v, members, w, w.members);
      MembersSame(v, SortedMembers(members), w, SortedMembers(w.members));
    case _ =>
  }

  lemma {:induction false} ElementsSame(a: seq<Json>, b: seq<Json>)
    requires (forall i :: 0 <= i < |a| ==> WellFormed(a[i])) && (forall i :: 0 <= i < |b| ==> WellFormed(b[i]))
    requires |a| == |b| && forall i :: 0 <= i < |a| ==> MeaningOf(a[i]) == MeaningOf(b[i])
    ensures Elements(a) == Elements(b)
    decreases a
  {
    if a != [] {
      SameText(a[0], b[0]);
      if |a| > 1 {
        ElementsSame(a[1..], b[1..]);
      }
    }
  }

  lemma {:induction false} MembersSame(v: Json, a: seq<Member>, w: Json, b: seq<Member>)
    requires (forall m :: m in a ==> m.1 < v && WellFormed(m.1)) && (forall m :: m in b ==> m.1 < w && WellFormed(m.1))
    requires SameMembers(a, b)
    ensures Members(v, a) == Members(w, b)
    decreases v, |a|
  {
    if a != [] {
      assert a[0] in a && b[0] in b;
      SameText(a[0].1, b[0].1);
      if |a| > 1 {
        MembersSame(v, a[1..], w, b[1..]);
      }
    }
  }

  /**
   Change detection is exact: two values have the same canonical text exactly when they mean the same, up to the order
   of object keys, undefined members, and undefined elsewhere counting as null.
   */
  lemma CanonicalExact(v: Json, w: Json)
    requires WellFormed(v) && WellFormed(w)
    ensures Canonical(v) == Canonical(w) <==> MeaningOf(v) == MeaningOf(w)
  {
    if Canonical(v) == Canonical(w) {
      Reads(v, "", w, "");
    }
    if MeaningOf(v) == MeaningOf(w) {
      SameText(v, w);
    }
  }
}
