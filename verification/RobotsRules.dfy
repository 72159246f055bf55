/**
 robots.txt rules (server/robots.js): a rule's path compiled to a regular expression, what it matches, and which rule
 decides, per sections 2.2.2 and 2.2.3 of RFC 9309.
 */
module RobotsRules {
  // ----- the regular expressions rules compile to -----

  /** One item of a pattern: an escaped character, or `.*`. */
  datatype Item = Literal(c: char) | AnyRun

  /** A pattern bound to the start of the text, and to its end when `anchored`. */
  datatype Regex = Regex(body: seq<Item>, anchored: bool)

  /** What `.` does not match. */
  predicate LineBreak(c: char) {
    c == '\n' || c == '\r' || c == '\U{2028}' || c == '\U{2029}'
  }

  predicate OneLine(t: string) {
    forall i :: 0 <= i < |t| ==> !LineBreak(t[i])
  }

  /** RegExp.prototype.test: some way of giving each `.*` a run of characters matches. */
  predicate Matches(body: seq<Item>, anchored: bool, t: string)
    decreases |body|
  {
    if body == [] then !anchored || t == ""
    else
      match body[0]
      case Literal(c) => t != "" && t[0] == c && Matches(body[1..], anchored, t[1..])
      case AnyRun => exists k :: 0 <= k <= |t| && OneLine(t[..k]) && Matches(body[1..], anchored, t[k..])
  }

  predicate Test(re: Regex, t: string) {
    Matches(re.body, re.anchored, t)
  }

  // ----- compiling a rule's path -----

  /** String.prototype.split on `*`. */
  function Stars(p: string): (r: seq<string>)
    ensures r != []
  {
    if p == "" then [""]
    else
      var rest := Stars(p[1..]);
      if p[0] == '*' then [""] + rest else [[p[0]] + rest[0]] + rest[1..]
  }

  function Literals(s: string): seq<Item> {
    if s == "" then [] else [Literal(s[0])] + Literals(s[1..])
  }

  /** The segments, escaped, joined by `.*`. */
  function Body(segs: seq<string>): seq<Item> {
    if segs == [] then []
    else if |segs| == 1 then Literals(segs[0])
    else Literals(segs[0]) + [AnyRun] + Body(segs[1..])
  }

  function RuleRegex(path: string): Regex {
    if path != "" && path[|path| - 1] == '$' then Regex(Body(Stars(path[..|path| - 1])), true)
    else Regex(Body(Stars(path)), false)
  }

  // ----- what a rule's path means -----

  /** `*` is any run of characters, a final `$` the end of the path; otherwise a match at the start is a match. */
  predicate Means(p: string, t: string)
    decreases |p|, |t|
  {
    if p == "" then true
    else if p == "$" then t == ""
    else if p[0] == '*' then Means(p[1..], t) || (t != "" && Means(p, t[1..]))
    else t != "" && p[0] == t[0] && Means(p[1..], t[1..])
  }

  // ----- compiling keeps the meaning -----

  function ItemOf(c: char): Item {
    if c == '*' then AnyRun else Literal(c)
  }

  /** Splitting at stars and joining with `.*` turns each character into its item. */
  lemma BodyHead(p: string)
    requires p != ""
    ensures Body(Stars(p)) == [ItemOf(p[0])] + Body(Stars(p[1..]))
  {
    var rest := Stars(p[1..]);
    if p[0] == '*' {
      assert ([""] + rest)[1..] == rest;
    } else {
      var first := [p[0]] + rest[0];
      assert Literals(first) == [Literal(p[0])] + Literals(rest[0]) by { assert first[1..] == rest[0]; }
      if |rest| > 1 {
        assert ([first] + rest[1..])[1..] == rest[1..];
        HeadOf(Literal(p[0]), Literals(rest[0]), [AnyRun], Body(rest[1..]));
      }
    }
  }

  lemma HeadOf(h: Item, a: seq<Item>, b: seq<Item>, c: seq<Item>)
    ensures ([h] + a) + b + c == [h] + (a + b + c)
  {}

  lemma {:induction false} MatchesMeans(p: string, anchored: bool, t: string)
    requires OneLine(t) && (anchored || p == "" || p[|p| - 1] != '$')
    ensures Matches(Body(Stars(p)), anchored, t) <==> Means(if anchored then p + "$" else p, t)
    decreases |p|, |t|
  {
    if p != "" {
      BodyHead(p);
      var rest := p[1..];
      assert (p + "$")[1..] == rest + "$";
      if p[0] == '*' {
        StarMatches(p, anchored, t);
      } else if t != "" {
        MatchesMeans(rest, anchored, t[1..]);
      }
    }
  }

  /** A `.*` takes no character, or one and then goes on. */
  lemma StarUnrolls(body: seq<Item>, anchored: bool, t: string)
    requires body != [] && body[0] == AnyRun && OneLine(t)
    ensures Matches(body, anchored, t) <==>
              Matches(body[1..], anchored, t) || (t != "" && Matches(body, anchored, t[1..]))
  {
    if k :| 0 <= k <= |t| && OneLine(t[..k]) && Matches(body[1..], anchored, t[k..]) {
      if k == 0 {
        assert t[0..] == t;
      } else {
        assert t[1..][k - 1..] == t[k..];
        assert OneLine(t[1..][..k - 1]);
      }
    }
    if Matches(body[1..], anchored, t) {
      assert t[0..] == t && OneLine(t[..0]);
    }
    if t != "" && Matches(body, anchored, t[1..]) {
      var k :| 0 <= k <= |t| - 1 && OneLine(t[1..][..k]) && Matches(body[1..], anchored, t[1..][k..]);
      assert t[1..][k..] == t[k + 1..];
      assert OneLine(t[..k + 1]);
    }
  }

  lemma {:induction false} StarMatches(p: string, anchored: bool, t: string)
    requires p != "" && p[0] == '*' && OneLine(t) && (anchored || p[|p| - 1] != '$')
    ensures Matches(Body(Stars(p)), anchored, t) <==> Means(if anchored then p + "$" else p, t)
    decreases |p|, |t|, 0
  {
    BodyHead(p);
    var body := Body(Stars(p));
    assert body[0] == AnyRun && body[1..] == Body(Stars(p[1..]));
    StarUnrolls(body, anchored, t);
    assert (p + "$")[1..] == p[1..] + "$";
    MatchesMeans(p[1..], anchored, t);
    if t != "" {
      StarMatches(p, anchored, t[1..]);
    }
  }

  /** The compiled rule matches exactly what the rule's path means, on any path without line breaks. */
  lemma RuleMatches(path: string, t: string)
    requires OneLine(t)
    ensures Test(RuleRegex(path), t) <==> Means(path, t)
  {
    if path != "" && path[|path| - 1] == '$' {
      assert path == path[..|path| - 1] + "$";
      MatchesMeans(path[..|path| - 1], true, t);
    } else {
      MatchesMeans(path, false, t);
    }
  }

  // ----- collapsing runs of stars -----

  /** value.replace(/\*+/g, '*'). */
  function Collapse(p: string): string {
    if p == "" then ""
    else if p[0] == '*' && |p| > 1 && p[1] == '*' then Collapse(p[1..])
    else [p[0]] + Collapse(p[1..])
  }

  lemma {:induction false} TwoStars(p: string, t: string)
    requires |p| > 1 && p[0] == '*' && p[1] == '*'
    ensures Means(p, t) <==> Means(p[1..], t)
    decreases |t|
  {
    if t != "" {
      TwoStars(p, t[1..]);
    }
  }

  lemma {:induction false} StarAlike(p: string, q: string, t: string)
    requires p != "" && p[0] == '*' && q != "" && q[0] == '*'
    requires forall u :: |u| <= |t| ==> (Means(p[1..], u) <==> Means(q[1..], u))
    ensures Means(p, t) <==> Means(q, t)
    decreases |t|
  {
    if t != "" {
      StarAlike(p, q, t[1..]);
    }
  }

  lemma CollapseHead(p: string)
    requires p != "" && !(p[0] == '*' && |p| > 1 && p[1] == '*')
    ensures Collapse(p)[0] == p[0] && Collapse(p)[1..] == Collapse(p[1..])
    ensures Collapse(p) == "$" <==> p == "$"
  {
    if |p| > 1 { CollapseNonempty(p[1..]); }
    if p[0] == '$' && |p| == 1 { assert p == "$"; }
  }

  lemma {:induction false} CollapseNonempty(p: string)
    requires p != ""
    ensures Collapse(p) != ""
    decreases |p|
  {
    if p[0] == '*' && |p| > 1 && p[1] == '*' { CollapseNonempty(p[1..]); }
  }

  /** Collapsing runs of `*` never changes which paths a rule matches. */
  lemma {:induction false} CollapseMeans(p: string, t: string)
    ensures Means(Collapse(p), t) <==> Means(p, t)
    decreases |p|, |t|
  {
    if p != "" {
      if p[0] == '*' && |p| > 1 && p[1] == '*' {
        TwoStars(p, t);
        CollapseMeans(p[1..], t);
      } else {
        CollapseHead(p);
        if p[0] == '*' {
          forall u | |u| <= |t| ensures Means(Collapse(p)[1..], u) <==> Means(p[1..], u) {
            CollapseMeans(p[1..], u);
          }
          StarAlike(Collapse(p), p, t);
        } else if p != "$" && t != "" {
          CollapseMeans(p[1..], t[1..]);
        }
      }
    }
  }
}
