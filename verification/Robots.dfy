/**
 robots.txt as a whole (server/robots.js): its groups read line by line, the rules that apply to us, the rule that
 decides, and the cached entry that both the check and the crawl's matcher use.
 */
module Robots {
  import opened Basics
  import opened RobotsRules

  datatype Rule = Rule(allow: bool, path: string)

  datatype Group = Group(agents: seq<string>, rules: seq<Rule>, delay: Option<real>)

  /** A significant line: an agent's name, a rule short enough to keep, a usable delay, a sitemap, or some other key. */
  datatype Token =
    | Agent(name: string) | RuleLine(rule: Rule) | Delay(seconds: real) | SitemapLine(url: string) | OtherLine

  const RULES_LIMIT := 1000
  const PATH_LIMIT := 512
  const SITEMAPS_LIMIT := 50
  const URL_LIMIT := 2048

  // ----- one line -----

  function LowerChar(c: char): char {
    if 'A' <= c <= 'Z' then c - 'A' + 'a' else c
  }

  function Lower(s: string): string {
    seq(|s|, i requires 0 <= i < |s| => LowerChar(s[i]))
  }

  function UpTo(s: string, c: char): (r: string)
    ensures r <= s
  {
    if s == "" || s[0] == c then "" else [s[0]] + UpTo(s[1..], c)
  }

  predicate WebUrl(url: string) {
    && |url| <= URL_LIMIT
    && ("http://" <= Lower(url) || "https://" <= Lower(url))
  }

  /** A line without its comment, as a key and a value; None for a line without a key. */
  function TokenOf(line: string, number: string -> Option<real>): Option<Token> {
    var text := Trim(UpTo(line, '#'));
    var key := UpTo(text, ':');
    if |key| == |text| then None
    else Some(LineToken(Lower(Trim(key)), Trim(text[|key| + 1..]), number))
  }

  function LineToken(key: string, value: string, number: string -> Option<real>): Token {
    if key == "user-agent" then Agent(Lower(value))
    else if key == "sitemap" then if WebUrl(value) then SitemapLine(value) else OtherLine
    else if key == "allow" || key == "disallow" then
      if |value| <= PATH_LIMIT then RuleLine(Rule(key == "allow", Collapse(value))) else OtherLine
    else if key == "crawl-delay" then
      if number(value).Some? && number(value).value >= 0.0 then
        Delay(if number(value).value < 3600.0 then number(value).value else 3600.0)
      else OtherLine
    else OtherLine
  }

  function Tokens(lines: seq<string>, number: string -> Option<real>): seq<Token> {
    if lines == [] then []
    else
      var t := TokenOf(lines[|lines| - 1], number);
      Tokens(lines[..|lines| - 1], number) + if t.None? then [] else [t.value]
  }

  // ----- groups, by their definition -----

  /**
   The lines cut into groups: one starts at an agent line that does not follow another; what precedes the first is in
   none.
   */
  function Blocks(tokens: seq<Token>): seq<seq<Token>> {
    if tokens == [] then []
    else
      var init, last := tokens[..|tokens| - 1], tokens[|tokens| - 1];
      var blocks := Blocks(init);
      if last.Agent? && (init == [] || !init[|init| - 1].Agent?) then blocks + [[last]]
      else if blocks == [] then []
      else blocks[..|blocks| - 1] + [blocks[|blocks| - 1] + [last]]
  }

  function AgentsOf(block: seq<Token>): seq<string> {
    if block == [] then []
    else
      var last := block[|block| - 1];
      AgentsOf(block[..|block| - 1]) + if last.Agent? then [last.name] else []
  }

  function RulesOf(block: seq<Token>): seq<Rule> {
    if block == [] then []
    else
      var last := block[|block| - 1];
      RulesOf(block[..|block| - 1]) + if last.RuleLine? then [last.rule] else []
  }

  function DelayOf(block: seq<Token>): Option<real> {
    if block == [] then None
    else if block[|block| - 1].Delay? then Some(block[|block| - 1].seconds)
    else DelayOf(block[..|block| - 1])
  }

  function FirstRules(rules: seq<Rule>): seq<Rule> {
    if |rules| <= RULES_LIMIT then rules else rules[..RULES_LIMIT]
  }

  /** A group: the agents its lines name, its first rules, its last delay. */
  function GroupOf(block: seq<Token>): Group {
    Group(AgentsOf(block), FirstRules(RulesOf(block)), DelayOf(block))
  }

  function Groups(blocks: seq<seq<Token>>): seq<Group> {
    seq(|blocks|, i requires 0 <= i < |blocks| => GroupOf(blocks[i]))
  }

  /** The sitemaps named anywhere, each once, the first fifty. */
  function SitemapsOf(tokens: seq<Token>): (r: seq<string>)
    ensures |r| <= SITEMAPS_LIMIT && forall i, j :: 0 <= i < j < |r| ==> r[i] != r[j]
  {
    if tokens == [] then []
    else
      var before, last := SitemapsOf(tokens[..|tokens| - 1]), tokens[|tokens| - 1];
      if last.SitemapLine? && last.url !in before && |before| < SITEMAPS_LIMIT then before + [last.url] else before
  }

  // ----- groups, as they are read -----

  function Added(g: Group, t: Token): Group {
    match t
    case Agent(name) => g.(agents := g.agents + [name])
    case RuleLine(rule) => if |g.rules| < RULES_LIMIT then g.(rules := g.rules + [rule]) else g
    case Delay(seconds) => g.(delay := Some(seconds))
    case _ => g
  }

  lemma GroupGrows(block: seq<Token>, t: Token)
    ensures GroupOf(block + [t]) == Added(GroupOf(block), t)
  {
    assert (block + [t])[..|block|] == block;
  }

  lemma LinesSnoc(lines: seq<string>, i: nat, number: string -> Option<real>)
    requires i < |lines|
    ensures var t := TokenOf(lines[i], number);
            Tokens(lines[..i + 1], number) == Tokens(lines[..i], number) + if t.None? then [] else [t.value]
  {
    assert lines[..i + 1][..i] == lines[..i];
  }

  /** Does a token open a group? */
  predicate Opens(tokens: seq<Token>, t: Token) {
    t.Agent? && (tokens == [] || !tokens[|tokens| - 1].Agent?)
  }

  /** What one more token does to the groups: it opens a group or adds to the last one. */
  function Taken(groups: seq<Group>, opens: bool, t: Token): seq<Group>
    requires opens ==> t.Agent?
  {
    if opens then groups + [Group([t.name], [], None)]
    else if groups == [] then []
    else groups[..|groups| - 1] + [Added(groups[|groups| - 1], t)]
  }

  lemma GroupsSnoc(blocks: seq<seq<Token>>, block: seq<Token>)
    ensures Groups(blocks + [block]) == Groups(blocks) + [GroupOf(block)]
  {}

  lemma OneAgent(t: Token)
    requires t.Agent?
    ensures GroupOf([t]) == Group([t.name], [], None)
  {
    assert [] + [t] == [t];
    GroupGrows([], t);
  }

  lemma LastGrows(blocks: seq<seq<Token>>, t: Token)
    requires blocks != []
    ensures Groups(blocks[..|blocks| - 1] + [blocks[|blocks| - 1] + [t]]) == Taken(Groups(blocks), false, t)
  {
    var init, last := blocks[..|blocks| - 1], blocks[|blocks| - 1];
    assert Groups(blocks)[..|blocks| - 1] == Groups(init);
    GroupGrows(last, t);
    GroupsSnoc(init, last + [t]);
  }

  lemma BlocksSnoc(tokens: seq<Token>, t: Token)
    ensures Groups(Blocks(tokens + [t])) == Taken(Groups(Blocks(tokens)), Opens(tokens, t), t)
  {
    var blocks := Blocks(tokens);
    BlocksNext(tokens, t);
    if Opens(tokens, t) {
      OneAgent(t);
      GroupsSnoc(blocks, [t]);
    } else if blocks != [] {
      LastGrows(blocks, t);
    }
  }

  lemma BlocksNext(tokens: seq<Token>, t: Token)
    ensures var blocks := Blocks(tokens);
            Blocks(tokens + [t]) == if Opens(tokens, t) then blocks + [[t]]
                                    else if blocks == [] then []
                                    else blocks[..|blocks| - 1] + [blocks[|blocks| - 1] + [t]]
  {
    assert (tokens + [t])[..|tokens|] == tokens;
  }

  /** An agent line has opened a group. */
  lemma {:induction false} AgentOpens(tokens: seq<Token>)
    requires tokens != [] && tokens[|tokens| - 1].Agent?
    ensures Blocks(tokens) != []
    decreases |tokens|
  {
    var init := tokens[..|tokens| - 1];
    if init != [] && init[|init| - 1].Agent? { AgentOpens(init); }
  }

  // ----- which groups apply -----

  /** A group that names one of our product tokens, up to a version. */
  predicate Names(g: Group, ours: seq<string>) {
    exists i :: 0 <= i < |g.agents| && Trim(UpTo(g.agents[i], '/')) in ours
  }

  predicate ForAll(g: Group) {
    "*" in g.agents
  }

  function Choose(groups: seq<Group>, p: Group -> bool): (r: seq<Group>)
    ensures forall g :: g in r <==> g in groups && p(g)
  {
    if groups == [] then []
    else
      var init, last := groups[..|groups| - 1], groups[|groups| - 1];
      assert groups == init + [last];
      Choose(init, p) + if p(last) then [last] else []
  }

  /** The groups that name us, else those for all. */
  function Applicable(groups: seq<Group>, ours: seq<string>): seq<Group> {
    var named := Choose(groups, g => Names(g, ours));
    if named != [] then named else Choose(groups, ForAll)
  }

  /** All their rules, but for those with an empty path. */
  function Merged(groups: seq<Group>): seq<Rule> {
    if groups == [] then [] else Merged(groups[..|groups| - 1]) + Nonempty(groups[|groups| - 1].rules)
  }

  function Nonempty(rules: seq<Rule>): seq<Rule> {
    if rules == [] then []
    else Nonempty(rules[..|rules| - 1]) + if rules[|rules| - 1].path == "" then [] else [rules[|rules| - 1]]
  }

  function Slowest(groups: seq<Group>): Option<real> {
    if groups == [] then None
    else
      var before, last := Slowest(groups[..|groups| - 1]), groups[|groups| - 1].delay;
      if before.None? || (last.Some? && last.value > before.value) then last else before
  }

  datatype Parsed = Parsed(rules: seq<Rule>, delay: Option<real>, sitemaps: seq<string>)

  /** What a file says to us: the rules and the slowest delay of the groups that apply, and every sitemap it names. */
  function Says(tokens: seq<Token>, ours: seq<string>): Parsed {
    var groups := Applicable(Groups(Blocks(tokens)), ours);
    Parsed(Merged(groups), Slowest(groups), SitemapsOf(tokens))
  }

  /** Where the line loop is after `tokens`. */
  ghost predicate ReadUpTo(tokens: seq<Token>, groups: seq<Group>, sitemaps: seq<string>, lastWasAgent: bool) {
    && groups == Groups(Blocks(tokens)) && sitemaps == SitemapsOf(tokens)
    && (lastWasAgent <==> tokens != [] && tokens[|tokens| - 1].Agent?)
  }

  /** One significant line. */
  method TakeToken(t: Token, groups: seq<Group>, sitemaps: seq<string>, lastWasAgent: bool, ghost tokens: seq<Token>)
    returns (gs: seq<Group>, ss: seq<string>, last: bool)
    requires ReadUpTo(tokens, groups, sitemaps, lastWasAgent)
    ensures ReadUpTo(tokens + [t], gs, ss, last)
  {
    gs, ss, last := groups, sitemaps, false;
    if t.Agent? {
      if !lastWasAgent || groups == [] {
        gs := gs + [Group([], [], None)];
      }
      gs := gs[..|gs| - 1] + [Added(gs[|gs| - 1], t)];
      last := true;
    } else if t.SitemapLine? {
      if |sitemaps| < SITEMAPS_LIMIT && t.url !in sitemaps { ss := ss + [t.url]; }
    } else if groups != [] {
      gs := gs[..|gs| - 1] + [Added(gs[|gs| - 1], t)];
    }
    assert ss == SitemapsOf(tokens + [t]) by { assert (tokens + [t])[..|tokens|] == tokens; }
    assert lastWasAgent ==> groups != [] by { if lastWasAgent { AgentOpens(tokens); } }
    assert gs == Taken(groups, Opens(tokens, t), t) by { AddedToNew(groups, t); }
    BlocksSnoc(tokens, t);
  }

  lemma AddedToNew(groups: seq<Group>, t: Token)
    ensures t.Agent? ==> var gs := groups + [Group([], [], None)];
                         gs[..|gs| - 1] + [Added(gs[|gs| - 1], t)] == groups + [Group([t.name], [], None)]
    ensures t.SitemapLine? && groups != [] ==> groups[..|groups| - 1] + [Added(groups[|groups| - 1], t)] == groups
  {
    if t.Agent? {
      assert [] + [t.name] == [t.name];
      var gs := groups + [Group([], [], None)];
      assert gs[..|gs| - 1] == groups;
    }
  }

  method ParseRobots(lines: seq<string>, ours: seq<string>, number: string -> Option<real>) returns (parsed: Parsed)
    ensures parsed == Says(Tokens(lines, number), ours)
  {
    var groups: seq<Group>, sitemaps: seq<string> := [], [];
    var lastWasAgent := false;
    ghost var tokens := Tokens([], number);
    var i := 0;
    while i < |lines|
      invariant 0 <= i <= |lines| && tokens == Tokens(lines[..i], number)
      invariant ReadUpTo(tokens, groups, sitemaps, lastWasAgent)
    {
      LinesSnoc(lines, i, number);
      var token := TokenOf(lines[i], number);
      if token.Some? {
        groups, sitemaps, lastWasAgent := TakeToken(token.value, groups, sitemaps, lastWasAgent, tokens);
        tokens := tokens + [token.value];
      }
      i := i + 1;
    }
    assert lines[..i] == lines;
    var chosen := Applicable(groups, ours);
    parsed := Parsed(Merged(chosen), Slowest(chosen), sitemaps);
  }

  // ----- which rule decides -----

  /** Paths are compared after their percent-encoding is made uniform. */
  type Normal = string -> string

  ghost predicate RuleApplies(normal: Normal, r: Rule, target: string) {
    Means(normal(r.path), target)
  }

  /**
   Every matching Disallow is outdone by a matching Allow at least as long: the longest rule wins, Allow wins a tie.
   */
  ghost predicate Allows(normal: Normal, rules: seq<Rule>, target: string) {
    forall r :: r in rules && !r.allow && RuleApplies(normal, r, target) ==>
      exists a :: a in rules && a.allow && RuleApplies(normal, a, target) && |a.path| >= |r.path|
  }

  ghost predicate Longest(normal: Normal, rules: seq<Rule>, target: string, r: Rule) {
    && r in rules && RuleApplies(normal, r, target)
    && forall o :: o in rules && RuleApplies(normal, o, target) ==> |o.path| <= |r.path|
  }

  lemma {:induction false} LongestExists(normal: Normal, rules: seq<Rule>, target: string, r: Rule) returns (best: Rule)
    requires r in rules && RuleApplies(normal, r, target)
    ensures Longest(normal, rules, target, best)
  {
    best := r;
    var i := 0;
    while i < |rules|
      invariant 0 <= i <= |rules| && best in rules && RuleApplies(normal, best, target)
      invariant forall j :: 0 <= j < i && RuleApplies(normal, rules[j], target) ==> |rules[j].path| <= |best.path|
    {
      if RuleApplies(normal, rules[i], target) && |rules[i].path| > |best.path| { best := rules[i]; }
      i := i + 1;
    }
  }

  /** A path is allowed exactly when no rule matches or one of the longest matching rules allows. */
  lemma AllowsIsLongest(normal: Normal, rules: seq<Rule>, target: string)
    ensures Allows(normal, rules, target) <==>
              (forall r :: r in rules ==> !RuleApplies(normal, r, target))
              || exists r :: Longest(normal, rules, target, r) && r.allow
  {
    if Allows(normal, rules, target) && exists r :: r in rules && RuleApplies(normal, r, target) {
      var r :| r in rules && RuleApplies(normal, r, target);
      var best := LongestExists(normal, rules, target, r);
      if !best.allow {
        var a :| a in rules && a.allow && RuleApplies(normal, a, target) && |a.path| >= |best.path|;
        assert Longest(normal, rules, target, a);
      }
    }
  }

  /** The order of the rules, and how often each is listed, do not matter. */
  lemma OrderDoesNotMatter(normal: Normal, rules: seq<Rule>, others: seq<Rule>, target: string)
    requires forall r :: r in rules <==> r in others
    ensures Allows(normal, rules, target) <==> Allows(normal, others, target)
  {
    if Allows(normal, rules, target) {
      forall r | r in others && !r.allow && RuleApplies(normal, r, target)
        ensures exists a :: a in others && a.allow && RuleApplies(normal, a, target) && |a.path| >= |r.path|
      {
        var a :| a in rules && a.allow && RuleApplies(normal, a, target) && |a.path| >= |r.path|;
      }
    }
    if Allows(normal, others, target) {
      forall r | r in rules && !r.allow && RuleApplies(normal, r, target)
        ensures exists a :: a in rules && a.allow && RuleApplies(normal, a, target) && |a.path| >= |r.path|
      {
        var a :| a in others && a.allow && RuleApplies(normal, a, target) && |a.path| >= |r.path|;
      }
    }
  }

  // ----- compiled rules -----

  datatype CompiledRule = CompiledRule(re: Regex, len: nat, allow: bool)

  function CompileRules(normal: Normal, rules: seq<Rule>): seq<CompiledRule> {
    seq(|rules|, i requires 0 <= i < |rules| => CompiledRule(RuleRegex(normal(rules[i].path)), |rules[i].path|,
      rules[i].allow))
  }

  function Target(normal: Normal, pathWithQuery: string): string {
    normal(if pathWithQuery == "" then "/" else pathWithQuery)
  }

  /** What the rules compiled so far say, `best` being the one that decides. */
  ghost predicate Decides(normal: Normal, rules: seq<Rule>, n: nat, target: string, best: Option<Rule>) {
    && n <= |rules|
    && (best.None? ==> forall i :: 0 <= i < n ==> !RuleApplies(normal, rules[i], target))
    && (best.Some? ==>
          && best.value in rules[..n] && RuleApplies(normal, best.value, target)
          && (forall i :: 0 <= i < n && RuleApplies(normal, rules[i], target) ==> |rules[i].path| <= |best.value.path|)
          && (!best.value.allow ==>
                forall i ::
                  0 <= i < n && RuleApplies(normal, rules[i], target) && |rules[i].path| == |best.value.path| ==>
                    !rules[i].allow))
  }

  lemma DecidesNext(normal: Normal, rules: seq<Rule>, i: nat, target: string, best: Option<Rule>, next: Option<Rule>)
    requires i < |rules| && Decides(normal, rules, i, target, best)
    requires next == if RuleApplies(normal, rules[i], target)
                        && (best.None? || |rules[i].path| > |best.value.path|
                            || (|rules[i].path| == |best.value.path| && rules[i].allow && !best.value.allow))
                     then Some(rules[i]) else best
    ensures Decides(normal, rules, i + 1, target, next)
  {
    assert rules[..i + 1] == rules[..i] + [rules[i]];
  }

  lemma DecidesAll(normal: Normal, rules: seq<Rule>, target: string, best: Option<Rule>)
    requires Decides(normal, rules, |rules|, target, best)
    ensures Allows(normal, rules, target) <==> best.None? || best.value.allow
  {
    assert rules[..|rules|] == rules;
    if best.Some? && !best.value.allow {
      assert best.value in rules && RuleApplies(normal, best.value, target);
    }
  }

  /** A compiled matcher at work: the loop over the compiled rules finds the rule that decides, whatever their order. */
  method Decide(normal: Normal, compiled: seq<CompiledRule>, ghost rules: seq<Rule>,
                pathWithQuery: string) returns (allowed: bool)
    requires compiled == CompileRules(normal, rules) && OneLine(Target(normal, pathWithQuery))
    ensures allowed <==> Allows(normal, rules, Target(normal, pathWithQuery))
  {
    var target := Target(normal, pathWithQuery);
    var best: Option<CompiledRule> := None;
    ghost var chosen: Option<Rule> := None;
    var i := 0;
    while i < |compiled|
      invariant 0 <= i <= |compiled| && Decides(normal, rules, i, target, chosen)
      invariant best.None? <==> chosen.None?
      invariant best.Some? ==> best.value.len == |chosen.value.path| && best.value.allow == chosen.value.allow
    {
      var r := compiled[i];
      RuleMatches(normal(rules[i].path), target);
      ghost var before := chosen;
      if Test(r.re, target) {
        if best.None? || r.len > best.value.len || (r.len == best.value.len && r.allow && !best.value.allow) {
          best, chosen := Some(r), Some(rules[i]);
        }
      }
      assert Decides(normal, rules, i + 1, target, chosen) by { DecidesNext(normal, rules, i, target, before, chosen); }
      i := i + 1;
    }
    DecidesAll(normal, rules, target, chosen);
    allowed := best.None? || best.value.allow;
  }

  /** Compiling and deciding in one. */
  method IsAllowed(normal: Normal, rules: seq<Rule>, pathWithQuery: string) returns (allowed: bool)
    requires OneLine(Target(normal, pathWithQuery))
    ensures allowed <==> Allows(normal, rules, Target(normal, pathWithQuery))
  {
    allowed := Decide(normal, CompileRules(normal, rules), rules, pathWithQuery);
  }

  // ----- the cached entry -----

  /** What a file's fetch came to: its rules, no restrictions, or complete disallow. */
  datatype Outcome = Usable(rules: seq<Rule>) | Unavailable | Unreachable

  datatype Entry = Entry(outcome: Outcome, delay: Option<real>, expiresAt: int)

  /** An answer to the request for robots.txt: a status with the lines of its body, or a network error. */
  datatype Answer = Status(code: nat, lines: seq<string>) | NetworkError

  const RETRY_MS := 15 * 60 * 1000

  /**
   The entry an answer makes: a 2xx is parsed, a 4xx but 429 allows all, anything else disallows all and is retried
   sooner.
   */
  function Loaded(ours: seq<string>, number: string -> Option<real>, answer: Answer, at: int, ttlMs: nat): Entry {
    if answer.Status? && 200 <= answer.code < 300 then
      var said := Says(Tokens(answer.lines, number), ours);
      Entry(Usable(said.rules), said.delay, at + ttlMs)
    else if answer.Status? && 400 <= answer.code < 500 && answer.code != 429 then
      Entry(Unavailable, None, at + ttlMs)
    else
      Entry(Unreachable, None, at + Min(ttlMs, RETRY_MS))
  }

  /** Does an entry let a path be fetched? */
  ghost predicate Permits(normal: Normal, e: Entry, pathWithQuery: string) {
    match e.outcome
    case Usable(rules) => Allows(normal, rules, Target(normal, pathWithQuery))
    case Unavailable => true
    case Unreachable => false
  }

  /** What `matcher` hands to a crawl: one verdict for every path, or rules compiled once. */
  datatype Matcher = Always(allowed: bool) | ByRules(compiled: seq<CompiledRule>)

  ghost predicate MatcherOf(normal: Normal, e: Entry, m: Matcher) {
    match e.outcome
    case Usable(rules) => m == ByRules(CompileRules(normal, rules))
    case Unavailable => m == Always(true)
    case Unreachable => m == Always(false)
  }

  class Cache {
    const normal: Normal
    const ours: seq<string>
    const number: string -> Option<real>
    const ttlMs: nat
    var entries: map<string, Entry>

    constructor (normal: Normal, ours: seq<string>, number: string -> Option<real>, ttlMs: nat)
      ensures this.normal == normal && this.ours == ours && this.number == number && this.ttlMs == ttlMs
              && entries == map[]
    {
      this.normal, this.ours, this.number, this.ttlMs, entries := normal, ours, number, ttlMs, map[];
    }

    predicate Cached(origin: string, now: int)
      reads this
    {
      origin in entries && entries[origin].expiresAt > now
    }

    /** The entry of an origin: the cached one until it expires, else what `answer` makes of it. */
    method EntryOf(origin: string, now: int, answer: Answer, at: int) returns (e: Entry)
      modifies this
      ensures origin in entries && e == entries[origin]
      ensures entries == if old(Cached(origin, now)) then old(entries)
                         else old(entries)[origin := Loaded(ours, number, answer, at, ttlMs)]
    {
      if Cached(origin, now) { return entries[origin]; }
      e := ParseAnswer(answer, at);
      entries := entries[origin := e];
    }

    method ParseAnswer(answer: Answer, at: int) returns (e: Entry)
      ensures e == Loaded(ours, number, answer, at, ttlMs)
    {
      if answer.Status? && 200 <= answer.code < 300 {
        var said := ParseRobots(answer.lines, ours, number);
        e := Entry(Usable(said.rules), said.delay, at + ttlMs);
      } else {
        e := Loaded(ours, number, answer, at, ttlMs);
      }
    }

    /** Before a request: may this path be fetched? */
    method Check(origin: string, pathWithQuery: string, now: int, answer: Answer, at: int) returns (allowed: bool)
      requires OneLine(Target(normal, pathWithQuery))
      modifies this
      ensures origin in entries
      ensures entries == if old(Cached(origin, now)) then old(entries)
                         else old(entries)[origin := Loaded(ours, number, answer, at, ttlMs)]
      ensures allowed <==> Permits(normal, entries[origin], pathWithQuery)
    {
      var e := EntryOf(origin, now, answer, at);
      match e.outcome {
        case Usable(rules) => allowed := IsAllowed(normal, rules, pathWithQuery);
        case Unavailable => allowed := true;
        case Unreachable => allowed := false;
      }
    }

    /** For a crawl: a matcher for every path of an origin. */
    method MatcherFor(origin: string, now: int, answer: Answer, at: int) returns (m: Matcher)
      modifies this
      ensures origin in entries
      ensures entries == if old(Cached(origin, now)) then old(entries)
                         else old(entries)[origin := Loaded(ours, number, answer, at, ttlMs)]
      ensures MatcherOf(normal, entries[origin], m)
    {
      var e := EntryOf(origin, now, answer, at);
      match e.outcome {
        case Usable(rules) => m := ByRules(CompileRules(normal, rules));
        case Unavailable => m := Always(true);
        case Unreachable => m := Always(false);
      }
    }

    /** A matcher on one path: it and the check agree on the entry both read. */
    method Match(m: Matcher, ghost e: Entry, pathWithQuery: string) returns (allowed: bool)
      requires MatcherOf(normal, e, m) && OneLine(Target(normal, pathWithQuery))
      ensures allowed <==> Permits(normal, e, pathWithQuery)
    {
      match m {
        case Always(verdict) => allowed := verdict;
        case ByRules(compiled) => allowed := Decide(normal, compiled, e.outcome.rules, pathWithQuery);
      }
    }
  }
}
