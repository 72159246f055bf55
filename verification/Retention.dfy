/**
 Item retention (server/retention.js): rows pruned in batches, by age or but for the newest of each key. Batches, and
 runs that stop at their cap, come to the same end as deleting at once all that the rules do not keep.
 */
module Retention {
  import opened Basics

  type Rid = nat

  datatype Row = Row(id: string, source: string, identity: string, category: string, retrievedAt: int,
    removedAt: Option<int>)

  type Rows = map<Rid, Row>

  /** Revisions, by their item's id and their number. */
  type Revisions = set<(string, nat)>

  datatype Rule = Days(days: nat) | KeepLatest

  const DAY := 86400000

  /** When a row was last current: fetched while it is live, removed once it is removed. */
  function Age(row: Row): int {
    if row.removedAt.Some? then row.removedAt.value else row.retrievedAt
  }

  /** The same record of the same source, fetched later; ties by rid. */
  predicate Newer(rows: Rows, a: Rid, b: Rid)
    requires a in rows && b in rows
  {
    && rows[a].category == rows[b].category && rows[a].source == rows[b].source && rows[a].identity == rows[b].identity
    && (rows[a].retrievedAt > rows[b].retrievedAt || (rows[a].retrievedAt == rows[b].retrievedAt && a > b))
  }

  predicate Outdated(rows: Rows, rid: Rid)
    requires rid in rows
  {
    exists other :: other in rows && Newer(rows, other, rid)
  }

  /** May a rule prune this row? A rule of 0 days prunes none. */
  predicate Prunable(rows: Rows, rule: Rule, now: int, rid: Rid)
    requires rid in rows
  {
    match rule
    case Days(days) => days > 0 && Age(rows[rid]) < now - days * DAY
    case KeepLatest => Outdated(rows, rid)
  }

  function Candidates(rows: Rows, category: string, rule: Rule, now: int): set<Rid> {
    set rid | rid in rows && rows[rid].category == category && Prunable(rows, rule, now, rid)
  }

  function Without(rows: Rows, rids: set<Rid>): Rows {
    rows - rids
  }

  // ----- pruning some candidates leaves the others candidates -----

  /** Of the same key, some row is newest: a row that is not outdated and newer than any outdated one. */
  lemma {:induction false} NewestOf(rows: Rows, rids: set<Rid>, rid: Rid) returns (newest: Rid)
    requires rid in rids && rids <= rows.Keys
    ensures newest in rids && (newest == rid || Newer(rows, newest, rid))
    ensures forall other :: other in rids ==> !Newer(rows, other, newest)
    decreases rids
  {
    if other :| other in rids && Newer(rows, other, rid) {
      newest := NewestOf(rows, rids - {rid}, other);
    } else {
      newest := rid;
    }
  }

  /** The newest row of a key is never a candidate, so what was outdated stays so whatever else is pruned. */
  lemma PruningKeepsCandidates(rows: Rows, category: string, rule: Rule, now: int, gone: set<Rid>)
    requires gone <= Candidates(rows, category, rule, now)
    ensures Candidates(Without(rows, gone), category, rule, now) == Candidates(rows, category, rule, now) - gone
  {
    var left := Without(rows, gone);
    if rule.KeepLatest? {
      forall rid | rid in left ensures Outdated(left, rid) <==> Outdated(rows, rid) {
        if Outdated(rows, rid) {
          var newest := NewestOf(rows, rows.Keys, rid);
          assert newest in left && Newer(left, newest, rid);
        }
        if Outdated(left, rid) {
          var other :| other in left && Newer(left, other, rid);
          assert Newer(rows, other, rid);
        }
      }
    }
  }

  /** Pruning one category leaves the candidates of another as they are. */
  lemma OtherCategoryUntouched(rows: Rows, category: string, rule: Rule, now: int, gone: set<Rid>)
    requires forall rid :: rid in gone && rid in rows ==> rows[rid].category != category
    ensures Candidates(Without(rows, gone), category, rule, now) == Candidates(rows, category, rule, now)
  {
    var left := Without(rows, gone);
    forall rid | rid in left && rows[rid].category == category ensures Outdated(left, rid) <==> Outdated(rows, rid) {
      if Outdated(rows, rid) {
        var other :| other in rows && Newer(rows, other, rid);
        assert Newer(left, other, rid);
      }
      if Outdated(left, rid) {
        var other :| other in left && Newer(left, other, rid);
        assert Newer(rows, other, rid);
      }
    }
  }

  // ----- what all the rules keep -----

  type Rules = seq<(string, Rule)>

  ghost predicate DistinctRules(rules: Rules) {
    forall i, j :: 0 <= i < j < |rules| ==> rules[i].0 != rules[j].0
  }

  /** All a run may prune: the candidates of every rule whose category is known. */
  function AllCandidates(rows: Rows, rules: Rules, known: set<string>, now: int): set<Rid> {
    if rules == [] then {}
    else
      var (category, rule) := rules[|rules| - 1];
      AllCandidates(rows, rules[..|rules| - 1], known, now)
      + if category in known then Candidates(rows, category, rule, now) else {}
  }

  function Kept(rows: Rows, rules: Rules, known: set<string>, now: int): Rows {
    Without(rows, AllCandidates(rows, rules, known, now))
  }

  /** A candidate of some known rule, and the other way round. */
  lemma {:induction false} IsCandidate(rows: Rows, rules: Rules, known: set<string>, now: int, rid: Rid)
    ensures rid in AllCandidates(rows, rules, known, now) <==>
              exists i :: 0 <= i < |rules| && rules[i].0 in known
                && rid in Candidates(rows, rules[i].0, rules[i].1, now)
  {
    if rules != [] {
      var init := rules[..|rules| - 1];
      IsCandidate(rows, init, known, now, rid);
      assert forall i :: 0 <= i < |init| ==> init[i] == rules[i];
    }
  }

  /** The rule for a row's category decides alone. */
  lemma RuleDecides(rows: Rows, rules: Rules, known: set<string>, now: int, i: nat, rid: Rid)
    requires DistinctRules(rules) && i < |rules| && rules[i].0 in known && rid in rows
             && rows[rid].category == rules[i].0
    ensures rid in AllCandidates(rows, rules, known, now) <==> Prunable(rows, rules[i].1, now, rid)
  {
    IsCandidate(rows, rules, known, now, rid);
  }

  lemma {:induction false} PruningKeepsAll(rows: Rows, rules: Rules, known: set<string>, now: int, gone: set<Rid>)
    requires DistinctRules(rules) && gone <= AllCandidates(rows, rules, known, now)
    ensures AllCandidates(Without(rows, gone), rules, known, now) == AllCandidates(rows, rules, known, now) - gone
  {
    var left := Without(rows, gone);
    forall i | 0 <= i < |rules| && rules[i].0 in known
      ensures Candidates(left, rules[i].0, rules[i].1, now) == Candidates(rows, rules[i].0, rules[i].1, now) - gone
    {
      var mine := set rid | rid in gone && rid in rows && rows[rid].category == rules[i].0;
      forall rid | rid in mine ensures rid in Candidates(rows, rules[i].0, rules[i].1, now) {
        RuleDecides(rows, rules, known, now, i, rid);
      }
      OtherCategoryUntouched(rows, rules[i].0, rules[i].1, now, gone - mine);
      PruningKeepsCandidates(Without(rows, gone - mine), rules[i].0, rules[i].1, now, mine);
      assert Without(Without(rows, gone - mine), mine) == left;
    }
    forall rid
      ensures rid in AllCandidates(left, rules, known, now) <==> rid in AllCandidates(rows, rules, known, now) - gone
    {
      IsCandidate(left, rules, known, now, rid);
      IsCandidate(rows, rules, known, now, rid);
    }
  }

  /** Pruning some of what the rules do not keep, and then the rest, is pruning it all: what is kept is the same. */
  lemma PartThenRest(rows: Rows, rules: Rules, known: set<string>, now: int, gone: set<Rid>)
    requires DistinctRules(rules) && gone <= AllCandidates(rows, rules, known, now)
    ensures Kept(Without(rows, gone), rules, known, now) == Kept(rows, rules, known, now)
  {
    PruningKeepsAll(rows, rules, known, now, gone);
  }

  /** Of each key under a keep-latest rule, exactly one row is kept, and it is the newest. */
  lemma LatestIsKept(rows: Rows, rules: Rules, known: set<string>, now: int, i: nat, rid: Rid) returns (newest: Rid)
    requires DistinctRules(rules) && i < |rules| && rules[i].0 in known && rules[i].1 == KeepLatest
    requires rid in rows && rows[rid].category == rules[i].0
    ensures newest in Kept(rows, rules, known, now) && (newest == rid || Newer(rows, newest, rid))
    ensures rid in Kept(rows, rules, known, now) ==> rid == newest
  {
    newest := NewestOf(rows, rows.Keys, rid);
    RuleDecides(rows, rules, known, now, i, newest);
    RuleDecides(rows, rules, known, now, i, rid);
  }

  /** A run pruned some of what the rules do not keep. */
  ghost predicate Ran(rows: Rows, left: Rows, rules: Rules, known: set<string>, now: int) {
    exists gone :: gone <= AllCandidates(rows, rules, known, now) && left == Without(rows, gone)
  }

  /**
   However many runs it takes, capped or not, the one that is not capped leaves exactly what one prune of it all
   would.
   */
  lemma {:induction false} RunsRefineOnePrune(runs: seq<Rows>, rules: Rules, known: set<string>, now: int)
    requires DistinctRules(rules) && |runs| > 1
    requires forall k :: 0 < k < |runs| ==> Ran(runs[k - 1], runs[k], rules, known, now)
    requires runs[|runs| - 1] == Kept(runs[|runs| - 2], rules, known, now)
    ensures runs[|runs| - 1] == Kept(runs[0], rules, known, now)
  {
    if |runs| > 2 {
      var rest := runs[1..];
      assert forall k :: 0 < k < |rest| ==> rest[k] == runs[k + 1] && rest[k - 1] == runs[k];
      RunsRefineOnePrune(rest, rules, known, now);
      assert Ran(runs[0], runs[1], rules, known, now);
      var gone :| gone <= AllCandidates(runs[0], rules, known, now) && runs[1] == Without(runs[0], gone);
      PartThenRest(runs[0], rules, known, now, gone);
    }
  }

  /** What one run leaves: all the rules keep and nothing else, or, when it was capped, at least `cap` rows fewer. */
  ghost predicate RunLeaves(rows: Rows, left: Rows, rules: Rules, known: set<string>, now: int, capped: bool, cap: nat)
  {
    exists gone ::
      gone <= AllCandidates(rows, rules, known, now) && Took(rows, left, rules, known, now, capped, cap, gone)
  }

  ghost predicate Took(rows: Rows, left: Rows, rules: Rules, known: set<string>, now: int, capped: bool, cap: nat,
                       gone: set<Rid>)
  {
    && left == Without(rows, gone)
    && if capped then |gone| >= cap else gone == AllCandidates(rows, rules, known, now)
  }

  /** A run at its cap leaves a backlog at least `cap` rows smaller. */
  lemma BacklogShrinks(rows: Rows, left: Rows, rules: Rules, known: set<string>, now: int, cap: nat)
    requires DistinctRules(rules) && RunLeaves(rows, left, rules, known, now, true, cap)
    ensures |AllCandidates(left, rules, known, now)| + cap <= |AllCandidates(rows, rules, known, now)|
  {
    var gone :| gone <= AllCandidates(rows, rules, known, now) && Took(rows, left, rules, known, now, true, cap, gone);
    PruningKeepsAll(rows, rules, known, now, gone);
    var all := AllCandidates(rows, rules, known, now);
    assert all == (all - gone) + gone && (all - gone) !! gone;
  }

  /** Runs that were all capped took the cap from the backlog each. */
  lemma {:induction false} CappedRuns(runs: seq<Rows>, rules: Rules, known: set<string>, now: int, cap: nat)
    requires DistinctRules(rules) && runs != []
    requires forall k :: 0 < k < |runs| ==> RunLeaves(runs[k - 1], runs[k], rules, known, now, true, cap)
    ensures (|runs| - 1) * cap <= |AllCandidates(runs[0], rules, known, now)|
  {
    if |runs| > 1 {
      var rest := runs[1..];
      assert forall k :: 0 < k < |rest| ==> rest[k] == runs[k + 1] && rest[k - 1] == runs[k];
      CappedRuns(rest, rules, known, now, cap);
      BacklogShrinks(runs[0], runs[1], rules, known, now, cap);
      assert (|runs| - 1) * cap == (|rest| - 1) * cap + cap;
    }
  }

  /**
   Repeating ends: of runs at one time that could take more, at the cap, than the backlog holds, one is not capped, and
   it leaves what one prune of it all would.
   */
  lemma BacklogEnds(runs: seq<Rows>, capped: seq<bool>, rules: Rules, known: set<string>, now: int, cap: nat)
    returns (last: nat)
    requires DistinctRules(rules) && |runs| == |capped| + 1
    requires forall k :: 0 <= k < |capped| ==> RunLeaves(runs[k], runs[k + 1], rules, known, now, capped[k], cap)
    requires |capped| * cap > |AllCandidates(runs[0], rules, known, now)|
    ensures last < |capped| && !capped[last] && runs[last + 1] == Kept(runs[0], rules, known, now)
  {
    if k :| 0 <= k < |capped| && !capped[k] {
      last := k;
      var upTo := runs[..k + 2];
      forall j | 0 < j < |upTo| ensures Ran(upTo[j - 1], upTo[j], rules, known, now) {
        assert RunLeaves(runs[j - 1], runs[j - 1 + 1], rules, known, now, capped[j - 1], cap);
      }
      assert RunLeaves(runs[k], runs[k + 1], rules, known, now, capped[k], cap);
      RunsRefineOnePrune(upTo, rules, known, now);
    } else {
      last := 0;
      forall k | 0 < k < |runs| ensures RunLeaves(runs[k - 1], runs[k], rules, known, now, true, cap) {
        assert RunLeaves(runs[k - 1], runs[k - 1 + 1], rules, known, now, capped[k - 1], cap);
      }
      CappedRuns(runs, rules, known, now, cap);
      assert false;
    }
  }
}
