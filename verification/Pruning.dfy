/**
 The prune at work (server/retention.js): tables deleted from in batches by rid, with the counts it reports.
 */
module Pruning {
  import opened Basics
  import opened Retention

  function IdsOf(rows: Rows, rids: set<Rid>): set<string> {
    set rid | rid in rids && rid in rows :: rows[rid].id
  }

  function RevisionsWithout(revisions: Revisions, ids: set<string>): Revisions {
    set r | r in revisions && r.0 !in ids
  }

  /** The first `limit` candidates by rid, or all of them. */
  ghost predicate FirstByRid(candidates: set<Rid>, limit: nat, rids: set<Rid>) {
    && rids <= candidates && |rids| == Min(limit, |candidates|)
    && forall a, b :: a in rids && b in candidates && b !in rids ==> a < b
  }

  lemma {:induction false} SubsetSize(a: set<Rid>, b: set<Rid>)
    requires a <= b
    ensures |a| <= |b| && (|a| == |b| ==> a == b)
    decreases a
  {
    if a != {} {
      var x :| x in a;
      SubsetSize(a - {x}, b - {x});
    }
  }

  method Smallest(rids: set<Rid>) returns (least: Rid)
    requires rids != {}
    ensures least in rids && forall r :: r in rids ==> least <= r
  {
    least :| least in rids;
    var rest := rids - {least};
    while rest != {}
      invariant rest <= rids && least in rids && forall r :: r in rids && r !in rest ==> least <= r
      decreases rest
    {
      var r :| r in rest;
      rest := rest - {r};
      if r < least { least := r; }
    }
  }

  method TakeFirst(candidates: set<Rid>, limit: nat) returns (rids: set<Rid>)
    ensures FirstByRid(candidates, limit, rids)
  {
    rids := {};
    var rest := candidates;
    while rest != {} && |rids| < limit
      invariant rids !! rest && rids + rest == candidates && |rids| <= limit
      invariant forall a, b :: a in rids && b in rest ==> a < b
      decreases rest
    {
      var r := Smallest(rest);
      rids, rest := rids + {r}, rest - {r};
    }
    assert |candidates| == |rids| + |rest| by { assert candidates == rids + rest; }
  }

  // ----- deleting in parts is deleting at once -----

  /** Rows and revisions once `gone` was deleted from them. */
  ghost predicate Deleted(rows: Rows, revisions: Revisions, gone: set<Rid>, left: Rows, still: Revisions) {
    && gone <= rows.Keys
    && left == Without(rows, gone) && still == RevisionsWithout(revisions, IdsOf(rows, gone))
  }

  lemma DeletedTwice(rows: Rows, revisions: Revisions, a: set<Rid>, mid: Rows, midRevisions: Revisions, b: set<Rid>,
                     left: Rows, still: Revisions)
    requires Deleted(rows, revisions, a, mid, midRevisions) && Deleted(mid, midRevisions, b, left, still)
    ensures Deleted(rows, revisions, a + b, left, still) && |a + b| == |a| + |b|
  {
    assert a !! b;
    assert left == Without(rows, a + b);
    assert IdsOf(rows, a + b) == IdsOf(rows, a) + IdsOf(mid, b);
  }

  lemma DeletedNothing(rows: Rows, revisions: Revisions)
    ensures Deleted(rows, revisions, {}, rows, revisions)
  {
    assert Without(rows, {}) == rows;
    assert RevisionsWithout(revisions, IdsOf(rows, {})) == revisions;
  }

  /** With ids unique, exactly the revisions of deleted items go. */
  lemma KeptRevisionsStay(rows: Rows, revisions: Revisions, gone: set<Rid>, left: Rows, still: Revisions)
    requires Deleted(rows, revisions, gone, left, still)
    requires forall a, b :: a in rows && b in rows && rows[a].id == rows[b].id ==> a == b
    ensures forall rid, n :: rid in left ==> ((left[rid].id, n) in still <==> (left[rid].id, n) in revisions)
    ensures forall rid, n :: rid in gone ==> (rows[rid].id, n) !in still
  {
    forall rid | rid in left ensures left[rid].id !in IdsOf(rows, gone) {}
    forall rid | rid in gone ensures rows[rid].id in IdsOf(rows, gone) {}
  }

  // ----- counts -----

  datatype Counts = Counts(pruned: nat, revisions: nat, batches: nat, categories: map<string, nat>, capped: seq<string>)

  function CountOf(counts: Counts, category: string): nat {
    if category in counts.categories then counts.categories[category] else 0
  }

  function InCategory(rows: Rows, gone: set<Rid>, category: string): set<Rid> {
    set rid | rid in gone && rid in rows && rows[rid].category == category
  }

  function Tallied(counts: Counts, category: string, items: nat, removed: nat): Counts {
    counts.(batches := counts.batches + 1, pruned := counts.pruned + items, revisions := counts.revisions + removed,
            categories := if items > 0 then counts.categories[category := CountOf(counts, category) + items]
              else counts.categories)
  }

  /** `batches` batches of a category deleted `items` items and `removed` revisions. */
  ghost predicate Progressed(before: Counts, after: Counts, category: string, batches: nat, items: nat, removed: nat) {
    && after.pruned == before.pruned + items
    && after.batches == before.batches + batches
    && after.revisions == before.revisions + removed
    && CountOf(after, category) == CountOf(before, category) + items
    && (forall c :: c != category ==> CountOf(after, c) == CountOf(before, c))
    && after.capped == before.capped
  }

  /** After some batches: what was deleted, and the counts of it. */
  ghost predicate Batched(rows: Rows, revisions: Revisions, gone: set<Rid>, left: Rows, still: Revisions,
                          before: Counts, after: Counts, category: string, batches: nat, removed: nat)
  {
    && Deleted(rows, revisions, gone, left, still) && |revisions| == |still| + removed
    && Progressed(before, after, category, batches, |gone|, removed)
  }

  lemma TalliedNext(before: Counts, after: Counts, category: string, batches: nat, items: nat, removed: nat, i: nat,
                    r: nat)
    requires Progressed(before, after, category, batches, items, removed)
    ensures Progressed(before, Tallied(after, category, i, r), category, batches + 1, items + i, removed + r)
  {}

  /** Batches take the candidates `size` at a time. */
  ghost predicate Taken(candidates: set<Rid>, gone: set<Rid>, size: nat, batches: nat) {
    gone <= candidates && |gone| == size * batches
  }

  lemma TakenNext(candidates: set<Rid>, gone: set<Rid>, size: nat, batches: nat, more: set<Rid>)
    requires Taken(candidates, gone, size, batches) && FirstByRid(candidates - gone, size, more)
    ensures |more| <= size && gone + more <= candidates
    ensures |more| < size ==> gone + more == candidates
    ensures |more| == size ==> Taken(candidates, gone + more, size, batches + 1)
  {
    SubsetSize(more, candidates - gone);
    assert |gone + more| == |gone| + |more| by { assert gone !! more; }
    assert size * (batches + 1) == size * batches + size;
  }

  lemma CapIsPositive(size: nat, batches: nat)
    requires size >= 1 && batches >= 1
    ensures size * batches >= 1
  {}

  function RevisionsOf(revisions: Revisions, ids: set<string>): Revisions {
    set r | r in revisions && r.0 in ids
  }

  lemma RevisionsSplit(revisions: Revisions, ids: set<string>)
    ensures |revisions| == |RevisionsWithout(revisions, ids)| + |RevisionsOf(revisions, ids)|
  {
    assert revisions == RevisionsWithout(revisions, ids) + RevisionsOf(revisions, ids);
    assert RevisionsWithout(revisions, ids) !! RevisionsOf(revisions, ids);
  }

  class Pruner {
    var rows: Rows
    var revisions: Revisions
    const rules: Rules
    const known: set<string>
    const batchSize: nat
    const maxBatches: nat

    constructor (rows: Rows, revisions: Revisions, rules: Rules, known: set<string>, batchSize: nat, maxBatches: nat)
      requires 1 <= batchSize <= 10000 && maxBatches >= 1
      ensures this.rows == rows && this.revisions == revisions && this.rules == rules && this.known == known
      ensures this.batchSize == batchSize && this.maxBatches == maxBatches
    {
      this.rows, this.revisions, this.rules, this.known := rows, revisions, rules, known;
      this.batchSize, this.maxBatches := batchSize, maxBatches;
    }

    /** What a category at its cap loses in a run. */
    function Cap(): nat {
      batchSize * maxBatches
    }

    /** One statement: the first candidates by rid go, and their revisions. */
    method PruneBatch(category: string, rule: Rule, now: int) returns (items: nat, removed: nat, ghost gone: set<Rid>)
      modifies this`rows, this`revisions
      ensures FirstByRid(Candidates(old(rows), category, rule, now), batchSize, gone) && items == |gone|
      ensures Deleted(old(rows), old(revisions), gone, rows, revisions)
      ensures |old(revisions)| == |revisions| + removed
    {
      var rids := TakeFirst(Candidates(rows, category, rule, now), batchSize);
      var ids := IdsOf(rows, rids);
      RevisionsSplit(revisions, ids);
      items, removed, gone := |rids|, |RevisionsOf(revisions, ids)|, rids;
      rows := Without(rows, rids);
      revisions := RevisionsWithout(revisions, ids);
    }

    /** A category, batch by batch, until a batch is not full or the cap is reached; then more may be left. */
    method PruneCategory(category: string, rule: Rule, now: int, counts: Counts)
      returns (after: Counts, capped: bool, ghost gone: set<Rid>, ghost removed: nat, ghost batches: nat)
      requires batchSize >= 1 && maxBatches >= 1
      modifies this`rows, this`revisions
      ensures gone <= Candidates(old(rows), category, rule, now)
      ensures !capped ==> gone == Candidates(old(rows), category, rule, now)
      ensures capped ==> |gone| == Cap()
      ensures 1 <= batches <= maxBatches
      ensures Batched(old(rows), old(revisions), gone, rows, revisions, counts, after, category, batches, removed)
    {
      after, gone, removed, batches := counts, {}, 0, 0;
      ghost var rows0, revisions0, candidates := rows, revisions, Candidates(rows, category, rule, now);
      DeletedNothing(rows, revisions);
      var batch := 0;
      while batch < maxBatches
        invariant 0 <= batch <= maxBatches && Taken(candidates, gone, batchSize, batch)
        invariant Batched(rows0, revisions0, gone, rows, revisions, counts, after, category, batch, removed)
      {
        var items, r;
        items, r, gone := NextBatch(category, rule, now, rows0, revisions0, candidates, gone, counts, after, batch,
          removed);
        after := Tallied(after, category, items, r);
        removed := removed + r;
        batch := batch + 1;
        if items < batchSize { return after, false, gone, removed, batch; }
      }
      capped, batches := true, batch;
    }

    /** The next batch of a category's prune. */
    method NextBatch(category: string, rule: Rule, now: int, ghost rows0: Rows, ghost revisions0: Revisions,
                     ghost candidates: set<Rid>, ghost gone: set<Rid>, ghost counts: Counts, ghost after: Counts,
                     ghost batch: nat, ghost removed: nat)
      returns (items: nat, r: nat, ghost all: set<Rid>)
      requires Taken(candidates, gone, batchSize, batch)
      requires Batched(rows0, revisions0, gone, rows, revisions, counts, after, category, batch, removed)
      requires candidates == Candidates(rows0, category, rule, now)
      modifies this`rows, this`revisions
      ensures items <= batchSize
      ensures Batched(rows0, revisions0, all, rows, revisions, counts, Tallied(after, category, items, r), category,
                batch + 1,
                      removed + r)
      ensures if items < batchSize then all == candidates else Taken(candidates, all, batchSize, batch + 1)
    {
      ghost var mid, midRevisions := rows, revisions;
      assert Candidates(mid, category, rule, now) == candidates - gone by {
        PruningKeepsCandidates(rows0, category, rule, now, gone);
      }
      ghost var more;
      items, r, more := PruneBatch(category, rule, now);
      DeletedTwice(rows0, revisions0, gone, mid, midRevisions, more, rows, revisions);
      TakenNext(candidates, gone, batchSize, batch, more);
      TalliedNext(counts, after, category, batch, |gone|, removed, items, r);
      all := gone + more;
    }

    /** A run over the rules, in their order, at one time. */
    method RunOnce(now: int) returns (counts: Counts, ghost gone: set<Rid>)
      requires batchSize >= 1 && maxBatches >= 1 && DistinctRules(rules)
      modifies this`rows, this`revisions
      ensures gone <= AllCandidates(old(rows), rules, known, now)
      ensures Deleted(old(rows), old(revisions), gone, rows, revisions)
      ensures if counts.capped == [] then rows == Kept(old(rows), rules, known, now) else gone != {}
      ensures RunLeaves(old(rows), rows, rules, known, now, counts.capped != [], Cap())
      ensures Kept(rows, rules, known, now) == Kept(old(rows), rules, known, now)
      ensures counts.pruned == |gone| && counts.revisions + |revisions| == |old(revisions)|
      ensures CountsAgree(old(rows), gone, counts)
    {
      counts, gone := Counts(0, 0, 0, map[], []), {};
      ghost var rows0, revisions0 := rows, revisions;
      DeletedNothing(rows, revisions);
      var i := 0;
      while i < |rules|
        invariant 0 <= i <= |rules|
        invariant RanOver(rows0, AllCandidates(rows0, rules[..i], known, now), gone, Cap(), counts)
        invariant Deleted(rows0, revisions0, gone, rows, revisions)
        invariant counts.revisions + |revisions| == |revisions0|
      {
        counts, gone := RunRule(i, now, counts, rows0, revisions0, gone);
        i := i + 1;
      }
      assert rules[..i] == rules;
      PartThenRest(rows0, rules, known, now, gone);
      CapIsPositive(batchSize, maxBatches);
      assert Took(rows0, rows, rules, known, now, counts.capped != [], Cap(), gone);
    }

    /** One rule of a run; a category the contract no longer has is left alone. */
    method RunRule(i: nat, now: int, counts: Counts, ghost rows0: Rows, ghost revisions0: Revisions,
                   ghost gone: set<Rid>)
      returns (after: Counts, ghost all: set<Rid>)
      requires batchSize >= 1 && maxBatches >= 1 && DistinctRules(rules) && i < |rules|
      requires RanOver(rows0, AllCandidates(rows0, rules[..i], known, now), gone, Cap(), counts)
      requires Deleted(rows0, revisions0, gone, rows, revisions) && counts.revisions + |revisions| == |revisions0|
      modifies this`rows, this`revisions
      ensures RanOver(rows0, AllCandidates(rows0, rules[..i + 1], known, now), all, Cap(), after)
      ensures Deleted(rows0, revisions0, all, rows, revisions) && after.revisions + |revisions| == |revisions0|
    {
      var (category, rule) := rules[i];
      ghost var earlier, mine := AllCandidates(rows0, rules[..i], known, now), Candidates(rows0, category, rule, now);
      NextCandidates(rows0, rules, known, now, i);
      if category !in known { return counts, gone; }
      ghost var mid, midRevisions := rows, revisions;
      assert Candidates(mid, category, rule, now) == mine && Elsewhere(rows0, gone, category) by {
        EarlierElsewhere(rows0, rules, known, now, i, gone);
        OtherCategoryUntouched(rows0, category, rule, now, gone);
      }
      var capped;
      ghost var more, removed, batches;
      after, capped, more, removed, batches := PruneCategory(category, rule, now, counts);
      DeletedTwice(rows0, revisions0, gone, mid, midRevisions, more, rows, revisions);
      all := gone + more;
      RanOverNext(rows0, earlier, mine, gone, Cap(), counts, category, more, batches, removed, after, capped);
      if capped { after := after.(capped := after.capped + [category]); }
    }
  }

  /**
   Some rules have run: `gone` are candidates of theirs, all of them if none was capped, else at least as many as the
   cap; and the counts are right.
   */
  ghost predicate RanOver(rows: Rows, candidates: set<Rid>, gone: set<Rid>, cap: nat, counts: Counts) {
    && gone <= candidates
    && (if counts.capped == [] then gone == candidates else |gone| >= cap)
    && counts.pruned == |gone|
    && CountsAgree(rows, gone, counts)
  }

  ghost predicate CountsAgree(rows: Rows, gone: set<Rid>, counts: Counts) {
    forall c :: CountOf(counts, c) == |InCategory(rows, gone, c)|
  }

  lemma NextCandidates(rows: Rows, rules: Rules, known: set<string>, now: int, i: nat)
    requires i < |rules|
    ensures AllCandidates(rows, rules[..i + 1], known, now)
         == AllCandidates(rows, rules[..i], known, now)
            + if rules[i].0 in known then Candidates(rows, rules[i].0, rules[i].1, now) else {}
  {
    assert rules[..i + 1][..i] == rules[..i];
  }

  ghost predicate Elsewhere(rows: Rows, gone: set<Rid>, category: string) {
    forall rid :: rid in gone ==> rid in rows && rows[rid].category != category
  }

  /** What earlier rules pruned is of other categories. */
  lemma EarlierElsewhere(rows: Rows, rules: Rules, known: set<string>, now: int, i: nat, gone: set<Rid>)
    requires DistinctRules(rules) && i < |rules| && gone <= AllCandidates(rows, rules[..i], known, now)
    ensures Elsewhere(rows, gone, rules[i].0)
  {
    forall rid | rid in gone ensures rid in rows && rows[rid].category != rules[i].0 {
      IsCandidate(rows, rules[..i], known, now, rid);
    }
  }

  lemma CountsNext(rows: Rows, gone: set<Rid>, before: Counts, category: string, more: set<Rid>, batches: nat,
                   removed: nat, after: Counts)
    requires CountsAgree(rows, gone, before) && Elsewhere(rows, gone, category)
    requires forall rid :: rid in more ==> rid in rows && rows[rid].category == category
    requires Progressed(before, after, category, batches, |more|, removed)
    ensures CountsAgree(rows, gone + more, after)
  {
    assert InCategory(rows, gone, category) == {};
    forall c ensures CountOf(after, c) == |InCategory(rows, gone + more, c)| {
      assert InCategory(rows, gone + more, c) == if c == category then more else InCategory(rows, gone, c);
    }
  }

  lemma RanOverNext(rows: Rows, earlier: set<Rid>, mine: set<Rid>, gone: set<Rid>, cap: nat, before: Counts,
                    category: string, more: set<Rid>, batches: nat, removed: nat, after: Counts, capped: bool)
    requires RanOver(rows, earlier, gone, cap, before) && Elsewhere(rows, gone, category)
    requires more <= mine && (if capped then |more| >= cap else more == mine)
             && (forall rid :: rid in more ==> rid in rows && rows[rid].category == category)
    requires Progressed(before, after, category, batches, |more|, removed)
    ensures RanOver(rows, earlier + mine, gone + more, cap, if capped then after.(capped := after.capped + [category])
              else after)
  {
    CountsNext(rows, gone, before, category, more, batches, removed, after);
    assert |gone + more| == |gone| + |more| by { assert gone !! more; }
  }
}
