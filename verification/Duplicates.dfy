/**
 What keeping one item per identity means, said without a loop: identities in first-seen order, cut at a limit, each
 with its first or its last item. The readers' loops are proved to compute exactly this.
 */
module Duplicates {
  import opened Basics

  /** The distinct identities of a list of items, in the order they are first seen. */
  function FirstSeen(items: seq<Item>): seq<string> {
    if items == [] then []
    else
      var before := FirstSeen(items[..|items| - 1]);
      var id := items[|items| - 1].identity;
      if id in before then before else before + [id]
  }

  lemma {:induction false} FirstSeenMembers(items: seq<Item>, id: string)
    ensures id in FirstSeen(items) <==> exists i :: 0 <= i < |items| && items[i].identity == id
  {
    if items != [] {
      var init := items[..|items| - 1];
      FirstSeenMembers(init, id);
      if id in FirstSeen(items) && id in FirstSeen(init) {
        var i :| 0 <= i < |init| && init[i].identity == id;
        assert items[i].identity == id;
      }
      if i :| 0 <= i < |items| && items[i].identity == id {
        assert i < |init| ==> init[i].identity == id;
      }
    }
  }

  lemma {:induction false} FirstSeenDistinct(items: seq<Item>)
    ensures forall i, j :: 0 <= i < j < |FirstSeen(items)| ==> FirstSeen(items)[i] != FirstSeen(items)[j]
  {
    if items != [] {
      FirstSeenDistinct(items[..|items| - 1]);
    }
  }

  /**
   `kept` is what a limit keeps of `items`: the first `limit` distinct identities, each with its first or last item.
   */
  ghost predicate Keeps(kept: seq<Item>, items: seq<Item>, limit: nat, last: bool) {
    Lists(kept, FirstSeen(items), limit) && AllKept(kept, items, last)
  }

  ghost predicate Lists(kept: seq<Item>, ids: seq<string>, limit: nat) {
    |kept| == Min(limit, |ids|) && forall k :: 0 <= k < |kept| ==> kept[k].identity == ids[k]
  }

  ghost predicate AllKept(kept: seq<Item>, items: seq<Item>, last: bool) {
    forall k :: 0 <= k < |kept| ==> KeptItem(kept[k], items, last)
  }

  ghost predicate KeptItem(item: Item, items: seq<Item>, last: bool) {
    exists i :: Picked(items, i, last) && items[i] == item
  }

  /** Position `i` holds the first, or the last, item of its identity. */
  ghost predicate Picked(items: seq<Item>, i: int, last: bool) {
    && 0 <= i < |items|
    && if last then forall j :: i < j < |items| ==> items[j].identity != items[i].identity
       else forall j :: 0 <= j < i ==> items[j].identity != items[i].identity
  }

  lemma FirstSeenSnoc(items: seq<Item>, more: Item)
    ensures FirstSeen(items + [more])
            == if more.identity in FirstSeen(items) then FirstSeen(items) else FirstSeen(items) + [more.identity]
  {
    assert (items + [more])[..|items|] == items;
  }

  /** An item kept before stays kept, unless the last is kept and `more` has its identity. */
  lemma KeptSnoc(item: Item, items: seq<Item>, last: bool, more: Item)
    requires KeptItem(item, items, last) && (!last || more.identity != item.identity)
    ensures KeptItem(item, items + [more], last)
  {
    var i :| Picked(items, i, last) && items[i] == item;
    assert Picked(items + [more], i, last);
  }

  lemma KeptNew(items: seq<Item>, last: bool, more: Item)
    requires last || more.identity !in FirstSeen(items)
    ensures KeptItem(more, items + [more], last)
  {
    FirstSeenMembers(items, more.identity);
    assert Picked(items + [more], |items|, last);
  }

  lemma AllKeptSnoc(kept: seq<Item>, items: seq<Item>, last: bool, more: Item)
    requires AllKept(kept, items, last) && (!last || more.identity !in Identities(kept))
    ensures AllKept(kept, items + [more], last)
  {
    forall k | 0 <= k < |kept| ensures KeptItem(kept[k], items + [more], last) {
      assert kept[k].identity in Identities(kept);
      KeptSnoc(kept[k], items, last, more);
    }
  }

  lemma ListsSnoc(kept: seq<Item>, ids: seq<string>, limit: nat, more: Item)
    requires Lists(kept, ids, limit)
    ensures |kept| < limit ==> Lists(kept + [more], ids + [more.identity], limit)
    ensures |kept| >= limit ==> Lists(kept, ids + [more.identity], limit)
  {}

  lemma ListedSeen(kept: seq<Item>, items: seq<Item>, limit: nat, id: string)
    requires Lists(kept, FirstSeen(items), limit) && id in Identities(kept)
    ensures id in FirstSeen(items)
  {
    var k :| 0 <= k < |kept| && kept[k].identity == id;
    assert FirstSeen(items)[k] == id;
  }

  /** A new identity is appended while there is room. */
  lemma KeepsNew(kept: seq<Item>, items: seq<Item>, limit: nat, last: bool, more: Item)
    requires Keeps(kept, items, limit, last) && more.identity !in FirstSeen(items)
    ensures |kept| < limit ==> Keeps(kept + [more], items + [more], limit, last)
    ensures |kept| >= limit ==> Keeps(kept, items + [more], limit, last)
  {
    FirstSeenSnoc(items, more);
    ListsSnoc(kept, FirstSeen(items), limit, more);
    if more.identity in Identities(kept) { ListedSeen(kept, items, limit, more.identity); }
    AllKeptSnoc(kept, items, last, more);
    KeptNew(items, last, more);
    AllKeptMore(kept, items + [more], last, more);
  }

  lemma AllKeptMore(kept: seq<Item>, items: seq<Item>, last: bool, more: Item)
    requires AllKept(kept, items, last) && KeptItem(more, items, last)
    ensures AllKept(kept + [more], items, last)
  {}

  /** A known identity changes nothing when the first is kept, or when it is not among the kept ones. */
  lemma KeepsRepeat(kept: seq<Item>, items: seq<Item>, limit: nat, last: bool, more: Item)
    requires Keeps(kept, items, limit, last) && more.identity in FirstSeen(items)
    requires !last || more.identity !in Identities(kept)
    ensures Keeps(kept, items + [more], limit, last)
  {
    FirstSeenSnoc(items, more);
    AllKeptSnoc(kept, items, last, more);
  }

  /** When the last is kept, a known identity takes its earlier item's place. */
  lemma KeepsReplace(kept: seq<Item>, items: seq<Item>, limit: nat, more: Item, k: nat)
    requires Keeps(kept, items, limit, true) && k < |kept| && kept[k].identity == more.identity
    ensures Keeps(kept[k := more], items + [more], limit, true)
  {
    assert FirstSeen(items)[k] == more.identity;
    FirstSeenSnoc(items, more);
    FirstSeenDistinct(items);
    KeptNew(items, true, more);
    forall j | 0 <= j < |kept| && j != k ensures KeptItem(kept[j], items + [more], true) {
      KeptSnoc(kept[j], items, true, more);
    }
  }

  /** The kept list is determined: two lists that keep the same are equal. */
  lemma KeepsUnique(a: seq<Item>, b: seq<Item>, items: seq<Item>, limit: nat, last: bool)
    requires Keeps(a, items, limit, last) && Keeps(b, items, limit, last)
    ensures a == b
  {
    forall k | 0 <= k < |a| ensures a[k] == b[k] {
      var i :| Picked(items, i, last) && items[i] == a[k];
      var j :| Picked(items, j, last) && items[j] == b[k];
      assert items[i].identity == items[j].identity;
    }
  }

  lemma KeepsDistinct(kept: seq<Item>, items: seq<Item>, limit: nat, last: bool)
    requires Keeps(kept, items, limit, last)
    ensures DistinctIdentities(kept) && |kept| <= limit
  {
    FirstSeenDistinct(items);
  }

  /** Once the limit is reached, keeping the first items ignores the rest. */
  lemma {:induction false} KeepsStable(kept: seq<Item>, items: seq<Item>, more: seq<Item>, limit: nat)
    requires Keeps(kept, items, limit, false) && |kept| == limit
    ensures Keeps(kept, items + more, limit, false)
  {
    if more == [] {
      assert items + more == items;
    } else {
      var init, last := more[..|more| - 1], more[|more| - 1];
      KeepsStable(kept, items, init, limit);
      assert items + init + [last] == items + more;
      if last.identity in FirstSeen(items + init) {
        KeepsRepeat(kept, items + init, limit, false, last);
      } else {
        KeepsNew(kept, items + init, limit, false, last);
      }
    }
  }
}
