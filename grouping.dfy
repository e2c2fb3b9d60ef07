/** Grouping a list into a record keyed by one string field, as the pages'
    `reduce` does: the first item with a new key creates its group, every
    item is pushed onto its key's group, and the groups are listed in the
    order their keys were inserted. */
module Grouping {

  /** No key is listed twice. */
  predicate Distinct(ks: seq<string>) {
    forall a, b :: 0 <= a < b < |ks| ==> ks[a] != ks[b]
  }

  /** The group keys in order of first appearance. */
  function GroupKeys<T>(items: seq<T>, keyOf: T -> string): seq<string>
  {
    if |items| == 0 then []
    else
      var ks := GroupKeys(items[..|items| - 1], keyOf);
      var k := keyOf(items[|items| - 1]);
      if k in ks then ks else ks + [k]
  }

  /** The items whose key is `k`, in input order. */
  function Matching<T>(items: seq<T>, keyOf: T -> string, k: string): seq<T>
  {
    if |items| == 0 then []
    else
      var rest := Matching(items[..|items| - 1], keyOf, k);
      if keyOf(items[|items| - 1]) == k then rest + [items[|items| - 1]] else rest
  }

  /** The positions of the items whose key is `k`. */
  ghost function MatchIndices<T>(items: seq<T>, keyOf: T -> string, k: string): seq<nat>
  {
    if |items| == 0 then []
    else
      var rest := MatchIndices(items[..|items| - 1], keyOf, k);
      if keyOf(items[|items| - 1]) == k then rest + [|items| - 1] else rest
  }

  /** One `[key, group]` entry per key of `ks`. */
  function Entries<T>(items: seq<T>, keyOf: T -> string, ks: seq<string>): (es: seq<(string, seq<T>)>)
    ensures |es| == |ks|
    ensures forall j :: 0 <= j < |ks| ==> es[j].0 == ks[j] && es[j].1 == Matching(items, keyOf, ks[j])
  {
    if |ks| == 0 then [] else [(ks[0], Matching(items, keyOf, ks[0]))] + Entries(items, keyOf, ks[1..])
  }

  /** `Object.entries` of the grouped record. */
  function Grouped<T>(items: seq<T>, keyOf: T -> string): seq<(string, seq<T>)> {
    Entries(items, keyOf, GroupKeys(items, keyOf))
  }

  /** The total number of items over all groups. */
  function SizeSum<T>(es: seq<(string, seq<T>)>): nat {
    if |es| == 0 then 0 else |es[0].1| + SizeSum(es[1..])
  }

  lemma GroupKeysSnoc<T>(items: seq<T>, x: T, keyOf: T -> string)
    ensures GroupKeys(items + [x], keyOf)
         == if keyOf(x) in GroupKeys(items, keyOf) then GroupKeys(items, keyOf)
            else GroupKeys(items, keyOf) + [keyOf(x)]
  {
    assert (items + [x])[..|items|] == items;
  }

  lemma MatchingSnoc<T>(items: seq<T>, x: T, keyOf: T -> string, k: string)
    ensures Matching(items + [x], keyOf, k)
         == if keyOf(x) == k then Matching(items, keyOf, k) + [x] else Matching(items, keyOf, k)
  {
    assert (items + [x])[..|items|] == items;
  }

  /** A key that never occurs has no items. */
  lemma {:induction false} MatchingOfAbsentKey<T>(items: seq<T>, keyOf: T -> string, k: string)
    requires k !in GroupKeys(items, keyOf)
    ensures Matching(items, keyOf, k) == []
  {
    if |items| > 0 {
      MatchingOfAbsentKey(items[..|items| - 1], keyOf, k);
    }
  }

  /** The reduce itself: a record of groups filled in place, listed in key
      insertion order at the end. */
  method GroupBy<T>(items: seq<T>, keyOf: T -> string) returns (entries: seq<(string, seq<T>)>)
    ensures entries == Grouped(items, keyOf)
  {
    var order: seq<string> := [];
    var groups: map<string, seq<T>> := map[];
    var i := 0;
    while i < |items|
      invariant 0 <= i <= |items|
      invariant order == GroupKeys(items[..i], keyOf)
      invariant forall k :: k in groups <==> k in order
      invariant forall k :: k in groups ==> groups[k] == Matching(items[..i], keyOf, k)
    {
      var item := items[i];
      var key := keyOf(item);
      assert items[..i + 1] == items[..i] + [item];
      GroupKeysSnoc(items[..i], item, keyOf);
      forall k ensures Matching(items[..i + 1], keyOf, k)
                    == if key == k then Matching(items[..i], keyOf, k) + [item] else Matching(items[..i], keyOf, k)
      {
        MatchingSnoc(items[..i], item, keyOf, k);
      }
      if key !in groups {
        MatchingOfAbsentKey(items[..i], keyOf, key);
        groups := groups[key := []];
        order := order + [key];
      }
      groups := groups[key := groups[key] + [item]];
      i := i + 1;
    }
    assert items[..i] == items;
    entries := seq(|order|, j requires 0 <= j < |order| => (order[j], groups[order[j]]));
  }

  // ---------------------------------------------------------------------
  // What the grouping guarantees.

  lemma {:induction false} GroupKeysSpec<T>(items: seq<T>, keyOf: T -> string)
    ensures Distinct(GroupKeys(items, keyOf))
    ensures forall i :: 0 <= i < |items| ==> keyOf(items[i]) in GroupKeys(items, keyOf)
    ensures forall a :: 0 <= a < |GroupKeys(items, keyOf)| ==>
              exists i :: 0 <= i < |items| && keyOf(items[i]) == GroupKeys(items, keyOf)[a]
  {
    if |items| > 0 {
      var n := |items|;
      var init := items[..n - 1];
      GroupKeysSpec(init, keyOf);
      var ks0 := GroupKeys(init, keyOf);
      var ks := GroupKeys(items, keyOf);
      assert forall i :: 0 <= i < n - 1 ==> items[i] == init[i];
      forall a | 0 <= a < |ks|
        ensures exists i :: 0 <= i < n && keyOf(items[i]) == ks[a]
      {
        if a < |ks0| {
          var i :| 0 <= i < |init| && keyOf(init[i]) == ks0[a];
          assert keyOf(items[i]) == ks[a];
        } else {
          assert keyOf(items[n - 1]) == ks[a];
        }
      }
    }
  }

  /** A group is the subsequence of the items with its key: the positions it
      takes its members from ascend, and every item with the key is taken. */
  lemma {:induction false} MatchingIsSubsequence<T>(items: seq<T>, keyOf: T -> string, k: string)
    ensures var m, idx := Matching(items, keyOf, k), MatchIndices(items, keyOf, k);
            && |idx| == |m|
            && (forall j :: 0 <= j < |idx| ==>
                  idx[j] < |items| && m[j] == items[idx[j]] && keyOf(items[idx[j]]) == k)
            && (forall j, j' :: 0 <= j < j' < |idx| ==> idx[j] < idx[j'])
            && (forall i :: 0 <= i < |items| && keyOf(items[i]) == k ==> i in idx)
  {
    if |items| > 0 {
      var n := |items|;
      var init := items[..n - 1];
      MatchingIsSubsequence(init, keyOf, k);
      assert forall i :: 0 <= i < n - 1 ==> items[i] == init[i];
    }
  }

  lemma {:induction false} EntriesSnoc<T>(items: seq<T>, keyOf: T -> string, ks: seq<string>, k: string)
    ensures SizeSum(Entries(items, keyOf, ks + [k]))
         == SizeSum(Entries(items, keyOf, ks)) + |Matching(items, keyOf, k)|
  {
    if |ks| > 0 {
      assert (ks + [k])[1..] == ks[1..] + [k];
      EntriesSnoc(items, keyOf, ks[1..], k);
    }
  }

  lemma {:induction false} EntriesGrow<T>(items: seq<T>, x: T, keyOf: T -> string, ks: seq<string>)
    requires Distinct(ks)
    ensures SizeSum(Entries(items + [x], keyOf, ks))
         == SizeSum(Entries(items, keyOf, ks)) + (if keyOf(x) in ks then 1 else 0)
  {
    if |ks| > 0 {
      assert (items + [x])[..|items|] == items;
      EntriesGrow(items, x, keyOf, ks[1..]);
      assert keyOf(x) in ks <==> keyOf(x) == ks[0] || keyOf(x) in ks[1..];
      assert keyOf(x) == ks[0] ==> keyOf(x) !in ks[1..];
    }
  }

  /** Group sizes add up to the number of items. */
  lemma {:induction false} SizesSumToCount<T>(items: seq<T>, keyOf: T -> string)
    ensures SizeSum(Grouped(items, keyOf)) == |items|
  {
    if |items| > 0 {
      var n := |items|;
      var init, x := items[..n - 1], items[n - 1];
      assert items == init + [x];
      SizesSumToCount(init, keyOf);
      GroupKeysSpec(init, keyOf);
      var ks0 := GroupKeys(init, keyOf);
      EntriesGrow(init, x, keyOf, ks0);
      if keyOf(x) !in ks0 {
        EntriesSnoc(items, keyOf, ks0, keyOf(x));
        MatchingOfAbsentKey(init, keyOf, keyOf(x));
        assert Matching(items, keyOf, keyOf(x)) == Matching(init, keyOf, keyOf(x)) + [x];
      }
    }
  }

  /** Keys are listed in order of first appearance: for two listed keys, the
      earlier one occurs before any occurrence of the later one. */
  lemma {:induction false} FirstAppearanceOrder<T>(items: seq<T>, keyOf: T -> string)
    ensures forall a, b, i :: 0 <= a < b < |GroupKeys(items, keyOf)| && 0 <= i < |items|
                              && keyOf(items[i]) == GroupKeys(items, keyOf)[b] ==>
              exists i' :: 0 <= i' < i && keyOf(items[i']) == GroupKeys(items, keyOf)[a]
  {
    if |items| > 0 {
      var init := items[..|items| - 1];
      FirstAppearanceOrder(init, keyOf);
      forall a, b, i | 0 <= a < b < |GroupKeys(items, keyOf)| && 0 <= i < |items|
                       && keyOf(items[i]) == GroupKeys(items, keyOf)[b]
        ensures exists i' :: 0 <= i' < i && keyOf(items[i']) == GroupKeys(items, keyOf)[a]
      {
        if i < |init| {
          FirstAppearanceEarlier(items, init, keyOf, a, b, i);
        } else {
          assert i == |items| - 1;
          FirstAppearanceLast(items, init, keyOf, a);
        }
      }
    }
  }

  /** Every item's key is listed. */
  lemma KeyListed<T>(items: seq<T>, keyOf: T -> string, i: int)
    requires 0 <= i < |items|
    ensures keyOf(items[i]) in GroupKeys(items, keyOf)
  {
    GroupKeysSpec(items, keyOf);
  }

  /** The inductive step of `FirstAppearanceOrder` for an occurrence of the
      later key before the last item: it already occurred in `init`. */
  lemma FirstAppearanceEarlier<T>(items: seq<T>, init: seq<T>, keyOf: T -> string, a: int, b: int, i: int)
    requires |items| > 0 && init == items[..|items| - 1]
    requires forall a, b, i :: 0 <= a < b < |GroupKeys(init, keyOf)| && 0 <= i < |init|
                               && keyOf(init[i]) == GroupKeys(init, keyOf)[b] ==>
               exists i' :: 0 <= i' < i && keyOf(init[i']) == GroupKeys(init, keyOf)[a]
    requires 0 <= a < b < |GroupKeys(items, keyOf)| && 0 <= i < |init|
    requires keyOf(items[i]) == GroupKeys(items, keyOf)[b]
    ensures exists i' :: 0 <= i' < i && keyOf(items[i']) == GroupKeys(items, keyOf)[a]
  {
    var ks0 := GroupKeys(init, keyOf);
    var ks := GroupKeys(items, keyOf);
    assert keyOf(init[i]) == keyOf(items[i]);
    KeyListed(init, keyOf, i);
    assert b < |ks0| && ks[a] == ks0[a] && ks[b] == ks0[b];
    var w' :| 0 <= w' < i && keyOf(init[w']) == ks0[a];
    assert keyOf(items[w']) == ks[a];
  }

  /** The inductive step of `FirstAppearanceOrder` for the last item: every
      earlier key already occurred in `init`. */
  lemma FirstAppearanceLast<T>(items: seq<T>, init: seq<T>, keyOf: T -> string, a: int)
    requires |items| > 0 && init == items[..|items| - 1]
    requires 0 <= a < |GroupKeys(items, keyOf)| - 1
    ensures exists i' :: 0 <= i' < |items| - 1 && keyOf(items[i']) == GroupKeys(items, keyOf)[a]
  {
    var ks0 := GroupKeys(init, keyOf);
    var ks := GroupKeys(items, keyOf);
    assert a < |ks0| && ks[a] == ks0[a];
    GroupKeysSpec(init, keyOf);
    var w :| 0 <= w < |init| && keyOf(init[w]) == ks0[a];
    assert keyOf(items[w]) == ks[a];
  }

  /** Every listed key has at least one item, and every item of its group
      has that key. */
  lemma GroupsNonEmptyAndKeyed<T>(items: seq<T>, keyOf: T -> string, j: nat)
    requires j < |GroupKeys(items, keyOf)|
    ensures |Grouped(items, keyOf)[j].1| > 0
    ensures forall m :: 0 <= m < |Grouped(items, keyOf)[j].1| ==>
              keyOf(Grouped(items, keyOf)[j].1[m]) == Grouped(items, keyOf)[j].0
  {
    var ks := GroupKeys(items, keyOf);
    GroupKeysSpec(items, keyOf);
    MatchingIsSubsequence(items, keyOf, ks[j]);
    var i :| 0 <= i < |items| && keyOf(items[i]) == ks[j];
    assert i in MatchIndices(items, keyOf, ks[j]);
  }

  /** Each item sits in the group of its own key. */
  lemma ItemInOwnGroup<T>(items: seq<T>, keyOf: T -> string, i: nat)
    requires i < |items|
    ensures exists j, m :: 0 <= j < |Grouped(items, keyOf)| && 0 <= m < |Grouped(items, keyOf)[j].1|
                           && Grouped(items, keyOf)[j].0 == keyOf(items[i])
                           && Grouped(items, keyOf)[j].1[m] == items[i]
  {
    var es := Grouped(items, keyOf);
    var ks := GroupKeys(items, keyOf);
    var k := keyOf(items[i]);
    GroupKeysSpec(items, keyOf);
    var j :| 0 <= j < |ks| && ks[j] == k;
    MatchingIsSubsequence(items, keyOf, k);
    var idx := MatchIndices(items, keyOf, k);
    var m :| 0 <= m < |idx| && idx[m] == i;
    assert es[j].1[m] == items[i];
  }

  /** The grouping is a partition of the items: keys are distinct, each
      group is non-empty and holds only items with its key, each item is in
      the group of its own key, sizes add up, and no items give no groups. */
  lemma GroupedPartition<T>(items: seq<T>, keyOf: T -> string)
    ensures Distinct(GroupKeys(items, keyOf))
    ensures forall j :: 0 <= j < |Grouped(items, keyOf)| ==> Grouped(items, keyOf)[j].0 == GroupKeys(items, keyOf)[j]
    ensures forall j :: 0 <= j < |Grouped(items, keyOf)| ==> |Grouped(items, keyOf)[j].1| > 0
    ensures forall j, m :: 0 <= j < |Grouped(items, keyOf)| && 0 <= m < |Grouped(items, keyOf)[j].1| ==>
              keyOf(Grouped(items, keyOf)[j].1[m]) == Grouped(items, keyOf)[j].0
    ensures forall i :: 0 <= i < |items| ==>
              exists j, m :: 0 <= j < |Grouped(items, keyOf)| && 0 <= m < |Grouped(items, keyOf)[j].1|
                             && Grouped(items, keyOf)[j].0 == keyOf(items[i])
                             && Grouped(items, keyOf)[j].1[m] == items[i]
    ensures SizeSum(Grouped(items, keyOf)) == |items|
    ensures items == [] ==> Grouped(items, keyOf) == []
  {
    GroupKeysSpec(items, keyOf);
    SizesSumToCount(items, keyOf);
    forall j | 0 <= j < |Grouped(items, keyOf)|
      ensures |Grouped(items, keyOf)[j].1| > 0
      ensures forall m :: 0 <= m < |Grouped(items, keyOf)[j].1| ==>
                keyOf(Grouped(items, keyOf)[j].1[m]) == Grouped(items, keyOf)[j].0
    {
      GroupsNonEmptyAndKeyed(items, keyOf, j);
    }
    forall i | 0 <= i < |items|
      ensures exists j, m :: 0 <= j < |Grouped(items, keyOf)| && 0 <= m < |Grouped(items, keyOf)[j].1|
                             && Grouped(items, keyOf)[j].0 == keyOf(items[i])
                             && Grouped(items, keyOf)[j].1[m] == items[i]
    {
      ItemInOwnGroup(items, keyOf, i);
    }
  }
}
