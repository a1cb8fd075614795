/** Filtering the catalog by hard constraints, and giving up the weakest ones until something is
    left (filterByHardConstraints of internal/architecture/recommend.go). */
module Relaxation {
  import opened Sorting

  datatype Item = Item(slug: string, path: string, labels: seq<string>, relatedTo: seq<string>)

  predicate CarriesAll(item: Item, required: seq<string>) {
    forall l :: l in required ==> l in item.labels
  }

  function Carrying(required: seq<string>): Item -> bool {
    (item: Item) => CarriesAll(item, required)
  }

  /** The items that carry every required label, in catalog order. */
  function Matching(items: seq<Item>, required: seq<string>): seq<Item> {
    Filter(items, Carrying(required))
  }

  function Count(items: seq<Item>, tag: string): nat {
    |Matching(items, [tag])|
  }

  /** a is given up before b: fewer items carry it, or as many and its name comes first. */
  predicate IsWeaker(items: seq<Item>, a: string, b: string) {
    Count(items, a) < Count(items, b) || (Count(items, a) == Count(items, b) && Below(a, b))
  }

  function Weaker(items: seq<Item>): (string, string) -> bool {
    (a: string, b: string) => IsWeaker(items, a, b)
  }

  lemma WeakerOrders(items: seq<Item>)
    ensures Orders(Weaker(items)) && Total(Weaker(items))
  {
    BelowOrders();
  }

  /** The labels in the order in which they would be given up. */
  function ByStrength(items: seq<Item>, labels: seq<string>): seq<string> {
    Sort(labels, Weaker(items))
  }

  /** The least number of labels to give up, weakest first, for an item to match the rest. */
  ghost predicate IsCut(items: seq<Item>, ranked: seq<string>, k: nat) {
    && k <= |ranked|
    && (forall j :: 0 <= j < k ==> Matching(items, ranked[j..]) == [])
    && (k == |ranked| || Matching(items, ranked[k..]) != [])
  }

  function Cut(items: seq<Item>, ranked: seq<string>, from: nat): (k: nat)
    requires from <= |ranked|
    ensures from <= k <= |ranked|
    decreases |ranked| - from
  {
    if from == |ranked| || Matching(items, ranked[from..]) != [] then from else Cut(items, ranked, from + 1)
  }

  lemma {:induction false} CutIsCut(items: seq<Item>, ranked: seq<string>, from: nat)
    requires from <= |ranked| && forall j :: 0 <= j < from ==> Matching(items, ranked[j..]) == []
    ensures IsCut(items, ranked, Cut(items, ranked, from))
    decreases |ranked| - from
  {
    if from < |ranked| && Matching(items, ranked[from..]) == [] {
      CutIsCut(items, ranked, from + 1);
    }
  }

  lemma OneCut(items: seq<Item>, ranked: seq<string>, j: nat, k: nat)
    requires IsCut(items, ranked, j) && IsCut(items, ranked, k)
    ensures j == k
  {
  }

  function Dropped(items: seq<Item>, labels: seq<string>): seq<string> {
    var ranked := ByStrength(items, labels);
    ranked[..Cut(items, ranked, 0)]
  }

  function Kept(items: seq<Item>, labels: seq<string>): seq<string> {
    var ranked := ByStrength(items, labels);
    ranked[Cut(items, ranked, 0)..]
  }

  function Survivors(items: seq<Item>, labels: seq<string>): seq<Item> {
    Matching(items, Kept(items, labels))
  }

  lemma RankedIsSorted(items: seq<Item>, labels: seq<string>)
    ensures var ranked := ByStrength(items, labels);
            Sorted(ranked, Weaker(items)) && multiset(ranked) == multiset(labels) && Total(Weaker(items))
  {
    WeakerOrders(items);
    SortSorts(labels, Weaker(items));
    SortKeepsAll(labels, Weaker(items));
  }

  // ----- what the relaxation achieves -----

  lemma {:induction false} MatchingNothing(items: seq<Item>)
    ensures Matching(items, []) == items
  {
    if items != [] {
      MatchingNothing(items[..|items| - 1]);
    }
  }

  /** Something survives unless the catalog is empty, and every survivor carries what was kept. */
  lemma SurvivorsExist(items: seq<Item>, labels: seq<string>)
    ensures Survivors(items, labels) == [] <==> items == []
    ensures forall item :: item in Survivors(items, labels) <==> item in items && CarriesAll(item, Kept(items, labels))
  {
    var ranked := ByStrength(items, labels);
    CutIsCut(items, ranked, 0);
    MatchingNothing(items);
    forall item
      ensures item in Survivors(items, labels) <==> item in items && CarriesAll(item, Kept(items, labels))
    {
      FilterHas(items, Carrying(Kept(items, labels)), item);
    }
    if Kept(items, labels) == [] {
      assert Survivors(items, labels) == items;
    }
  }

  /** Labels are given up or kept, none is lost; each one given up is weaker than or the same as
      each one kept; and giving up fewer of them would leave nothing. */
  lemma DropsWeakest(items: seq<Item>, labels: seq<string>)
    ensures var d, k := Dropped(items, labels), Kept(items, labels);
            && multiset(d) + multiset(k) == multiset(labels)
            && (forall a, b :: a in d && b in k ==> a == b || IsWeaker(items, a, b))
            && (forall j :: 0 <= j < |d| ==> Matching(items, d[j..] + k) == [])
            && (k != [] ==> Matching(items, k) != [])
  {
    var ranked := ByStrength(items, labels);
    var c := Cut(items, ranked, 0);
    var d, k := ranked[..c], ranked[c..];
    RankedIsSorted(items, labels);
    assert ranked == d + k;
    forall a, b | a in d && b in k
      ensures a == b || IsWeaker(items, a, b)
    {
      PrefixPrecedes(ranked, c, a, b, Weaker(items));
    }
    CutIsCut(items, ranked, 0);
    FewerLeaveNothing(items, ranked, c);
  }

  lemma FewerLeaveNothing(items: seq<Item>, ranked: seq<string>, c: nat)
    requires IsCut(items, ranked, c)
    ensures forall j :: 0 <= j < |ranked[..c]| ==> Matching(items, ranked[..c][j..] + ranked[c..]) == []
  {
    forall j | 0 <= j < |ranked[..c]|
      ensures Matching(items, ranked[..c][j..] + ranked[c..]) == []
    {
      assert ranked[..c][j..] + ranked[c..] == ranked[j..];
    }
  }

  /** How many items carry the label. */
  lemma {:induction false} CountIs(items: seq<Item>, tag: string)
    ensures Count(items, tag) == |set i | 0 <= i < |items| && tag in items[i].labels|
  {
    if items != [] {
      var n := |items| - 1;
      CountIs(items[..n], tag);
      assert CarriesAll(items[n], [tag]) <==> tag in items[n].labels;
      CarriersStep(items, tag);
    }
  }

  lemma CarriersStep(items: seq<Item>, tag: string)
    requires items != []
    ensures var n := |items| - 1;
            |set i | 0 <= i < |items| && tag in items[i].labels|
            == |set i | 0 <= i < n && tag in items[..n][i].labels| + if tag in items[n].labels then 1 else 0
  {
    var n := |items| - 1;
    var all := set i | 0 <= i < |items| && tag in items[i].labels;
    var before := set i | 0 <= i < n && tag in items[..n][i].labels;
    assert all == before + if tag in items[n].labels then {n} else {};
  }

  lemma DroppedIsWeaker(items: seq<Item>, labels: seq<string>, a: string, b: string)
    requires a in Dropped(items, labels) && b in Kept(items, labels) && a != b
    ensures IsWeaker(items, a, b)
  {
    DropsWeakest(items, labels);
  }

  lemma WeakerMeans(items: seq<Item>, a: string, b: string)
    ensures var n := |set i | 0 <= i < |items| && a in items[i].labels|;
            var m := |set i | 0 <= i < |items| && b in items[i].labels|;
            IsWeaker(items, a, b) <==> n < m || (n == m && Below(a, b))
  {
    CountIs(items, a);
    CountIs(items, b);
  }

  /** A label that is given up is carried by fewer items than one that is kept, or by as many and its
      name comes first. */
  lemma DropsFewest(items: seq<Item>, labels: seq<string>, a: string, b: string)
    requires a in Dropped(items, labels) && b in Kept(items, labels) && a != b
    ensures var n := |set i | 0 <= i < |items| && a in items[i].labels|;
            var m := |set i | 0 <= i < |items| && b in items[i].labels|;
            n < m || (n == m && Below(a, b))
  {
    DroppedIsWeaker(items, labels, a, b);
    WeakerMeans(items, a, b);
  }

  /** The labels given up are reported in the order in which they were given up. */
  lemma DroppedInOrder(items: seq<Item>, labels: seq<string>, p: nat, q: nat)
    requires p < q < |Dropped(items, labels)|
    ensures var a, b := Dropped(items, labels)[p], Dropped(items, labels)[q];
            var n := |set i | 0 <= i < |items| && a in items[i].labels|;
            var m := |set i | 0 <= i < |items| && b in items[i].labels|;
            n < m || (n == m && (a == b || Below(a, b)))
  {
    var a, b := Dropped(items, labels)[p], Dropped(items, labels)[q];
    RankedIsSorted(items, labels);
    assert !Weaker(items)(b, a);
    BelowTotal(a, b);
    CountIs(items, a);
    CountIs(items, b);
  }

  /** What survives stands in catalog order. */
  lemma SurvivorsInOrder(items: seq<Item>, more: seq<Item>, required: seq<string>)
    ensures Matching(items + more, required) == Matching(items, required) + Matching(more, required)
    ensures forall item :: item in Matching(items, required)
                           <==> item in items && forall l :: l in required ==> l in item.labels
  {
    FilterConcat(items, more, Carrying(required));
    forall item
      ensures item in Matching(items, required) <==> item in items && forall l :: l in required ==> l in item.labels
    {
      FilterHas(items, Carrying(required), item);
    }
  }

  lemma DistinctIsUntied(s: seq<string>, less: (string, string) -> bool)
    requires Distinct(s) && Total(less)
    ensures Untied(s, less)
  {
  }

  /** Only the set of labels matters. */
  lemma LabelOrderIrrelevant(items: seq<Item>, a: seq<string>, b: seq<string>)
    requires Distinct(a) && Distinct(b) && forall l :: l in a <==> l in b
    ensures Dropped(items, a) == Dropped(items, b) && Survivors(items, a) == Survivors(items, b)
  {
    WeakerOrders(items);
    DistinctIsUntied(a, Weaker(items));
    DistinctIsUntied(b, Weaker(items));
    SortAscends(a, Weaker(items));
    SortAscends(b, Weaker(items));
    forall l
      ensures l in ByStrength(items, a) <==> l in ByStrength(items, b)
    {
      SortKeepsAll(a, Weaker(items));
      SortKeepsAll(b, Weaker(items));
      SameElements(a, ByStrength(items, a), l);
      SameElements(b, ByStrength(items, b), l);
    }
    OneOrder(ByStrength(items, a), ByStrength(items, b), Weaker(items));
  }

  // ----- the loops -----

  method HasAllLabels(itemLabels: seq<string>, required: seq<string>) returns (all: bool)
    ensures all <==> forall l :: l in required ==> l in itemLabels
  {
    var labels: set<string> := {};
    for i := 0 to |itemLabels|
      invariant forall l :: l in labels <==> l in itemLabels[..i]
    {
      labels := labels + {itemLabels[i]};
    }
    assert itemLabels[..|itemLabels|] == itemLabels;
    for i := 0 to |required|
      invariant forall k :: 0 <= k < i ==> required[k] in itemLabels
    {
      if required[i] !in labels {
        return false;
      }
    }
    all := true;
  }

  method MatchAll(items: seq<Item>, required: seq<string>) returns (matched: seq<Item>)
    ensures matched == Matching(items, required)
  {
    matched := [];
    for i := 0 to |items|
      invariant matched == Matching(items[..i], required)
    {
      var all := HasAllLabels(items[i].labels, required);
      assert items[..i + 1][..i] == items[..i];
      if all {
        matched := matched + [items[i]];
      }
    }
    assert items[..|items|] == items;
  }

  method MatchCount(items: seq<Item>, tag: string) returns (n: nat)
    ensures n == Count(items, tag)
  {
    n := 0;
    for i := 0 to |items|
      invariant n == Count(items[..i], tag)
    {
      assert items[..i + 1][..i] == items[..i];
      var carries := false;
      for k := 0 to |items[i].labels|
        invariant carries <==> tag in items[i].labels[..k]
      {
        if items[i].labels[k] == tag {
          carries := true;
        }
      }
      assert items[i].labels[..|items[i].labels|] == items[i].labels;
      assert CarriesAll(items[i], [tag]) <==> tag in items[i].labels;
      if carries {
        n := n + 1;
      }
    }
    assert items[..|items|] == items;
  }

  method Weakest(items: seq<Item>, labels: seq<string>) returns (weakestIdx: nat)
    requires labels != []
    ensures weakestIdx < |labels|
    ensures forall i :: 0 <= i < |labels| ==> !Weaker(items)(labels[i], labels[weakestIdx])
  {
    WeakerOrders(items);
    weakestIdx := 0;
    var weakestCount := MatchCount(items, labels[0]);
    for i := 1 to |labels|
      invariant weakestIdx < i && weakestCount == Count(items, labels[weakestIdx])
      invariant forall k :: 0 <= k < i ==> !Weaker(items)(labels[k], labels[weakestIdx])
    {
      var c := MatchCount(items, labels[i]);
      if c < weakestCount || (c == weakestCount && Below(labels[i], labels[weakestIdx])) {
        assert Weaker(items)(labels[i], labels[weakestIdx]);
        weakestIdx, weakestCount := i, c;
      }
    }
  }

  /** Which labels are required matters, not their order. */
  lemma {:induction false} MatchingSame(items: seq<Item>, a: seq<string>, b: seq<string>)
    requires multiset(a) == multiset(b)
    ensures Matching(items, a) == Matching(items, b)
  {
    if items != [] {
      MatchingSame(items[..|items| - 1], a, b);
      var item := items[|items| - 1];
      if CarriesAll(item, a) {
        CarriesSame(item, a, b);
      }
      if CarriesAll(item, b) {
        CarriesSame(item, b, a);
      }
    }
  }

  lemma CarriesSame(item: Item, a: seq<string>, b: seq<string>)
    requires multiset(a) == multiset(b) && CarriesAll(item, a)
    ensures CarriesAll(item, b)
  {
    forall l | l in b
      ensures l in item.labels
    {
      SameElements(a, b, l);
    }
  }

  /** The greedy loop: so many of the ranked labels given up, the rest remaining in some order, and
      nothing matched before. */
  ghost predicate IsGreedy(items: seq<Item>, ranked: seq<string>, remaining: seq<string>, dropped: seq<string>) {
    && dropped <= ranked
    && multiset(remaining) == multiset(ranked[|dropped|..])
    && forall j :: 0 <= j < |dropped| ==> Matching(items, ranked[j..]) == []
  }

  lemma GreedyStarts(items: seq<Item>, labels: seq<string>)
    ensures IsGreedy(items, ByStrength(items, labels), labels, [])
  {
    var ranked := ByStrength(items, labels);
    RankedIsSorted(items, labels);
    assert ranked[0..] == ranked;
  }

  lemma GreedyStops(items: seq<Item>, labels: seq<string>, remaining: seq<string>, dropped: seq<string>)
    requires IsGreedy(items, ByStrength(items, labels), remaining, dropped)
    requires Matching(items, remaining) != [] || remaining == []
    ensures Matching(items, remaining) == Survivors(items, labels) && dropped == Dropped(items, labels)
  {
    var ranked := ByStrength(items, labels);
    var k := |dropped|;
    MatchingSame(items, remaining, ranked[k..]);
    SameLength(remaining, ranked[k..]);
    CutIsCut(items, ranked, 0);
    OneCut(items, ranked, k, Cut(items, ranked, 0));
  }

  /** The weakest label remaining is the next one in the ranking. */
  lemma NextIsWeakest(items: seq<Item>, ranked: seq<string>, remaining: seq<string>, k: nat, w: nat)
    requires k <= |ranked| && w < |remaining| && multiset(remaining) == multiset(ranked[k..])
    requires Sorted(ranked, Weaker(items)) && Total(Weaker(items))
    requires forall i :: 0 <= i < |remaining| ==> !Weaker(items)(remaining[i], remaining[w])
    ensures k < |ranked| && ranked[k] == remaining[w]
    ensures multiset(remaining[..w] + remaining[w + 1..]) == multiset(ranked[k + 1..])
  {
    SortedFrom(items, ranked, k);
    LeastIsNext(remaining, ranked[k..], w, Weaker(items));
    assert ranked[k..][1..] == ranked[k + 1..];
  }

  lemma GreedyExtends(items: seq<Item>, ranked: seq<string>, remaining: seq<string>, dropped: seq<string>,
    fewer: seq<string>)
    requires IsGreedy(items, ranked, remaining, dropped) && |dropped| < |ranked|
    requires Matching(items, ranked[|dropped|..]) == []
    requires multiset(fewer) == multiset(ranked[|dropped| + 1..])
    ensures IsGreedy(items, ranked, fewer, dropped + [ranked[|dropped|]])
  {
  }

  lemma GreedySteps(items: seq<Item>, labels: seq<string>, remaining: seq<string>, dropped: seq<string>, w: nat)
    requires IsGreedy(items, ByStrength(items, labels), remaining, dropped)
    requires Matching(items, remaining) == [] && w < |remaining|
    requires forall i :: 0 <= i < |remaining| ==> !Weaker(items)(remaining[i], remaining[w])
    ensures IsGreedy(items, ByStrength(items, labels), remaining[..w] + remaining[w + 1..], dropped + [remaining[w]])
  {
    var ranked := ByStrength(items, labels);
    RankedIsSorted(items, labels);
    NextIsWeakest(items, ranked, remaining, |dropped|, w);
    MatchingSame(items, remaining, ranked[|dropped|..]);
    GreedyExtends(items, ranked, remaining, dropped, remaining[..w] + remaining[w + 1..]);
  }

  lemma SameLength(a: seq<string>, b: seq<string>)
    requires multiset(a) == multiset(b)
    ensures |a| == |b|
  {
    assert |a| == |multiset(a)| && |b| == |multiset(b)|;
  }

  lemma SortedFrom(items: seq<Item>, ranked: seq<string>, k: nat)
    requires k <= |ranked| && Sorted(ranked, Weaker(items))
    ensures Sorted(ranked[k..], Weaker(items))
  {
  }

  /** The loop finds the shortest sufficient sacrifice. */
  method FilterByHardConstraints(items: seq<Item>, hardLabels: seq<string>)
    returns (survivors: seq<Item>, dropped: seq<string>)
    ensures survivors == Survivors(items, hardLabels) && dropped == Dropped(items, hardLabels)
  {
    var remaining := hardLabels;
    dropped := [];
    GreedyStarts(items, hardLabels);
    while true
      invariant IsGreedy(items, ByStrength(items, hardLabels), remaining, dropped)
      decreases |remaining|
    {
      survivors := MatchAll(items, remaining);
      if |survivors| > 0 || |remaining| == 0 {
        GreedyStops(items, hardLabels, remaining, dropped);
        return;
      }
      var weakestIdx := Weakest(items, remaining);
      GreedySteps(items, hardLabels, remaining, dropped, weakestIdx);
      dropped := dropped + [remaining[weakestIdx]];
      remaining := remaining[..weakestIdx] + remaining[weakestIdx + 1..];
    }
  }
}
