/** Stable sorting of sequences, and the order of strings. */
module Sorting {

  /** less is a strict order up to ties. */
  ghost predicate Orders<T(!new)>(less: (T, T) -> bool) {
    && (forall a, b :: !(less(a, b) && less(b, a)))
    && (forall a, b, c :: !less(b, a) && !less(c, b) ==> !less(c, a))
  }

  /** No element stands after one it should precede. */
  ghost predicate Sorted<T>(s: seq<T>, less: (T, T) -> bool) {
    forall i, j :: 0 <= i < j < |s| ==> !less(s[j], s[i])
  }

  /** x goes before the first element it precedes. */
  function Insert<T>(s: seq<T>, x: T, less: (T, T) -> bool): (r: seq<T>)
    ensures |r| == |s| + 1
  {
    if s == [] then [x]
    else if less(x, s[0]) then [x] + s
    else [s[0]] + Insert(s[1..], x, less)
  }

  /** Later elements go behind earlier ones they tie with. */
  function Sort<T>(s: seq<T>, less: (T, T) -> bool): (r: seq<T>)
    ensures |r| == |s|
  {
    if s == [] then [] else Insert(Sort(s[..|s| - 1], less), s[|s| - 1], less)
  }

  lemma {:induction false} InsertKeepsAll<T>(s: seq<T>, x: T, less: (T, T) -> bool)
    ensures multiset(Insert(s, x, less)) == multiset(s) + multiset{x}
  {
    if s != [] {
      assert s == [s[0]] + s[1..];
      InsertKeepsAll(s[1..], x, less);
    }
  }

  lemma {:induction false} SortKeepsAll<T>(s: seq<T>, less: (T, T) -> bool)
    ensures multiset(Sort(s, less)) == multiset(s)
  {
    if s != [] {
      assert s == s[..|s| - 1] + [s[|s| - 1]];
      SortKeepsAll(s[..|s| - 1], less);
      InsertKeepsAll(Sort(s[..|s| - 1], less), s[|s| - 1], less);
    }
  }

  lemma SameElements<T>(a: seq<T>, b: seq<T>, x: T)
    requires multiset(a) == multiset(b)
    ensures x in a <==> x in b
  {
    assert x in a <==> x in multiset(a);
  }

  lemma {:induction false} InsertSorts<T(!new)>(s: seq<T>, x: T, less: (T, T) -> bool)
    requires Orders(less) && Sorted(s, less)
    ensures Sorted(Insert(s, x, less), less)
  {
    if s != [] {
      var rest := Insert(s[1..], x, less);
      if less(x, s[0]) {
        PutFirst(x, s, less);
      } else {
        InsertSorts(s[1..], x, less);
        forall e | e in rest
          ensures !less(e, s[0])
        {
          InsertKeepsAll(s[1..], x, less);
          assert e in multiset(rest);
          if e != x {
            assert e in s[1..];
          }
        }
        PutBefore(s[0], rest, less);
      }
    }
  }

  lemma PutFirst<T(!new)>(x: T, s: seq<T>, less: (T, T) -> bool)
    requires Orders(less) && Sorted(s, less) && s != [] && less(x, s[0])
    ensures Sorted([x] + s, less)
  {
    forall e | e in s
      ensures !less(e, x)
    {
      var k :| 0 <= k < |s| && s[k] == e;
      assert !less(s[0], x);
      assert k > 0 ==> !less(s[k], s[0]);
    }
    PutBefore(x, s, less);
  }

  lemma PutBefore<T>(x: T, s: seq<T>, less: (T, T) -> bool)
    requires Sorted(s, less) && forall e :: e in s ==> !less(e, x)
    ensures Sorted([x] + s, less)
  {
  }

  lemma {:induction false} SortSorts<T(!new)>(s: seq<T>, less: (T, T) -> bool)
    requires Orders(less)
    ensures Sorted(Sort(s, less), less)
  {
    if s != [] {
      SortSorts(s[..|s| - 1], less);
      InsertSorts(Sort(s[..|s| - 1], less), s[|s| - 1], less);
    }
  }

  /** Elements strictly in order can be listed in one way only. */
  lemma {:induction false} OneOrder<T(!new)>(a: seq<T>, b: seq<T>, less: (T, T) -> bool)
    requires Orders(less) && Ascending(a, less) && Ascending(b, less)
    requires forall x :: x in a <==> x in b
    ensures a == b
  {
    if a == [] {
      if b != [] {
        HeadIsIn(b);
        assert false;
      }
    } else {
      HeadIsIn(a);
      if b == [] {
        assert false;
      }
      HeadIsLeast(b, a[0], less);
      HeadIsIn(b);
      HeadIsLeast(a, b[0], less);
      forall x
        ensures x in a[1..] <==> x in b[1..]
      {
        RestHas(a, x, less);
        RestHas(b, x, less);
      }
      OneOrder(a[1..], b[1..], less);
      assert a == [a[0]] + a[1..];
      assert b == [b[0]] + b[1..];
    }
  }

  lemma HeadIsIn<T>(s: seq<T>)
    requires s != []
    ensures s[0] in s
  {
  }

  lemma HeadIsLeast<T>(s: seq<T>, x: T, less: (T, T) -> bool)
    requires Ascending(s, less) && x in s
    ensures x == s[0] || less(s[0], x)
  {
  }

  lemma RestHas<T(!new)>(s: seq<T>, x: T, less: (T, T) -> bool)
    requires s != [] && Orders(less) && Ascending(s, less)
    ensures x in s[1..] <==> x in s && x != s[0]
  {
    if x in s && x != s[0] {
      var i :| 0 <= i < |s| && s[i] == x;
      assert s[1..][i - 1] == x;
    }
    if x in s[1..] {
      var i :| 0 <= i < |s[1..]| && s[1..][i] == x;
      assert less(s[0], s[i + 1]);
    }
  }

  /** Each element precedes every later one. */
  ghost predicate Ascending<T>(s: seq<T>, less: (T, T) -> bool) {
    forall i, j :: 0 <= i < j < |s| ==> less(s[i], s[j])
  }

  ghost predicate Distinct<T>(s: seq<T>) {
    forall i, j :: 0 <= i < j < |s| ==> s[i] != s[j]
  }

  /** less tells any two elements apart. */
  ghost predicate Total<T(!new)>(less: (T, T) -> bool) {
    forall a, b :: a != b ==> less(a, b) || less(b, a)
  }

  /** No two elements tie. */
  ghost predicate Untied<T>(s: seq<T>, less: (T, T) -> bool) {
    forall i, j :: 0 <= i < j < |s| ==> less(s[i], s[j]) || less(s[j], s[i])
  }

  lemma {:induction false} InsertAscends<T(!new)>(s: seq<T>, x: T, less: (T, T) -> bool)
    requires Orders(less) && Ascending(s, less)
    requires forall i :: 0 <= i < |s| ==> less(x, s[i]) || less(s[i], x)
    ensures Ascending(Insert(s, x, less), less)
  {
    if s != [] {
      if less(x, s[0]) {
        forall i | 0 <= i < |s|
          ensures less(x, s[i])
        {
          assert i > 0 ==> less(s[0], s[i]);
        }
      } else {
        InsertAscends(s[1..], x, less);
        InsertKeepsAll(s[1..], x, less);
        var rest := Insert(s[1..], x, less);
        forall i | 0 <= i < |rest|
          ensures less(s[0], rest[i])
        {
          assert rest[i] in multiset(rest);
          assert rest[i] == x || rest[i] in s[1..];
        }
      }
    }
  }

  /** Elements that do not tie are sorted strictly. */
  lemma {:induction false} SortAscends<T(!new)>(s: seq<T>, less: (T, T) -> bool)
    requires Orders(less) && Untied(s, less)
    ensures Ascending(Sort(s, less), less)
  {
    if s != [] {
      var before, x := s[..|s| - 1], s[|s| - 1];
      SortAscends(before, less);
      SortKeepsAll(before, less);
      var sorted := Sort(before, less);
      forall i | 0 <= i < |sorted|
        ensures less(x, sorted[i]) || less(sorted[i], x)
      {
        SameElements(sorted, before, sorted[i]);
      }
      InsertAscends(sorted, x, less);
    }
  }

  /** The least element left is the next in order, and without it the others are left. */
  lemma LeastIsNext<T(!new)>(left: seq<T>, rest: seq<T>, w: nat, less: (T, T) -> bool)
    requires Total(less) && w < |left| && multiset(left) == multiset(rest) && Sorted(rest, less)
    requires forall i :: 0 <= i < |left| ==> !less(left[i], left[w])
    ensures rest != [] && rest[0] == left[w]
    ensures multiset(left[..w] + left[w + 1..]) == multiset(rest[1..])
  {
    SameElements(left, rest, left[w]);
    LeastIsHead(left, rest, w, less);
    RemoveOne(left, w);
    RemoveOne(rest, 0);
    assert rest[..0] + rest[1..] == rest[1..];
  }

  lemma LeastIsHead<T(!new)>(left: seq<T>, rest: seq<T>, w: nat, less: (T, T) -> bool)
    requires Total(less) && w < |left| && rest != [] && multiset(left) == multiset(rest) && Sorted(rest, less)
    requires forall i :: 0 <= i < |left| ==> !less(left[i], left[w])
    ensures rest[0] == left[w]
  {
    SameElements(left, rest, left[w]);
    SameElements(left, rest, rest[0]);
    var i :| 0 <= i < |rest| && rest[i] == left[w];
    var j :| 0 <= j < |left| && left[j] == rest[0];
    assert !less(left[j], left[w]);
    assert i > 0 ==> !less(rest[i], rest[0]);
  }

  lemma RemoveOne<T>(s: seq<T>, i: nat)
    requires i < |s|
    ensures multiset(s[..i] + s[i + 1..]) == multiset(s) - multiset{s[i]}
  {
    assert s == s[..i] + [s[i]] + s[i + 1..];
  }

  /** What is cut off in front precedes the rest. */
  lemma PrefixPrecedes<T(!new)>(s: seq<T>, k: nat, a: T, b: T, less: (T, T) -> bool)
    requires Total(less) && Sorted(s, less) && k <= |s| && a in s[..k] && b in s[k..]
    ensures a == b || less(a, b)
  {
    var i :| 0 <= i < k && s[i] == a;
    var j :| 0 <= j < |s| - k && s[k..][j] == b;
    assert !less(s[k + j], s[i]);
  }

  // ----- filtering and two tiers -----

  function Filter<T>(s: seq<T>, p: T -> bool): (r: seq<T>)
    ensures |r| <= |s|
  {
    if s == [] then [] else Filter(s[..|s| - 1], p) + if p(s[|s| - 1]) then [s[|s| - 1]] else []
  }

  lemma {:induction false} FilterHas<T>(s: seq<T>, p: T -> bool, x: T)
    ensures x in Filter(s, p) <==> x in s && p(x)
  {
    if s != [] {
      FilterHas(s[..|s| - 1], p, x);
      assert s == s[..|s| - 1] + [s[|s| - 1]];
    }
  }

  function Not<T>(p: T -> bool): T -> bool {
    x => !p(x)
  }

  /** What is not less than x but matches, and what does not match and x precedes if it matches. */
  ghost predicate AreTiers<T>(yes: seq<T>, no: seq<T>, x: T, p: T -> bool, less: (T, T) -> bool) {
    && (forall a :: a in yes ==> p(a) && !less(x, a))
    && (forall a :: a in no ==> !p(a) && (less(x, a) <==> p(x)))
  }

  /** Sorting what matches before what does not keeps both in their order. */
  lemma {:induction false} TwoTiers<T>(s: seq<T>, p: T -> bool, less: (T, T) -> bool)
    requires forall a, b :: a in s && b in s ==> (less(a, b) <==> p(a) && !p(b))
    ensures Sort(s, less) == Filter(s, p) + Filter(s, Not(p))
  {
    if s != [] {
      var before, x := s[..|s| - 1], s[|s| - 1];
      TwoTiers(before, p, less);
      FiltersAreTiers(s, before, x, p, less);
      InsertTier(Filter(before, p), Filter(before, Not(p)), x, p, less);
      JoinTiers(Filter(before, p), Filter(before, Not(p)), x, p(x));
    }
  }

  lemma JoinTiers<T>(yes: seq<T>, no: seq<T>, x: T, first: bool)
    ensures yes + (if first then [x] + no else no + [x]) == (if first then yes + [x] else yes)
                                                           + (if first then no else no + [x])
  {
  }

  lemma FiltersAreTiers<T>(s: seq<T>, before: seq<T>, x: T, p: T -> bool, less: (T, T) -> bool)
    requires forall a, b :: a in s && b in s ==> (less(a, b) <==> p(a) && !p(b))
    requires s == before + [x]
    ensures AreTiers(Filter(before, p), Filter(before, Not(p)), x, p, less)
  {
    forall a | a in Filter(before, p)
      ensures p(a) && !less(x, a)
    {
      FilterHas(before, p, a);
    }
    forall a | a in Filter(before, Not(p))
      ensures !p(a) && (less(x, a) <==> p(x))
    {
      FilterHas(before, Not(p), a);
    }
  }

  lemma {:induction false} InsertTier<T>(yes: seq<T>, no: seq<T>, x: T, p: T -> bool, less: (T, T) -> bool)
    requires AreTiers(yes, no, x, p, less)
    ensures Insert(yes + no, x, less) == yes + if p(x) then [x] + no else no + [x]
  {
    if yes == [] {
      InsertBelow(no, x, p, less);
      assert [] + no == no;
    } else {
      InsertTier(yes[1..], no, x, p, less);
      InsertBehind(yes, no, x, less);
      HeadFirst(yes, if p(x) then [x] + no else no + [x]);
    }
  }

  lemma InsertBehind<T>(yes: seq<T>, no: seq<T>, x: T, less: (T, T) -> bool)
    requires yes != [] && !less(x, yes[0])
    ensures Insert(yes + no, x, less) == [yes[0]] + Insert(yes[1..] + no, x, less)
  {
    assert (yes + no)[1..] == yes[1..] + no;
  }

  lemma HeadFirst<T>(a: seq<T>, b: seq<T>)
    requires a != []
    ensures [a[0]] + (a[1..] + b) == a + b
  {
  }

  lemma InsertBelow<T>(no: seq<T>, x: T, p: T -> bool, less: (T, T) -> bool)
    requires AreTiers([], no, x, p, less)
    ensures Insert(no, x, less) == if p(x) then [x] + no else no + [x]
  {
    if !p(x) {
      InsertLast(no, x, less);
    }
  }

  lemma {:induction false} InsertLast<T>(s: seq<T>, x: T, less: (T, T) -> bool)
    requires forall a :: a in s ==> !less(x, a)
    ensures Insert(s, x, less) == s + [x]
  {
    if s != [] {
      InsertLast(s[1..], x, less);
    }
  }

  // ----- strings -----

  /** Go's < on strings: by code point, a proper prefix first. */
  predicate Below(a: string, b: string) {
    b != [] && (a == [] || a[0] < b[0] || (a[0] == b[0] && Below(a[1..], b[1..])))
  }

  lemma {:induction false} BelowTotal(a: string, b: string)
    ensures !(Below(a, b) && Below(b, a))
    ensures a != b ==> Below(a, b) || Below(b, a)
    ensures a == b ==> !Below(a, b)
  {
    if a != [] && b != [] && a[0] == b[0] {
      BelowTotal(a[1..], b[1..]);
      assert a == [a[0]] + a[1..] && b == [b[0]] + b[1..];
    }
  }

  lemma {:induction false} BelowTransitive(a: string, b: string, c: string)
    requires Below(a, b) && Below(b, c)
    ensures Below(a, c)
  {
    if a != [] && a[0] == b[0] == c[0] {
      BelowTransitive(a[1..], b[1..], c[1..]);
    }
  }

  lemma BelowOrders()
    ensures Orders(Below) && Total(Below)
  {
    forall a, b
      ensures !(Below(a, b) && Below(b, a)) && (a != b ==> Below(a, b) || Below(b, a))
    {
      BelowTotal(a, b);
    }
    forall a, b, c | !Below(b, a) && !Below(c, b)
      ensures !Below(c, a)
    {
      BelowChain(a, b, c);
    }
  }

  lemma BelowChain(a: string, b: string, c: string)
    requires !Below(b, a) && !Below(c, b)
    ensures !Below(c, a)
  {
    BelowTotal(a, b);
    BelowTotal(b, c);
    BelowTotal(a, c);
    if a != b && b != c {
      BelowTransitive(a, b, c);
    }
  }

  /** Strings are ordered at the first character in which they differ; a beginning comes first. */
  lemma {:induction false} BelowIff(a: string, b: string)
    ensures Below(a, b) <==>
      || (a <= b && |a| < |b|)
      || exists k :: 0 <= k < |a| && k < |b| && a[..k] == b[..k] && a[k] < b[k]
  {
    if a != [] && b != [] {
      if a[0] == b[0] {
        BelowIff(a[1..], b[1..]);
        FirstDifferenceShifts(a, b);
        assert a <= b <==> a[1..] <= b[1..];
      } else {
        assert a[0] < b[0] ==> a[..0] == b[..0];
        assert forall k :: 0 < k < |a| && k < |b| ==> a[..k][0] == a[0] && b[..k][0] == b[0];
      }
    }
  }

  lemma FirstDifferenceShifts(a: string, b: string)
    requires a != [] && b != [] && a[0] == b[0]
    ensures (exists k :: 0 <= k < |a| && k < |b| && a[..k] == b[..k] && a[k] < b[k])
            <==> exists k :: 0 <= k < |a[1..]| && k < |b[1..]| && a[1..][..k] == b[1..][..k] && a[1..][k] < b[1..][k]
  {
    if k :| 0 <= k < |a| && k < |b| && a[..k] == b[..k] && a[k] < b[k] {
      assert a[1..][..k - 1] == a[..k][1..] == b[..k][1..] == b[1..][..k - 1];
    }
    if k :| 0 <= k < |a[1..]| && k < |b[1..]| && a[1..][..k] == b[1..][..k] && a[1..][k] < b[1..][k] {
      assert a[..k + 1] == [a[0]] + a[1..][..k];
      assert b[..k + 1] == [b[0]] + b[1..][..k];
    }
  }

  // ----- stability -----

  lemma FilterOne<T>(x: T, p: T -> bool)
    ensures Filter([x], p) == if p(x) then [x] else []
  {
    assert [x][..0] == [];
  }

  /** Filtering keeps the order: what comes first is filtered first. */
  lemma {:induction false} FilterConcat<T>(a: seq<T>, b: seq<T>, p: T -> bool)
    ensures Filter(a + b, p) == Filter(a, p) + Filter(b, p)
    decreases |b|
  {
    if b == [] {
      assert a + b == a;
    } else {
      assert (a + b)[..|a + b| - 1] == a + b[..|b| - 1];
      FilterConcat(a, b[..|b| - 1], p);
    }
  }

  lemma {:induction false} NoneFiltered<T>(s: seq<T>, p: T -> bool)
    requires forall x :: x in s ==> !p(x)
    ensures Filter(s, p) == []
  {
    if s != [] {
      NoneFiltered(s[..|s| - 1], p);
    }
  }

  /** What x precedes the first of ties with nothing that follows. */
  lemma NoTieBehind<T(!new)>(s: seq<T>, x: T, p: T -> bool, less: (T, T) -> bool)
    requires Orders(less) && Sorted(s, less) && s != [] && less(x, s[0]) && p(x) && AllTie(p, less)
    ensures forall y :: y in s ==> !p(y)
  {
    forall y | y in s
      ensures !p(y)
    {
      var i :| 0 <= i < |s| && s[i] == y;
      assert i > 0 ==> !less(s[i], s[0]);
    }
  }

  lemma {:induction false} InsertIsStable<T(!new)>(s: seq<T>, x: T, p: T -> bool, less: (T, T) -> bool)
    requires Orders(less) && Sorted(s, less) && AllTie(p, less)
    ensures Filter(Insert(s, x, less), p) == Filter(s, p) + if p(x) then [x] else []
  {
    if s == [] {
      FilterOne(x, p);
    } else if less(x, s[0]) {
      if p(x) {
        NoTieBehind(s, x, p, less);
        NoneFiltered(s, p);
      }
      InsertInFront(s, x, p, less);
    } else {
      SortedRest(s, less);
      InsertIsStable(s[1..], x, p, less);
      InsertFurther(s, x, p, less);
    }
  }

  ghost predicate AllTie<T(!new)>(p: T -> bool, less: (T, T) -> bool) {
    forall a, b :: p(a) && p(b) ==> !less(a, b)
  }

  lemma InsertInFront<T>(s: seq<T>, x: T, p: T -> bool, less: (T, T) -> bool)
    requires s != [] && less(x, s[0]) && (p(x) ==> Filter(s, p) == [])
    ensures Filter(Insert(s, x, less), p) == Filter(s, p) + if p(x) then [x] else []
  {
    FilterCons(x, s, p);
  }

  lemma InsertFurther<T>(s: seq<T>, x: T, p: T -> bool, less: (T, T) -> bool)
    requires s != [] && !less(x, s[0])
    requires Filter(Insert(s[1..], x, less), p) == Filter(s[1..], p) + if p(x) then [x] else []
    ensures Filter(Insert(s, x, less), p) == Filter(s, p) + if p(x) then [x] else []
  {
    assert Insert(s, x, less) == [s[0]] + Insert(s[1..], x, less);
    FilteredBehind(s, s[0], s[1..], Insert(s[1..], x, less), if p(x) then [x] else [], p);
  }

  lemma FilteredBehind<T>(s: seq<T>, y: T, rest: seq<T>, longer: seq<T>, more: seq<T>, p: T -> bool)
    requires s == [y] + rest && Filter(longer, p) == Filter(rest, p) + more
    ensures Filter([y] + longer, p) == Filter(s, p) + more
  {
    FilterCons(y, longer, p);
    FilterCons(y, rest, p);
    AppendBehind(if p(y) then [y] else [], Filter(rest, p), more);
  }

  lemma AppendBehind<T>(first: seq<T>, s: seq<T>, more: seq<T>)
    ensures first + (s + more) == first + s + more
  {
  }

  lemma SortedRest<T>(s: seq<T>, less: (T, T) -> bool)
    requires Sorted(s, less) && s != []
    ensures Sorted(s[1..], less)
  {
  }

  lemma FilterCons<T>(x: T, s: seq<T>, p: T -> bool)
    ensures Filter([x] + s, p) == (if p(x) then [x] else []) + Filter(s, p)
  {
    FilterOne(x, p);
    FilterConcat([x], s, p);
  }

  /** Elements that tie keep their order. */
  lemma {:induction false} SortIsStable<T(!new)>(s: seq<T>, p: T -> bool, less: (T, T) -> bool)
    requires Orders(less) && AllTie(p, less)
    ensures Filter(Sort(s, less), p) == Filter(s, p)
  {
    if s != [] {
      SortIsStable(s[..|s| - 1], p, less);
      SortSorts(s[..|s| - 1], less);
      InsertIsStable(Sort(s[..|s| - 1], less), s[|s| - 1], p, less);
    }
  }
}
