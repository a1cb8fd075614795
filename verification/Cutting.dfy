/** Cutting a sequence before every element of a given kind. */
module Cutting {
  import opened Text

  /** A head and the elements up to the next head. */
  predicate IsGroup<T>(g: seq<T>, head: T -> bool) {
    g != [] && head(g[0]) && NoneOf(g[1..], head)
  }

  predicate AreGroups<T>(gs: seq<seq<T>>, head: T -> bool) {
    forall i :: 0 <= i < |gs| ==> IsGroup(gs[i], head)
  }

  /** The sequence cut before every head; what precedes the first head belongs to no group. */
  function Groups<T>(s: seq<T>, head: T -> bool): (gs: seq<seq<T>>)
    decreases |s|
  {
    var i := FirstIndex(s, head);
    if i == |s| then []
    else
      var tail := s[i + 1..];
      var j := FirstIndex(tail, head);
      [[s[i]] + tail[..j]] + Groups(tail[j..], head)
  }

  /** The first group and what is left to cut after it. */
  lemma GroupsStep<T>(s: seq<T>, head: T -> bool) returns (group: seq<T>, rest: seq<T>)
    requires FirstIndex(s, head) < |s|
    ensures Groups(s, head) == [group] + Groups(rest, head)
    ensures IsGroup(group, head) && |rest| < |s|
    ensures group + rest == s[FirstIndex(s, head)..]
    ensures rest != [] ==> head(rest[0])
  {
    var i := FirstIndex(s, head);
    var tail := s[i + 1..];
    var j := FirstIndex(tail, head);
    group, rest := [s[i]] + tail[..j], tail[j..];
    assert IsGroup(group, head) by {
      assert group[1..] == tail[..j];
      assert NoneOf(tail[..j], head);
    }
    assert group + rest == s[i..] by {
      ConsSplit(s[i], tail, j);
      assert s[i..] == [s[i]] + tail;
    }
  }

  lemma ConsSplit<T>(x: T, tail: seq<T>, j: nat)
    requires j <= |tail|
    ensures [x] + tail[..j] + tail[j..] == [x] + tail
  {
  }

  lemma {:induction false} GroupsAreGroups<T>(s: seq<T>, head: T -> bool)
    ensures AreGroups(Groups(s, head), head)
    decreases |s|
  {
    if FirstIndex(s, head) < |s| {
      var group, rest := GroupsStep(s, head);
      GroupsAreGroups(rest, head);
      ConsAreGroups(group, Groups(rest, head), head);
    } else {
      assert Groups(s, head) == [];
    }
  }

  lemma ConsAreGroups<T>(g: seq<T>, gs: seq<seq<T>>, head: T -> bool)
    requires IsGroup(g, head) && AreGroups(gs, head)
    ensures AreGroups([g] + gs, head)
  {
  }

  function Flatten<T>(gs: seq<seq<T>>): seq<T> {
    if gs == [] then [] else gs[0] + Flatten(gs[1..])
  }

  lemma {:induction false} FlattenAppend<T>(gs: seq<seq<T>>, g: seq<T>)
    ensures Flatten(gs + [g]) == Flatten(gs) + g
  {
    if gs == [] {
      assert gs + [g] == [g];
    } else {
      assert (gs + [g])[1..] == gs[1..] + [g];
      FlattenAppend(gs[1..], g);
    }
  }

  lemma FlattenStep<T>(gs: seq<seq<T>>, i: nat)
    requires i < |gs|
    ensures Flatten(gs[..i + 1]) == Flatten(gs[..i]) + gs[i]
  {
    assert gs[..i + 1] == gs[..i] + [gs[i]];
    FlattenAppend(gs[..i], gs[i]);
  }

  lemma FlattenStartsWithHead<T>(gs: seq<seq<T>>, head: T -> bool)
    requires AreGroups(gs, head)
    ensures Flatten(gs) != [] ==> head(Flatten(gs)[0])
  {
  }

  lemma GroupsCons<T>(before: seq<T>, g: seq<T>, rest: seq<T>, head: T -> bool)
    requires NoneOf(before, head) && IsGroup(g, head) && (rest != [] ==> head(rest[0]))
    ensures Groups(before + g + rest, head) == [g] + Groups(rest, head)
  {
    var s := before + g + rest;
    FirstIndexIs(s, head, |before|);
    var tail := s[|before| + 1..];
    assert s[|before|] == g[0];
    assert tail == g[1..] + rest;
    FirstIndexPast(g[1..], rest, head);
    assert tail[..|g| - 1] == g[1..] && tail[|g| - 1..] == rest;
    assert [g[0]] + g[1..] == g;
    assert Groups(s, head) == [[s[|before|]] + tail[..|g| - 1]] + Groups(tail[|g| - 1..], head);
  }

  /** Cutting groups laid end to end gives the groups, whatever headless run precedes them. */
  lemma {:induction false} GroupsOfFlatten<T>(before: seq<T>, gs: seq<seq<T>>, head: T -> bool)
    requires NoneOf(before, head) && AreGroups(gs, head)
    ensures Groups(before + Flatten(gs), head) == gs
    decreases gs
  {
    if gs == [] {
      FirstIndexIs(before + [], head, |before|);
    } else {
      var rest := Flatten(gs[1..]);
      assert before + Flatten(gs) == before + gs[0] + rest;
      FlattenStartsWithHead(gs[1..], head);
      GroupsCons(before, gs[0], rest, head);
      GroupsOfFlatten([], gs[1..], head);
      assert [] + rest == rest;
    }
  }

  /** Cutting loses nothing: what precedes the first head and the groups are the sequence. */
  lemma {:induction false} GroupsAreAll<T>(s: seq<T>, head: T -> bool)
    ensures s[..FirstIndex(s, head)] + Flatten(Groups(s, head)) == s
    decreases |s|
  {
    if FirstIndex(s, head) < |s| {
      var group, rest := GroupsStep(s, head);
      GroupsAreAll(rest, head);
      GroupsStartAt(s, group, rest, head);
    }
  }

  lemma GroupsStartAt<T>(s: seq<T>, group: seq<T>, rest: seq<T>, head: T -> bool)
    requires FirstIndex(s, head) < |s| && group + rest == s[FirstIndex(s, head)..] && IsGroup(group, head)
    requires Groups(s, head) == [group] + Groups(rest, head)
    requires rest[..FirstIndex(rest, head)] + Flatten(Groups(rest, head)) == rest
    requires rest != [] ==> head(rest[0])
    ensures s[..FirstIndex(s, head)] + Flatten(Groups(s, head)) == s
  {
    assert FirstIndex(rest, head) == 0;
    assert rest[..0] == [];
    assert Flatten([group] + Groups(rest, head)) == group + Flatten(Groups(rest, head));
  }

  predicate NoneOfAll<T>(gs: seq<seq<T>>, p: T -> bool) {
    forall k :: 0 <= k < |gs| ==> NoneOf(gs[k], p)
  }

  lemma NoneSlice<T>(s: seq<T>, lo: nat, hi: nat, p: T -> bool)
    requires lo <= hi <= |s| && NoneOf(s, p)
    ensures NoneOf(s[lo..hi], p)
  {
  }

  lemma NoneOfAllCons<T>(g: seq<T>, gs: seq<seq<T>>, p: T -> bool)
    ensures NoneOfAll([g] + gs, p) <==> NoneOf(g, p) && NoneOfAll(gs, p)
  {
    assert ([g] + gs)[0] == g;
    assert forall k :: 0 <= k < |gs| ==> ([g] + gs)[k + 1] == gs[k];
  }

  /** The elements of the groups are elements of the sequence. */
  lemma {:induction false} GroupElements<T>(s: seq<T>, head: T -> bool, bad: T -> bool)
    requires NoneOf(s, bad)
    ensures NoneOfAll(Groups(s, head), bad)
    decreases |s|
  {
    if FirstIndex(s, head) < |s| {
      var group, rest := GroupsStep(s, head);
      NoneSlice(s, FirstIndex(s, head), |s|, bad);
      NoneConcat(group, rest, bad);
      GroupElements(rest, head, bad);
      NoneOfAllCons(group, Groups(rest, head), bad);
    } else {
      assert Groups(s, head) == [];
    }
  }

  lemma {:induction false} FlattenElements<T>(gs: seq<seq<T>>, bad: T -> bool)
    ensures NoneOf(Flatten(gs), bad) <==> NoneOfAll(gs, bad)
  {
    if gs != [] {
      FlattenElements(gs[1..], bad);
      NoneConcat(gs[0], Flatten(gs[1..]), bad);
      NoneOfAllCons(gs[0], gs[1..], bad);
      assert gs == [gs[0]] + gs[1..];
    }
  }

  lemma NoneConcat<T>(a: seq<T>, b: seq<T>, p: T -> bool)
    ensures NoneOf(a + b, p) <==> NoneOf(a, p) && NoneOf(b, p)
  {
    assert forall i :: 0 <= i < |a| ==> (a + b)[i] == a[i];
    assert forall i :: 0 <= i < |b| ==> (a + b)[|a| + i] == b[i];
  }

  lemma GroupExtend<T>(g: seq<T>, more: seq<T>, head: T -> bool)
    requires IsGroup(g, head) && NoneOf(more, head)
    ensures IsGroup(g + more, head)
  {
    assert (g + more)[1..] == g[1..] + more;
  }

  lemma FirstIndexPast<T>(before: seq<T>, rest: seq<T>, p: T -> bool)
    requires NoneOf(before, p) && (rest != [] ==> p(rest[0]))
    ensures FirstIndex(before + rest, p) == |before|
  {
    FirstIndexIs(before + rest, p, |before|);
  }

  // ----- a section between a mark and the next end mark -----

  /** The index of the first end mark after the first mark, or |doc|. */
  function EndIndex<T>(doc: seq<T>, isMark: T -> bool, isEnd: T -> bool): (end: nat)
    requires FirstIndex(doc, isMark) < |doc|
    ensures FirstIndex(doc, isMark) < end <= |doc|
    ensures end < |doc| ==> isEnd(doc[end])
    ensures forall k :: FirstIndex(doc, isMark) < k < end ==> !isEnd(doc[k])
  {
    var tail := doc[FirstIndex(doc, isMark) + 1..];
    var n := FirstIndex(tail, isEnd);
    assert forall k :: FirstIndex(doc, isMark) < k < FirstIndex(doc, isMark) + 1 + n ==>
      doc[k] == tail[k - FirstIndex(doc, isMark) - 1];
    FirstIndex(doc, isMark) + 1 + n
  }

  lemma EndIndexIs<T>(doc: seq<T>, isMark: T -> bool, isEnd: T -> bool, end: nat)
    requires FirstIndex(doc, isMark) < end <= |doc|
    requires forall k :: FirstIndex(doc, isMark) < k < end ==> !isEnd(doc[k])
    requires end < |doc| ==> isEnd(doc[end])
    ensures EndIndex(doc, isMark, isEnd) == end
  {
  }

  /** Nothing between mark and end mark is an end mark. */
  lemma MiddleHasNoEnd<T>(doc: seq<T>, isMark: T -> bool, isEnd: T -> bool)
    requires FirstIndex(doc, isMark) < |doc|
    ensures NoneOf(doc[FirstIndex(doc, isMark) + 1..EndIndex(doc, isMark, isEnd)], isEnd)
  {
  }

  function Replace<T>(doc: seq<T>, mark: T, section: seq<T>, isMark: T -> bool, isEnd: T -> bool): seq<T>
    requires FirstIndex(doc, isMark) < |doc|
  {
    doc[..FirstIndex(doc, isMark)] + [mark] + section + doc[EndIndex(doc, isMark, isEnd)..]
  }

  /** A replaced section is found where it was put, and nothing around it moved. */
  lemma ReplaceReadsBack<T>(doc: seq<T>, mark: T, section: seq<T>, isMark: T -> bool, isEnd: T -> bool)
    requires FirstIndex(doc, isMark) < |doc|
    requires isMark(mark) && NoneOf(section, isEnd)
    ensures var h, end := FirstIndex(doc, isMark), EndIndex(doc, isMark, isEnd);
            var after := Replace(doc, mark, section, isMark, isEnd);
            && FirstIndex(after, isMark) == h < |after|
            && EndIndex(after, isMark, isEnd) == h + 1 + |section|
            && after[h + 1..h + 1 + |section|] == section
            && after[..h] == doc[..h]
            && after[h + 1 + |section|..] == doc[end..]
  {
    var h, end := FirstIndex(doc, isMark), EndIndex(doc, isMark, isEnd);
    var after := Replace(doc, mark, section, isMark, isEnd);
    FirstIndexIs(after, isMark, h);
    assert after[h + 1..] == section + doc[end..];
    FirstIndexPast(section, doc[end..], isEnd);
  }

  /** Replacing changes nothing exactly when mark and section are the ones already there. */
  lemma ReplaceSame<T>(doc: seq<T>, mark: T, section: seq<T>, isMark: T -> bool, isEnd: T -> bool)
    requires FirstIndex(doc, isMark) < |doc|
    ensures var h, end := FirstIndex(doc, isMark), EndIndex(doc, isMark, isEnd);
            Replace(doc, mark, section, isMark, isEnd) == doc <==> mark == doc[h] && section == doc[h + 1..end]
  {
    var h, end := FirstIndex(doc, isMark), EndIndex(doc, isMark, isEnd);
    SplitInFour(doc, h, end);
    SameMiddle(doc[..h], mark, section, doc[h], doc[h + 1..end], doc[end..]);
  }

  lemma SplitInFour<T>(doc: seq<T>, h: nat, end: nat)
    requires h < end <= |doc|
    ensures doc == doc[..h] + [doc[h]] + doc[h + 1..end] + doc[end..]
  {
  }

  lemma SameMiddle<T>(before: seq<T>, x: T, a: seq<T>, y: T, b: seq<T>, after: seq<T>)
    ensures before + [x] + a + after == before + [y] + b + after <==> x == y && a == b
  {
    SameAppended(before + [x] + a, before + [y] + b, after);
    assert before + [x] + a == before + ([x] + a);
    assert before + [y] + b == before + ([y] + b);
    SamePrepended(before, [x] + a, [y] + b);
    if [x] + a == [y] + b {
      assert x == ([x] + a)[0] == ([y] + b)[0] == y;
      SamePrepended([x], a, b);
    }
  }

  lemma SameAppended<T>(a: seq<T>, b: seq<T>, tail: seq<T>)
    ensures a + tail == b + tail <==> a == b
  {
    if a + tail == b + tail {
      assert a == (a + tail)[..|a|] == (b + tail)[..|b|] == b;
    }
  }

  lemma SamePrepended<T>(head: seq<T>, a: seq<T>, b: seq<T>)
    ensures head + a == head + b <==> a == b
  {
    if head + a == head + b {
      assert a == (head + a)[|head|..] == (head + b)[|head|..] == b;
    }
  }

  /** What stands behind position h up to the next end mark. */
  function SectionAt<T>(doc: seq<T>, h: nat, isEnd: T -> bool): seq<T>
    requires h < |doc|
  {
    doc[h + 1..h + 1 + FirstIndex(doc[h + 1..], isEnd)]
  }

  /** A replaced section stands behind its mark, whatever the mark is. */
  lemma ReplacedSection<T>(doc: seq<T>, mark: T, section: seq<T>, isMark: T -> bool, isEnd: T -> bool)
    requires FirstIndex(doc, isMark) < |doc| && NoneOf(section, isEnd)
    ensures var h, after := FirstIndex(doc, isMark), Replace(doc, mark, section, isMark, isEnd);
            h < |after| && after[h] == mark && SectionAt(after, h, isEnd) == section
  {
    var h, end := FirstIndex(doc, isMark), EndIndex(doc, isMark, isEnd);
    var after := Replace(doc, mark, section, isMark, isEnd);
    BehindMark(doc[..h], mark, section, doc[end..]);
    FirstIndexPast(section, doc[end..], isEnd);
  }

  lemma BehindMark<T>(before: seq<T>, mark: T, section: seq<T>, tail: seq<T>)
    ensures var s := before + [mark] + section + tail;
            && s[|before|] == mark && s[|before| + 1..] == section + tail && (section + tail)[..|section|] == section
  {
  }

  lemma ReplaceKeepsAround<T>(doc: seq<T>, mark: T, section: seq<T>, isMark: T -> bool, isEnd: T -> bool)
    requires FirstIndex(doc, isMark) < |doc|
    ensures var h, tail := FirstIndex(doc, isMark), |doc| - EndIndex(doc, isMark, isEnd);
            var after := Replace(doc, mark, section, isMark, isEnd);
            && |after| == h + 1 + |section| + tail
            && after[..h] == doc[..h]
            && after[|after| - tail..] == doc[|doc| - tail..]
  {
  }

  lemma ReplaceAvoids<T>(doc: seq<T>, mark: T, section: seq<T>, isMark: T -> bool, isEnd: T -> bool, bad: T -> bool)
    requires FirstIndex(doc, isMark) < |doc|
    ensures NoneOf(Replace(doc, mark, section, isMark, isEnd), bad)
            <==> && NoneOf(doc[..FirstIndex(doc, isMark)], bad) && !bad(mark)
                 && NoneOf(section, bad) && NoneOf(doc[EndIndex(doc, isMark, isEnd)..], bad)
  {
    var h, end := FirstIndex(doc, isMark), EndIndex(doc, isMark, isEnd);
    assert NoneOf([mark], bad) <==> !bad(mark) by {
      assert [mark][0] == mark;
    }
    NoneConcat(doc[..h], [mark], bad);
    NoneConcat(doc[..h] + [mark], section, bad);
    NoneConcat(doc[..h] + [mark] + section, doc[end..], bad);
  }

  // ----- the loops -----

  method Find<T>(s: seq<T>, from: nat, p: T -> bool) returns (i: nat)
    requires from <= |s|
    ensures from <= i <= |s|
    ensures i < |s| ==> p(s[i])
    ensures forall k :: from <= k < i ==> !p(s[k])
  {
    i := from;
    while i < |s| && !p(s[i])
      invariant from <= i <= |s|
      invariant forall k :: from <= k < i ==> !p(s[k])
    {
      i := i + 1;
    }
  }

  /** The start of the longest run at the end of s whose elements all satisfy p. */
  method TrailingRun<T>(s: seq<T>, p: T -> bool) returns (start: nat)
    ensures start <= |s| && s[..start] == DropTrailing(s, p)
  {
    start := |s|;
    while start > 0 && p(s[start - 1])
      invariant start <= |s|
      invariant forall k :: start <= k < |s| ==> p(s[k])
    {
      start := start - 1;
    }
    DropTrailingIs(s, p, start);
  }

  /** The positions of all elements that satisfy p, in order. */
  method Positions<T>(s: seq<T>, p: T -> bool) returns (starts: seq<nat>)
    ensures ArePositions(s, p, starts)
  {
    starts := [];
    for i := 0 to |s|
      invariant forall q :: 0 <= q < |starts| ==> starts[q] < i && p(s[starts[q]])
      invariant forall q, r :: 0 <= q < r < |starts| ==> starts[q] < starts[r]
      invariant forall k :: 0 <= k < i && p(s[k]) ==> k in starts
    {
      if p(s[i]) {
        starts := starts + [i];
      }
    }
  }

  ghost predicate ArePositions<T>(s: seq<T>, p: T -> bool, starts: seq<nat>) {
    && (forall q :: 0 <= q < |starts| ==> starts[q] < |s| && p(s[starts[q]]))
    && (forall q, r :: 0 <= q < r < |starts| ==> starts[q] < starts[r])
    && (forall k :: 0 <= k < |s| && p(s[k]) ==> k in starts)
  }

  /** Where the q-th group ends. */
  function EndOf(n: nat, starts: seq<nat>, q: nat): nat
    requires q < |starts|
  {
    if q + 1 < |starts| then starts[q + 1] else n
  }

  /** What is left to cut when q groups are done. */
  ghost function Rest<T>(s: seq<T>, starts: seq<nat>, q: nat): seq<T> {
    if q == 0 then s else if q < |starts| && starts[q] <= |s| then s[starts[q]..] else []
  }

  /** No head lies between two neighbouring positions. */
  lemma GapHasNoHead<T>(s: seq<T>, head: T -> bool, starts: seq<nat>, q: nat, k: nat)
    requires ArePositions(s, head, starts) && q < |starts|
    requires (q == 0 && k < starts[q]) || starts[q] < k < EndOf(|s|, starts, q)
    requires k < |s|
    ensures !head(s[k])
  {
    if head(s[k]) {
      assert k in starts;
      var r :| 0 <= r < |starts| && starts[r] == k;
      assert false;
    }
  }

  lemma EndIsAfterStart<T>(s: seq<T>, head: T -> bool, starts: seq<nat>, q: nat)
    requires ArePositions(s, head, starts) && q < |starts|
    ensures starts[q] < EndOf(|s|, starts, q) <= |s|
    ensures EndOf(|s|, starts, q) < |s| ==> head(s[EndOf(|s|, starts, q)])
    ensures Rest(s, starts, q + 1) == s[EndOf(|s|, starts, q)..]
  {
  }

  /** The q-th start and the next one bound exactly the group that is cut next. */
  lemma GroupAt<T>(s: seq<T>, head: T -> bool, starts: seq<nat>, q: nat)
    requires ArePositions(s, head, starts) && q < |starts|
    ensures starts[q] < EndOf(|s|, starts, q) <= |s|
    ensures Groups(Rest(s, starts, q), head)
            == [s[starts[q]..EndOf(|s|, starts, q)]] + Groups(Rest(s, starts, q + 1), head)
  {
    var from, start, end := if q == 0 then 0 else starts[q], starts[q], EndOf(|s|, starts, q);
    EndIsAfterStart(s, head, starts, q);
    forall k | from <= k < end && k != start
      ensures !head(s[k])
    {
      GapHasNoHead(s, head, starts, q, k);
    }
    assert head(s[start]);
    assert Rest(s, starts, q) == s[from..];
    CutOne(s, head, from, start, end);
  }

  lemma CutOne<T>(s: seq<T>, head: T -> bool, from: nat, start: nat, end: nat)
    requires from <= start < end <= |s| && head(s[start])
    requires forall k :: from <= k < end && k != start ==> !head(s[k])
    requires end < |s| ==> head(s[end])
    ensures Groups(s[from..], head) == [s[start..end]] + Groups(s[end..], head)
  {
    var before, group, rest := s[from..start], s[start..end], s[end..];
    assert s[from..] == before + group + rest;
    assert group[1..] == s[start + 1..end];
    GroupsCons(before, group, rest, head);
  }

  /** Cuts s before every head: first the positions of the heads, then the runs between them. */
  method CutAll<T>(s: seq<T>, head: T -> bool) returns (gs: seq<seq<T>>)
    ensures gs == Groups(s, head)
  {
    var starts := Positions(s, head);
    gs := [];
    if |starts| == 0 {
      FirstIndexIs(s, head, |s|);
      return;
    }
    for q := 0 to |starts|
      invariant Groups(s, head) == gs + Groups(Rest(s, starts, q), head)
    {
      GroupAt(s, head, starts, q);
      var group := s[starts[q]..EndOf(|s|, starts, q)];
      AppendCons(gs, group, Groups(Rest(s, starts, q + 1), head));
      gs := gs + [group];
    }
    NothingToCut(Rest(s, starts, |starts|), head);
  }

  lemma NothingToCut<T>(s: seq<T>, head: T -> bool)
    requires s == []
    ensures Groups(s, head) == []
  {
  }

  lemma AppendCons<T>(a: seq<T>, x: T, b: seq<T>)
    ensures a + ([x] + b) == a + [x] + b
  {
  }

  /** Whether an element between the mark and the end mark is wanted, in one pass. */
  method AnyInSection<T>(doc: seq<T>, isMark: T -> bool, isEnd: T -> bool, wanted: T -> bool) returns (found: bool)
    ensures found <==>
      && FirstIndex(doc, isMark) < |doc|
      && exists k :: FirstIndex(doc, isMark) < k < EndIndex(doc, isMark, isEnd) && wanted(doc[k])
  {
    var inSection := false;
    found := false;
    ghost var end := |doc|;
    for i := 0 to |doc|
      invariant end == |doc|
      invariant !inSection ==> !found && forall k :: 0 <= k < i ==> !isMark(doc[k])
      invariant inSection ==> FirstIndex(doc, isMark) < i
      invariant inSection ==> forall k :: FirstIndex(doc, isMark) < k < i ==> !isEnd(doc[k])
      invariant inSection ==> (found <==> exists k :: FirstIndex(doc, isMark) < k < i && wanted(doc[k]))
    {
      if inSection {
        if isEnd(doc[i]) {
          end := i;
          break;
        }
        if wanted(doc[i]) {
          found := true;
        }
      } else if isMark(doc[i]) {
        inSection := true;
        FirstIndexIs(doc, isMark, i);
      }
    }
    if inSection {
      EndIndexIs(doc, isMark, isEnd, end);
    } else {
      FirstIndexIs(doc, isMark, |doc|);
    }
  }
}
