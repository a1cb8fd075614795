/** Strings, lines and the few `strings` and `regexp` primitives the text code is written with.
    A string is its sequence of code points. */
module Text {

  /** Go's unicode.IsSpace: the White_Space property. */
  predicate IsSpace(c: char) {
    || c == ' '
    || '\t' <= c <= '\r'
    || c == '\U{85}' || c == '\U{A0}' || c == '\U{1680}'
    || '\U{2000}' <= c <= '\U{200A}'
    || c == '\U{2028}' || c == '\U{2029}' || c == '\U{202F}' || c == '\U{205F}' || c == '\U{3000}'
  }

  /** The class \s of RE2, which is ASCII only and has no vertical tab. */
  predicate IsRegexSpace(c: char) {
    c == ' ' || c == '\t' || c == '\n' || c == '\U{0C}' || c == '\r'
  }

  predicate IsDigit(c: char) {
    '0' <= c <= '9'
  }

  predicate IsLetter(c: char) {
    'a' <= c <= 'z' || 'A' <= c <= 'Z'
  }

  predicate NoneOf<T>(s: seq<T>, p: T -> bool) {
    forall i :: 0 <= i < |s| ==> !p(s[i])
  }

  function Map<A, B>(f: A -> B, s: seq<A>): (r: seq<B>)
    ensures |r| == |s| && forall i :: 0 <= i < |s| ==> r[i] == f(s[i])
  {
    seq(|s|, i requires 0 <= i < |s| => f(s[i]))
  }

  lemma MapStep<A, B>(f: A -> B, s: seq<A>, q: nat)
    requires q < |s|
    ensures Map(f, s[..q + 1]) == Map(f, s[..q]) + [f(s[q])]
  {
  }

  function MapIndexed<A, B>(f: (A, nat) -> B, s: seq<A>): (r: seq<B>)
    ensures |r| == |s| && forall i :: 0 <= i < |s| ==> r[i] == f(s[i], i)
  {
    seq(|s|, i requires 0 <= i < |s| => f(s[i], i))
  }

  lemma MapIndexedStep<A, B>(f: (A, nat) -> B, s: seq<A>, q: nat)
    requires q < |s|
    ensures MapIndexed(f, s[..q + 1]) == MapIndexed(f, s[..q]) + [f(s[q], q)]
  {
  }

  // ----- dropping and searching -----

  function DropLeading<T>(s: seq<T>, p: T -> bool): (r: seq<T>)
    ensures |r| <= |s| && r == s[|s| - |r|..]
    ensures r != [] ==> !p(r[0])
    ensures forall i :: 0 <= i < |s| - |r| ==> p(s[i])
  {
    s[RunEnd(s, p, 0)..]
  }

  /** Where the run of elements with p that starts at k ends. */
  function RunEnd<T>(s: seq<T>, p: T -> bool, k: nat): (end: nat)
    requires k <= |s|
    ensures k <= end <= |s|
    ensures end < |s| ==> !p(s[end])
    ensures forall i :: k <= i < end ==> p(s[i])
    decreases |s| - k
  {
    if k < |s| && p(s[k]) then RunEnd(s, p, k + 1) else k
  }

  function DropTrailing<T>(s: seq<T>, p: T -> bool): (r: seq<T>)
    ensures r <= s
    ensures r != [] ==> !p(r[|r| - 1])
    ensures forall i :: |r| <= i < |s| ==> p(s[i])
  {
    s[..RunStart(s, p, |s|)]
  }

  /** Where the run of elements with p that ends before k starts. */
  function RunStart<T>(s: seq<T>, p: T -> bool, k: nat): (start: nat)
    requires k <= |s|
    ensures start <= k
    ensures start > 0 ==> !p(s[start - 1])
    ensures forall i :: start <= i < k ==> p(s[i])
  {
    if k > 0 && p(s[k - 1]) then RunStart(s, p, k - 1) else k
  }

  /** The index of the first element that satisfies p, or |s|. */
  function FirstIndex<T>(s: seq<T>, p: T -> bool): (i: nat)
    ensures i <= |s|
    ensures i < |s| ==> p(s[i])
    ensures forall k :: 0 <= k < i ==> !p(s[k])
  {
    if s == [] || p(s[0]) then 0 else 1 + FirstIndex(s[1..], p)
  }

  /** What is left after dropping is determined by where the dropping must stop. */
  lemma DropTrailingIs<T>(s: seq<T>, p: T -> bool, k: nat)
    requires k <= |s|
    requires k > 0 ==> !p(s[k - 1])
    requires forall i :: k <= i < |s| ==> p(s[i])
    ensures DropTrailing(s, p) == s[..k]
  {
    assert RunStart(s, p, |s|) == k;
  }

  lemma DropLeadingIs<T>(s: seq<T>, p: T -> bool, k: nat)
    requires k <= |s|
    requires k < |s| ==> !p(s[k])
    requires forall i :: 0 <= i < k ==> p(s[i])
    ensures DropLeading(s, p) == s[k..]
  {
    assert RunEnd(s, p, 0) == k;
  }

  lemma FirstIndexIs<T>(s: seq<T>, p: T -> bool, k: nat)
    requires k <= |s|
    requires k < |s| ==> p(s[k])
    requires forall i :: 0 <= i < k ==> !p(s[i])
    ensures FirstIndex(s, p) == k
  {
  }

  lemma DropLeadingPast<T>(before: seq<T>, s: seq<T>, p: T -> bool)
    requires forall i :: 0 <= i < |before| ==> p(before[i])
    requires s != [] && !p(s[0])
    ensures DropLeading(before + s, p) == s
  {
    DropLeadingIs(before + s, p, |before|);
  }

  lemma DropTrailingPast<T>(s: seq<T>, after: seq<T>, p: T -> bool)
    requires forall i :: 0 <= i < |after| ==> p(after[i])
    ensures DropTrailing(s + after, p) == DropTrailing(s, p)
  {
    var r := DropTrailing(s, p);
    var whole := s + after;
    forall i | |r| <= i < |whole|
      ensures p(whole[i])
    {
      if i < |s| {
        assert p(s[i]);
      } else {
        assert p(after[i - |s|]);
      }
    }
    DropTrailingIs(whole, p, |r|);
  }

  function TrimSpace(s: string): string {
    DropTrailing(DropLeading(s, IsSpace), IsSpace)
  }

  /** Nothing but white space. */
  predicate IsBlank(line: string) {
    forall i :: 0 <= i < |line| ==> IsSpace(line[i])
  }

  /** A line trims to nothing exactly when it is blank. */
  lemma BlankIff(s: string)
    ensures IsBlank(s) <==> TrimSpace(s) == ""
  {
    var l := DropLeading(s, IsSpace);
    if l != [] {
      var r := DropTrailing(l, IsSpace);
      assert l[0] == s[|s| - |l|];
    }
  }

  lemma InkyIsNotBlank(s: string, i: nat)
    requires i < |s| && !IsSpace(s[i])
    ensures !IsBlank(s)
  {
  }

  lemma TrimSpaceIdempotent(s: string)
    ensures TrimSpace(TrimSpace(s)) == TrimSpace(s)
  {
    TrimIdempotent(s, IsSpace);
  }

  lemma TrimIdempotent<T>(s: seq<T>, p: T -> bool)
    ensures var t := DropTrailing(DropLeading(s, p), p);
            DropLeading(t, p) == t && DropTrailing(t, p) == t
  {
    var l := DropLeading(s, p);
    var t := DropTrailing(l, p);
    assert t != [] ==> t[0] == l[0];
    DropLeadingIs(t, p, 0);
    DropTrailingIs(t, p, |t|);
  }

  /** Surrounding white space does not survive trimming. */
  lemma TrimSpaceBefore(before: string, s: string)
    requires IsBlank(before)
    ensures TrimSpace(before + s) == TrimSpace(s)
  {
    var l := DropLeading(s, IsSpace);
    if l == [] {
      BlankIff(s);
      BlankIff(before + s);
    } else {
      var cut := s[..|s| - |l|];
      assert before + s == (before + cut) + l;
      DropLeadingPast(before + cut, l, IsSpace);
    }
  }

  lemma TrimSpaceAfter(s: string, after: string)
    requires IsBlank(after)
    ensures TrimSpace(s + after) == TrimSpace(s)
  {
    var l := DropLeading(s, IsSpace);
    if l == [] {
      BlankIff(s);
      BlankIff(s + after);
    } else {
      var cut := s[..|s| - |l|];
      assert s + after == cut + (l + after);
      DropLeadingPast(cut, l + after, IsSpace);
      DropTrailingPast(l, after, IsSpace);
    }
  }

  // ----- lines -----

  predicate HasBreak(line: string) {
    '\n' in line
  }

  /** No line holds a line break. */
  predicate Clean(lines: seq<string>) {
    NoneOf(lines, HasBreak)
  }

  /** strings.Split(s, "\n") */
  function Split(s: string): (lines: seq<string>)
    ensures |lines| > 0 && Clean(lines)
  {
    if s == [] then [""]
    else
      var rest := Split(s[1..]);
      if s[0] == '\n' then [""] + rest else [[s[0]] + rest[0]] + rest[1..]
  }

  /** strings.Join(lines, "\n") */
  function Join(lines: seq<string>): string {
    if lines == [] then ""
    else if |lines| == 1 then lines[0]
    else lines[0] + "\n" + Join(lines[1..])
  }

  lemma {:induction false} JoinSplit(s: string)
    ensures Join(Split(s)) == s
  {
    if s != [] {
      JoinSplit(s[1..]);
      var rest := Split(s[1..]);
      if s[0] == '\n' {
        assert ([""] + rest)[1..] == rest;
      } else {
        var lines := [[s[0]] + rest[0]] + rest[1..];
        assert lines[1..] == rest[1..];
        assert Join(lines) == [s[0]] + Join(rest);
      }
      assert s == [s[0]] + s[1..];
    }
  }

  lemma {:induction false} SplitLine(line: string)
    requires '\n' !in line
    ensures Split(line) == [line]
  {
    if line != [] {
      SplitLine(line[1..]);
      assert line == [line[0]] + line[1..];
    }
  }

  lemma {:induction false} SplitAfterLine(line: string, rest: string)
    requires '\n' !in line
    ensures Split(line + "\n" + rest) == [line] + Split(rest)
  {
    var s := line + "\n" + rest;
    if line == [] {
      assert s[1..] == rest;
    } else {
      SplitAfterLine(line[1..], rest);
      assert s[1..] == line[1..] + "\n" + rest;
      assert line == [line[0]] + line[1..];
    }
  }

  lemma {:induction false} SplitJoin(lines: seq<string>)
    requires lines != [] && Clean(lines)
    ensures Split(Join(lines)) == lines
  {
    if |lines| == 1 {
      SplitLine(lines[0]);
    } else {
      SplitJoin(lines[1..]);
      SplitAfterLine(lines[0], Join(lines[1..]));
    }
  }

  // ----- ink: what trimming cannot remove -----

  /** The number of characters that are not white space. */
  ghost function Ink(s: string): nat {
    if s == [] then 0 else (if IsSpace(s[0]) then 0 else 1) + Ink(s[1..])
  }

  lemma {:induction false} InkConcat(a: string, b: string)
    ensures Ink(a + b) == Ink(a) + Ink(b)
  {
    if a == [] {
      assert a + b == b;
    } else {
      InkConcat(a[1..], b);
      assert (a + b)[1..] == a[1..] + b;
    }
  }

  lemma {:induction false} InkBlank(s: string)
    requires forall i :: 0 <= i < |s| ==> IsSpace(s[i])
    ensures Ink(s) == 0
  {
    if s != [] {
      InkBlank(s[1..]);
    }
  }

  lemma InkDropLeading(s: string)
    ensures Ink(DropLeading(s, IsSpace)) == Ink(s)
  {
    var l := DropLeading(s, IsSpace);
    var cut := s[..|s| - |l|];
    assert s == cut + l;
    InkConcat(cut, l);
    InkBlank(cut);
  }

  lemma InkDropTrailing(s: string)
    ensures Ink(DropTrailing(s, IsSpace)) == Ink(s)
  {
    var r := DropTrailing(s, IsSpace);
    var cut := s[|r|..];
    assert s == r + cut;
    InkConcat(r, cut);
    InkBlank(cut);
  }

  lemma InkTrim(s: string)
    ensures Ink(TrimSpace(s)) == Ink(s)
  {
    var l := DropLeading(s, IsSpace);
    InkDropLeading(s);
    InkDropTrailing(l);
  }

  lemma InkInside(s: string, i: nat)
    requires i < |s| && !IsSpace(s[i])
    ensures Ink(s) > 0
  {
    assert s == s[..i] + ([s[i]] + s[i + 1..]);
    InkConcat(s[..i], [s[i]] + s[i + 1..]);
    InkConcat([s[i]], s[i + 1..]);
  }

  lemma {:induction false} InkJoin(a: seq<string>, b: seq<string>)
    requires a != []
    ensures Ink(Join(a + b)) == Ink(Join(a)) + Ink(Join(b))
  {
    if b == [] {
      assert a + b == a;
    } else if |a| == 1 {
      assert (a + b)[1..] == b;
      InkConcat(a[0] + "\n", Join(b));
      InkConcat(a[0], "\n");
    } else {
      InkJoin(a[1..], b);
      assert (a + b)[1..] == a[1..] + b;
      InkConcat(a[0] + "\n", Join(a[1..] + b));
      InkConcat(a[0] + "\n", Join(a[1..]));
    }
  }

  lemma InkJoinLast(lines: seq<string>)
    requires lines != [] && Ink(lines[|lines| - 1]) > 0
    ensures Ink(Join(lines)) > 0
  {
    var last := [lines[|lines| - 1]];
    if |lines| > 1 {
      assert lines == lines[..|lines| - 1] + last;
      InkJoin(lines[..|lines| - 1], last);
    } else {
      assert lines == last;
    }
  }

  // ----- substring search -----

  /** Whether pat occurs in s at index i. */
  predicate OccursAt(s: string, pat: string, i: int) {
    0 <= i <= |s| - |pat| && s[i..i + |pat|] == pat
  }

  /** strings.Index and bytes.Index: the first occurrence, or -1. */
  function Index(s: string, pat: string): (i: int)
    ensures i == -1 || 0 <= i <= |s| - |pat|
  {
    IndexFrom(s, pat, 0)
  }

  function IndexFrom(s: string, pat: string, from: nat): (i: int)
    ensures i == -1 || from <= i <= |s| - |pat|
    decreases |s| - from
  {
    if from + |pat| > |s| then -1
    else if s[from..from + |pat|] == pat then from
    else IndexFrom(s, pat, from + 1)
  }

  lemma {:induction false} IndexFromFirst(s: string, pat: string, from: nat)
    ensures var i := IndexFrom(s, pat, from);
            && (i >= 0 ==> OccursAt(s, pat, i))
            && (forall k :: from <= k && OccursAt(s, pat, k) ==> 0 <= i <= k)
    decreases |s| - from
  {
    if from + |pat| <= |s| && s[from..from + |pat|] != pat {
      IndexFromFirst(s, pat, from + 1);
    }
  }

  lemma IndexFirst(s: string, pat: string)
    ensures Index(s, pat) >= 0 ==> OccursAt(s, pat, Index(s, pat))
    ensures forall k :: OccursAt(s, pat, k) ==> 0 <= Index(s, pat) <= k
  {
    IndexFromFirst(s, pat, 0);
  }

  lemma IndexIs(s: string, pat: string, i: nat)
    requires OccursAt(s, pat, i)
    requires forall k :: 0 <= k < i ==> !OccursAt(s, pat, k)
    ensures Index(s, pat) == i
  {
    IndexFirst(s, pat);
  }

  lemma OccurringChar(s: string, pat: string, k: nat, j: nat)
    requires OccursAt(s, pat, k) && j < |pat|
    ensures s[k + j] == pat[j]
  {
    assert s[k..k + |pat|][j] == s[k + j];
  }

  lemma NotAt<T>(s: seq<T>, x: T, j: nat)
    requires x !in s && j < |s|
    ensures s[j] != x
  {
  }
}
