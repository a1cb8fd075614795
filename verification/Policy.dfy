/** The Bash branch of Evaluate and its glob matcher (internal/agent/policy.go). Strings are their
    sequences of bytes here, one character per byte. */
module Policy {

  // ----- the language of a pattern -----

  function Stars(pattern: string): nat {
    if pattern == [] then 0 else (if pattern[0] == '*' then 1 else 0) + Stars(pattern[1..])
  }

  /** The pattern with its stars replaced, one after the other, by the gaps. */
  function Fill(pattern: string, gaps: seq<string>): string
    requires |gaps| == Stars(pattern)
  {
    if pattern == [] then ""
    else if pattern[0] == '*' then gaps[0] + Fill(pattern[1..], gaps[1..])
    else [pattern[0]] + Fill(pattern[1..], gaps)
  }

  ghost predicate Fits(pattern: string, s: string, gaps: seq<string>) {
    |gaps| == Stars(pattern) && Fill(pattern, gaps) == s
  }

  /** s is the pattern with something in the place of each star. */
  ghost predicate InGlob(pattern: string, s: string) {
    exists gaps :: Fits(pattern, s, gaps)
  }

  lemma EmptyPattern(s: string)
    ensures InGlob("", s) <==> s == ""
  {
    if s == "" {
      assert Fits("", s, []);
    }
  }

  lemma LetterPattern(pattern: string, s: string)
    requires pattern != [] && pattern[0] != '*'
    ensures InGlob(pattern, s) <==> s != [] && s[0] == pattern[0] && InGlob(pattern[1..], s[1..])
  {
    if InGlob(pattern, s) {
      var gaps :| Fits(pattern, s, gaps);
      assert s[1..] == Fill(pattern[1..], gaps);
      assert Fits(pattern[1..], s[1..], gaps);
    }
    if s != [] && s[0] == pattern[0] && InGlob(pattern[1..], s[1..]) {
      var gaps :| Fits(pattern[1..], s[1..], gaps);
      assert s == [s[0]] + s[1..];
      assert Fits(pattern, s, gaps);
    }
  }

  lemma StarPattern(pattern: string, s: string)
    requires pattern != [] && pattern[0] == '*'
    ensures InGlob(pattern, s) <==> exists i :: 0 <= i <= |s| && InGlob(pattern[1..], s[i..])
  {
    if InGlob(pattern, s) {
      var gaps :| Fits(pattern, s, gaps);
      assert s[|gaps[0]|..] == Fill(pattern[1..], gaps[1..]);
      assert Fits(pattern[1..], s[|gaps[0]|..], gaps[1..]);
    }
    if exists i :: 0 <= i <= |s| && InGlob(pattern[1..], s[i..]) {
      var i :| 0 <= i <= |s| && InGlob(pattern[1..], s[i..]);
      StarTakes(pattern, s, i);
    }
  }

  lemma StarTakes(pattern: string, s: string, i: nat)
    requires pattern != [] && pattern[0] == '*' && i <= |s| && InGlob(pattern[1..], s[i..])
    ensures InGlob(pattern, s)
  {
    var gaps :| Fits(pattern[1..], s[i..], gaps);
    var all := [s[..i]] + gaps;
    assert all[1..] == gaps;
    assert s == s[..i] + s[i..];
    assert Fits(pattern, s, all);
  }

  /** A lone star matches every string. */
  lemma StarMatchesAll(s: string)
    ensures InGlob("*", s)
  {
    assert "*"[1..] == "";
    EmptyPattern(s[|s|..]);
    StarTakes("*", s, |s|);
  }

  /** A pattern without stars matches itself only. */
  lemma {:induction false} StarFreeMatchesItself(pattern: string, s: string)
    requires '*' !in pattern
    ensures InGlob(pattern, s) <==> s == pattern
  {
    if pattern == [] {
      EmptyPattern(s);
    } else {
      LetterPattern(pattern, s);
      if s != [] {
        StarFreeMatchesItself(pattern[1..], s[1..]);
        assert s == [s[0]] + s[1..] && pattern == [pattern[0]] + pattern[1..];
      }
    }
  }

  /** Two patterns in a row match exactly the strings that split into a match of each. */
  lemma {:induction false} ConcatMatchesSplit(p: string, q: string, s: string)
    ensures InGlob(p + q, s) <==> exists k :: 0 <= k <= |s| && InGlob(p, s[..k]) && InGlob(q, s[k..])
    decreases |p|
  {
    if InGlob(p + q, s) {
      var gaps :| Fits(p + q, s, gaps);
      StarsConcat(p, q);
      FillConcat(p, q, gaps[..Stars(p)], gaps[Stars(p)..]);
      assert gaps == gaps[..Stars(p)] + gaps[Stars(p)..];
      var k := |Fill(p, gaps[..Stars(p)])|;
      assert Fits(p, s[..k], gaps[..Stars(p)]) && Fits(q, s[k..], gaps[Stars(p)..]);
    }
    if exists k :: 0 <= k <= |s| && InGlob(p, s[..k]) && InGlob(q, s[k..]) {
      var k :| 0 <= k <= |s| && InGlob(p, s[..k]) && InGlob(q, s[k..]);
      var a :| Fits(p, s[..k], a);
      var b :| Fits(q, s[k..], b);
      StarsConcat(p, q);
      FillConcat(p, q, a, b);
      assert s == s[..k] + s[k..];
      assert Fits(p + q, s, a + b);
    }
  }

  lemma {:induction false} StarsConcat(p: string, q: string)
    ensures Stars(p + q) == Stars(p) + Stars(q)
  {
    if p == [] {
      assert p + q == q;
    } else {
      assert (p + q)[1..] == p[1..] + q;
      StarsConcat(p[1..], q);
    }
  }

  lemma {:induction false} FillConcat(p: string, q: string, a: seq<string>, b: seq<string>)
    requires |a| == Stars(p) && |b| == Stars(q)
    ensures Stars(p + q) == |a + b|
    ensures Fill(p + q, a + b) == Fill(p, a) + Fill(q, b)
    decreases |p|
  {
    StarsConcat(p, q);
    if p == [] {
      assert p + q == q && a + b == b;
    } else {
      assert (p + q)[1..] == p[1..] + q;
      if p[0] == '*' {
        assert (a + b)[1..] == a[1..] + b;
        FillConcat(p[1..], q, a[1..], b);
      } else {
        FillConcat(p[1..], q, a, b);
      }
    }
  }

  /** The backtracking matcher decides membership. */
  method MatchGlob(pattern0: string, s0: string) returns (matched: bool)
    ensures matched <==> InGlob(pattern0, s0)
    decreases |pattern0|
  {
    var pattern, s := pattern0, s0;
    while |pattern| > 0
      invariant |pattern| <= |pattern0|
      invariant InGlob(pattern0, s0) <==> InGlob(pattern, s)
      decreases |pattern|
    {
      if pattern[0] == '*' {
        StarPattern(pattern, s);
        pattern := pattern[1..];
        if |pattern| == 0 {
          EmptyPattern(s[|s|..]);
          return true;
        }
        for i := 0 to |s| + 1
          invariant forall k :: 0 <= k < i ==> !InGlob(pattern, s[k..])
        {
          var rest := MatchGlob(pattern, s[i..]);
          if rest {
            return true;
          }
        }
        return false;
      }
      LetterPattern(pattern, s);
      if |s| == 0 || s[0] != pattern[0] {
        return false;
      }
      pattern, s := pattern[1..], s[1..];
    }
    EmptyPattern(s);
    matched := |s| == 0;
  }

  // ----- the decision on a Bash command -----

  datatype Rule = Denylisted(pattern: string) | NotAllowlisted | Permitted

  ghost predicate AnyMatches(patterns: seq<string>, command: string) {
    exists i :: 0 <= i < |patterns| && InGlob(patterns[i], command)
  }

  /** No deny pattern matches, and the allowlist is empty or one of its patterns does. */
  ghost predicate Allows(denylist: seq<string>, allowlist: seq<string>, command: string) {
    !AnyMatches(denylist, command) && (allowlist == [] || AnyMatches(allowlist, command))
  }

  method FirstMatch(patterns: seq<string>, command: string) returns (i: nat)
    ensures i <= |patterns|
    ensures forall k :: 0 <= k < i ==> !InGlob(patterns[k], command)
    ensures i < |patterns| ==> InGlob(patterns[i], command)
  {
    i := 0;
    while i < |patterns|
      invariant i <= |patterns|
      invariant forall k :: 0 <= k < i ==> !InGlob(patterns[k], command)
    {
      var matched := MatchGlob(patterns[i], command);
      if matched {
        return;
      }
      i := i + 1;
    }
  }

  method EvaluateBash(denylist: seq<string>, allowlist: seq<string>, command: string) returns (rule: Rule)
    ensures rule.Permitted? <==> Allows(denylist, allowlist, command)
    ensures rule.Denylisted? <==> AnyMatches(denylist, command)
    ensures rule.Denylisted? ==>
      exists i :: 0 <= i < |denylist| && denylist[i] == rule.pattern && InGlob(denylist[i], command)
                  && forall k :: 0 <= k < i ==> !InGlob(denylist[k], command)
  {
    var denied := FirstMatch(denylist, command);
    if denied < |denylist| {
      return Denylisted(denylist[denied]);
    }
    if |allowlist| > 0 {
      var allowed := FirstMatch(allowlist, command);
      if allowed == |allowlist| {
        return NotAllowlisted;
      }
    }
    rule := Permitted;
  }

  lemma MoreMatch(patterns: seq<string>, more: seq<string>, command: string)
    ensures AnyMatches(patterns + more, command) <==> AnyMatches(patterns, command) || AnyMatches(more, command)
  {
    if AnyMatches(patterns, command) {
      var i :| 0 <= i < |patterns| && InGlob(patterns[i], command);
      assert (patterns + more)[i] == patterns[i];
    }
    if AnyMatches(more, command) {
      var i :| 0 <= i < |more| && InGlob(more[i], command);
      assert (patterns + more)[|patterns| + i] == more[i];
    }
  }

  /** More deny patterns forbid exactly what they match in addition, and never permit anything. */
  lemma DenyingMore(denylist: seq<string>, more: seq<string>, allowlist: seq<string>, command: string)
    ensures Allows(denylist + more, allowlist, command)
            <==> Allows(denylist, allowlist, command) && !AnyMatches(more, command)
  {
    MoreMatch(denylist, more, command);
  }

  /** More allow patterns permit more, unless the list was empty: then they are the first restriction. */
  lemma AllowingMore(denylist: seq<string>, allowlist: seq<string>, more: seq<string>, command: string)
    requires more != []
    ensures allowlist != [] ==>
      (Allows(denylist, allowlist + more, command)
       <==> Allows(denylist, allowlist, command) || Allows(denylist, more, command))
    ensures allowlist == [] ==>
      (Allows(denylist, allowlist + more, command)
       <==> Allows(denylist, allowlist, command) && AnyMatches(more, command))
  {
    MoreMatch(allowlist, more, command);
    assert allowlist == [] ==> allowlist + more == more;
  }
}
