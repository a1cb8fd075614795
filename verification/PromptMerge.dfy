/** mergeCommandBlock and renderManagedClause of internal/directives/config_patch.go. */
module PromptMerge {
  import opened Results
  import opened Text
  import opened ManagedRegion

  predicate IsBreak(c: char) {
    c == '\n'
  }

  /** strings.TrimRight(s, "\n") */
  function TrimBreaks(s: string): string {
    DropTrailing(s, IsBreak)
  }

  function RenderClause(m: Markers, clause: string, commands: string): string {
    m.start + Inner(clause, commands) + m.end
  }

  function Inner(clause: string, commands: string): string {
    "\n" + clause + (if commands != "" then "\n\n" + commands else "") + "\n"
  }

  function Appended(prompt: string, block: string): string {
    TrimBreaks(prompt) + "\n\n" + block + "\n"
  }

  /** The block in the prompt's region, or behind the prompt if it has none. */
  function MergeBlock(m: Markers, prompt: string, block: string): string {
    if HasMarkers(m, prompt) && MergeManaged(m, prompt, block).Ok?
    then MergeManaged(m, prompt, block).value
    else Appended(prompt, block)
  }

  // ----- a rendered clause is a block -----

  /** A block begins with the start marker and has a region. */
  predicate IsBlock(m: Markers, block: string) {
    m.start <= block && HasMarkers(m, block)
  }

  lemma StartsAtZero(m: Markers, s: string)
    requires m.start <= s
    ensures Index(s, m.start) == 0
  {
    assert s[0..|m.start|] == m.start;
    IndexIs(s, m.start, 0);
  }

  lemma RenderedIsBlock(m: Markers, clause: string, commands: string)
    requires Apart(m)
    ensures IsBlock(m, RenderClause(m, clause, commands))
  {
    WrappedIsBlock(m, Inner(clause, commands));
  }

  lemma WrappedIsBlock(m: Markers, inner: string)
    requires Apart(m)
    ensures IsBlock(m, m.start + inner + m.end)
  {
    var block := m.start + inner + m.end;
    StartsAtZero(m, block);
    var k := |m.start + inner|;
    assert block[k..k + |m.end|] == m.end;
    assert OccursAt(block, m.end, k);
    IndexFirst(block, m.end);
    assert block[0..] == block;
  }

  /** The parts of a block: nothing before its start marker. */
  lemma BlockParts(m: Markers, block: string)
    requires Apart(m) && IsBlock(m, block)
    ensures Before(m, block) == m.start
    ensures block == m.start + Region(m, block) + Behind(m, block)
    ensures IsRegion(m, Region(m, block)) && IsBehind(m, Behind(m, block))
  {
    StartsAtZero(m, block);
    Parts(m, block);
  }

  // ----- markers do not cross line breaks -----

  lemma NoCrossing(a: string, b: string, pat: string, k: nat)
    requires '\n' !in pat && OccursAt(a + "\n" + b, pat, k)
    ensures k + |pat| <= |a| || k > |a|
  {
    var s := a + "\n" + b;
    if k <= |a| < k + |pat| {
      NotAt(pat, '\n', |a| - k);
      OccurringChar(s, pat, k, |a| - k);
      assert false;
    }
  }

  lemma OccursInLine(a: string, b: string, pat: string, k: nat)
    requires '\n' !in pat && OccursAt(a + "\n" + b, pat, k)
    ensures OccursAt(a, pat, k) || OccursAt(b, pat, k - |a| - 1)
  {
    var s := a + "\n" + b;
    NoCrossing(a, b, pat, k);
    if k + |pat| <= |a| {
      assert a[k..k + |pat|] == s[k..k + |pat|];
    } else {
      assert b[k - |a| - 1..k - |a| - 1 + |pat|] == s[k..k + |pat|];
    }
  }

  /** A pattern without line breaks occurs in lines only. */
  lemma BreakSplits(a: string, b: string, pat: string)
    requires '\n' !in pat && Index(a, pat) == -1 && Index(b, pat) == -1
    ensures Index(a + "\n" + b, pat) == -1
  {
    var s := a + "\n" + b;
    IndexFirst(s, pat);
    if Index(s, pat) >= 0 {
      OccursInLine(a, b, pat, Index(s, pat));
      IndexFirst(a, pat);
      IndexFirst(b, pat);
      assert false;
    }
  }

  lemma OccursInLonger(a: string, b: string, pat: string, k: int)
    requires OccursAt(a, pat, k)
    ensures OccursAt(a + b, pat, k)
  {
    assert (a + b)[k..k + |pat|] == a[k..k + |pat|];
  }

  lemma PrefixHasNone(a: string, b: string, pat: string)
    requires Index(a + b, pat) == -1
    ensures Index(a, pat) == -1
  {
    IndexFirst(a, pat);
    if Index(a, pat) >= 0 {
      OccursInLonger(a, b, pat, Index(a, pat));
      IndexFirst(a + b, pat);
      assert false;
    }
  }

  // ----- the laws -----

  lemma TrimsPrefix(prompt: string)
    ensures TrimBreaks(prompt) <= prompt
    ensures forall k :: |TrimBreaks(prompt)| <= k < |prompt| ==> prompt[k] == '\n'
  {
    var t := TrimBreaks(prompt);
    forall k | |t| <= k < |prompt|
      ensures prompt[k] == '\n'
    {
      assert IsBreak(prompt[k]);
    }
  }

  lemma AppendedSplits(m: Markers, prompt: string, block: string)
    requires Apart(m) && IsBlock(m, block)
    ensures var t := TrimBreaks(prompt);
            Appended(prompt, block) == (t + "\n\n" + m.start) + Region(m, block) + (Behind(m, block) + "\n")
  {
    BlockParts(m, block);
    var t := TrimBreaks(prompt);
    assert t + "\n\n" + (m.start + Region(m, block) + Behind(m, block)) + "\n"
        == (t + "\n\n" + m.start) + Region(m, block) + (Behind(m, block) + "\n");
  }

  lemma StillBehind(m: Markers, behind: string)
    requires IsBehind(m, behind)
    ensures IsBehind(m, behind + "\n")
  {
  }

  /** Without a start marker in front, the appended block's own is the first. */
  lemma FirstIsOwn(m: Markers, t: string)
    requires Apart(m) && Index(t, m.start) == -1
    ensures IsBefore(m, t + "\n\n" + m.start)
  {
    var s := t + "\n\n" + m.start;
    var i := |t| + 2;
    assert s[i..i + |m.start|] == m.start;
    forall k | 0 <= k < i
      ensures !OccursAt(s, m.start, k)
    {
      NoneEarlier(m, t, k);
    }
    IndexIs(s, m.start, i);
  }

  lemma NoneEarlier(m: Markers, t: string, k: nat)
    requires Apart(m) && Index(t, m.start) == -1 && k < |t| + 2
    ensures !OccursAt(t + "\n\n" + m.start, m.start, k)
  {
    var rest := "\n" + m.start;
    var s := t + "\n" + rest;
    assert t + "\n\n" + m.start == s;
    assert s == t + ("\n" + rest);
    if OccursAt(s, m.start, k) {
      NoCrossing(t, rest, m.start, k);
      if k > |t| {
        NotAt(m.start, '\n', 0);
        OccurringChar(s, m.start, k, 0);
        assert false;
      }
      IndexFirst(t, m.start);
      OccursPrefix(t, "\n" + rest, m.start, k);
      assert false;
    }
  }

  /** Appended behind a prompt without a start marker, the block's region is the prompt's region. */
  lemma AppendCloses(m: Markers, prompt: string, block: string)
    requires Apart(m) && IsBlock(m, block) && Index(prompt, m.start) == -1
    ensures var out := Appended(prompt, block);
            HasMarkers(m, out) && Region(m, out) == Region(m, block)
  {
    var t := TrimBreaks(prompt);
    assert prompt == t + prompt[|t|..];
    PrefixHasNone(t, prompt[|t|..], m.start);
    FirstIsOwn(m, t);
    BlockParts(m, block);
    StillBehind(m, Behind(m, block));
    AppendedSplits(m, prompt, block);
    Assemble(m, t + "\n\n" + m.start, Region(m, block), Behind(m, block) + "\n");
  }

  /** An open start marker in the prompt swallows everything up to the block's end marker. */
  lemma AppendSwallows(m: Markers, prompt: string, block: string)
    requires Apart(m) && IsBlock(m, block) && Index(prompt, m.start) >= 0 && !HasMarkers(m, prompt)
    ensures var out := Appended(prompt, block);
            HasMarkers(m, out) && |Region(m, out)| > |Region(m, block)|
  {
    var t := TrimBreaks(prompt);
    var before, open := OpenPart(m, prompt);
    BlockParts(m, block);
    AppendedSplits(m, prompt, block);
    StillBehind(m, Behind(m, block));
    var region := open + "\n" + ("\n" + (m.start + Region(m, block)));
    OpenRegion(m, open, Region(m, block));
    Regroup(before, open, m.start, Region(m, block), Behind(m, block) + "\n");
    Assemble(m, before, region, Behind(m, block) + "\n");
  }

  lemma Regroup(before: string, open: string, start: string, region: string, behind: string)
    ensures (before + open + "\n\n" + start) + region + behind
         == before + (open + "\n" + ("\n" + (start + region))) + behind
  {
    assert before + open + "\n\n" + start + region == before + (open + "\n" + ("\n" + (start + region)));
  }

  /** The start marker does not reach into the trailing line breaks. */
  lemma StartIsKept(m: Markers, prompt: string)
    requires Apart(m) && Index(prompt, m.start) >= 0
    ensures Index(prompt, m.start) + |m.start| <= |TrimBreaks(prompt)|
  {
    var i := Index(prompt, m.start);
    var n := i + |m.start|;
    IndexFirst(prompt, m.start);
    TrimsPrefix(prompt);
    if n > |TrimBreaks(prompt)| {
      NotAt(m.start, '\n', |m.start| - 1);
      OccurringChar(prompt, m.start, i, |m.start| - 1);
      assert false;
    }
  }

  /** The prompt, its trailing line breaks aside, up to its first start marker, and the rest, which
      holds no end marker. */
  lemma OpenPart(m: Markers, prompt: string) returns (before: string, open: string)
    requires Apart(m) && Index(prompt, m.start) >= 0 && !HasMarkers(m, prompt)
    ensures TrimBreaks(prompt) == before + open && IsBefore(m, before) && IsRegion(m, open)
  {
    var t, n := TrimBreaks(prompt), Index(prompt, m.start) + |m.start|;
    StartIsKept(m, prompt);
    before, open := t[..n], t[n..];
    EndFollowsStart(m, prompt);
    CutPrefix(prompt, t, n);
    PrefixHasNone(open, prompt[|t|..], m.end);
    FirstInPrefix(before, prompt[n..], m.start, Index(prompt, m.start));
  }

  lemma CutPrefix(s: string, t: string, n: nat)
    requires t <= s && n <= |t|
    ensures s[n..] == t[n..] + s[|t|..] && s == t[..n] + s[n..]
  {
  }

  lemma FirstInPrefix(a: string, b: string, pat: string, i: nat)
    requires Index(a + b, pat) == i && i + |pat| == |a|
    ensures Index(a, pat) == i
  {
    IndexFirst(a + b, pat);
    OccursPrefix(a, b, pat, i);
    forall k | 0 <= k < i
      ensures !OccursAt(a, pat, k)
    {
      OccursPrefix(a, b, pat, k);
    }
    IndexIs(a, pat, i);
  }

  lemma OpenRegion(m: Markers, open: string, region: string)
    requires Apart(m) && IsRegion(m, open) && IsRegion(m, region)
    ensures IsRegion(m, open + "\n" + ("\n" + (m.start + region)))
  {
    var s := m.start + region;
    assert m.start <= s && s[|m.start|..] == region;
    EndBehindPrefix(m, s);
    IndexFirst("", m.end);
    BreakSplits("", s, m.end);
    assert "" + "\n" + s == "\n" + s;
    BreakSplits(open, "\n" + s, m.end);
  }

  /** Merging the same block twice is merging it once, exactly unless the prompt has a start marker
      without a later end marker. */
  lemma MergeBlockTwice(m: Markers, prompt: string, block: string)
    requires Apart(m) && IsBlock(m, block)
    ensures var once := MergeBlock(m, prompt, block);
            MergeBlock(m, once, block) == once <==> HasMarkers(m, prompt) || Index(prompt, m.start) < 0
  {
    if HasMarkers(m, prompt) {
      MergeTwice(m, prompt, block);
      MergeFails(m, prompt, block);
    } else {
      var once := Appended(prompt, block);
      if Index(prompt, m.start) < 0 {
        AppendCloses(m, prompt, block);
      } else {
        AppendSwallows(m, prompt, block);
      }
      GetPut(m, once, block);
      MergeFails(m, once, block);
    }
  }

  /** The condition is needed: into a prompt that is just the start marker, a second merge gives
      another prompt than the first, whatever the block. */
  lemma OpenMarkerMergesTwice(prompt: string, block: string)
    requires prompt == GEN_START && IsBlock(MARKERS, block)
    ensures var once := MergeBlock(MARKERS, prompt, block); MergeBlock(MARKERS, once, block) != once
  {
    ShippedMarkersApart();
    LoneMarkerIsOpen(MARKERS);
    MergeBlockTwice(MARKERS, prompt, block);
  }

  lemma LoneMarkerIsOpen(m: Markers)
    requires Apart(m)
    ensures Index(m.start, m.start) == 0 && !HasMarkers(m, m.start)
  {
    StartsAtZero(m, m.start);
    EndFollowsStart(m, m.start);
    assert m.start[|m.start|..] == "";
  }

  /** What was written by hand stays: around an existing region everything, and without one the
      whole prompt but its trailing line breaks. */
  lemma MergeKeepsProse(m: Markers, prompt: string, block: string)
    requires Apart(m) && IsBlock(m, block)
    ensures var out := MergeBlock(m, prompt, block);
            if HasMarkers(m, prompt)
            then HasMarkers(m, out) && Before(m, out) == Before(m, prompt) && Behind(m, out) == Behind(m, prompt)
                 && Region(m, out) == Region(m, block)
            else TrimBreaks(prompt) <= out && out[|TrimBreaks(prompt)|..] == "\n\n" + block + "\n"
  {
    if HasMarkers(m, prompt) {
      MergePutsRegion(m, prompt, block);
    } else {
      assert Appended(prompt, block) == TrimBreaks(prompt) + ("\n\n" + block + "\n");
    }
  }

  /** The region of a rendered clause is the clause, then the commands, if any, each on lines of their own,
      unless one of them holds the end marker. */
  lemma RenderedReads(m: Markers, clause: string, commands: string)
    requires Apart(m)
    requires Index("\n" + clause + (if commands != "" then "\n\n" + commands else "") + "\n", m.end) == -1
    ensures RenderedBlock(m, clause, commands)
  {
    var inner := "\n" + clause + (if commands != "" then "\n\n" + commands else "") + "\n";
    StartsAtZero(m, m.start);
    EndAtZero(m);
    Assemble(m, m.start, inner, m.end);
  }

  predicate RenderedBlock(m: Markers, clause: string, commands: string)
    requires Apart(m)
  {
    var block := RenderClause(m, clause, commands);
    && HasMarkers(m, block) && Before(m, block) == m.start && Behind(m, block) == m.end
    && Region(m, block) == "\n" + clause + (if commands != "" then "\n\n" + commands else "") + "\n"
  }

  lemma EndAtZero(m: Markers)
    requires Apart(m)
    ensures IsBehind(m, m.end)
  {
  }

  /** Only line breaks at the end are trimmed. */
  lemma TrimsBreaksOnly(s: string)
    ensures TrimBreaks(s + "\n") == TrimBreaks(s)
    ensures s != "" && s[|s| - 1] != '\n' ==> TrimBreaks(s) == s
  {
    DropTrailingPast(s, "\n", IsBreak);
    if s != "" && s[|s| - 1] != '\n' {
      DropTrailingIs(s, IsBreak, |s|);
    }
  }
}
