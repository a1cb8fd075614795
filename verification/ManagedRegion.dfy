/** The machine-managed region of a generated file (internal/directives/write.go), as a lens:
    a file with both markers is exactly what stands before the region, the region, and what
    stands behind it, and merging replaces the middle one. */
module ManagedRegion {
  import opened Results
  import opened Text

  /** The strings that delimit the region. */
  datatype Markers = Markers(start: string, end: string)

  const GEN_NAME := "!-- kaos-control:generated:"
  const GEN_START := "<" + GEN_NAME + "start -->"
  const GEN_END := "<" + GEN_NAME + "end -->"
  const MARKERS := Markers(GEN_START, GEN_END)

  datatype MergeError = NoStartMarker | NoEndMarker

  // ----- the code's functions, for any pair of markers -----

  predicate HasMarkers(m: Markers, b: string) {
    var start := Index(b, m.start);
    start >= 0 && Index(b[start..], m.end) >= 0
  }

  /** Everything up to and including the first start marker. */
  function Before(m: Markers, b: string): string
    requires Index(b, m.start) >= 0
  {
    b[..Index(b, m.start) + |m.start|]
  }

  /** What follows the first start marker. */
  function Tail(m: Markers, b: string): string
    requires Index(b, m.start) >= 0
  {
    b[Index(b, m.start) + |m.start|..]
  }

  function MergeManaged(m: Markers, existing: string, body: string): Result<string, MergeError> {
    if !HasMarkers(m, existing) then Ok(body)
    else
      var end := Index(Tail(m, existing), m.end);
      if end < 0 then Ok(body)
      else if Index(body, m.start) < 0 then Err(NoStartMarker)
      else
        var bodyEnd := Index(Tail(m, body), m.end);
        if bodyEnd < 0 then Err(NoEndMarker)
        else Ok(Before(m, existing) + Tail(m, body)[..bodyEnd] + Tail(m, existing)[end..])
  }

  // ----- before, region, behind -----

  /** Neither marker can begin inside the other or inside itself, nor can they share a beginning. */
  predicate Apart(m: Markers) {
    && m.start != "" && m.end != ""
    && m.end[0] !in m.start[1..] && m.end[0] !in m.end[1..]
    && !(m.end <= m.start) && !(m.start <= m.end)
    && '\n' !in m.start && '\n' !in m.end
  }

  /** Ends in the start marker, and holds it nowhere else. */
  predicate IsBefore(m: Markers, s: string) {
    |s| >= |m.start| && Index(s, m.start) == |s| - |m.start|
  }

  predicate IsRegion(m: Markers, s: string) {
    Index(s, m.end) == -1
  }

  predicate IsBehind(m: Markers, s: string) {
    m.end <= s
  }

  function Region(m: Markers, b: string): string
    requires Apart(m) && HasMarkers(m, b)
  {
    EndFollowsStart(m, b);
    Tail(m, b)[..Index(Tail(m, b), m.end)]
  }

  function Behind(m: Markers, b: string): string
    requires Apart(m) && HasMarkers(m, b)
  {
    EndFollowsStart(m, b);
    Tail(m, b)[Index(Tail(m, b), m.end)..]
  }

  /** An end marker at or after a start marker lies wholly after it, so the search from behind the
      start marker cannot fail once the search from its beginning succeeded. */
  lemma EndFollowsStart(m: Markers, b: string)
    requires Apart(m) && Index(b, m.start) >= 0
    ensures HasMarkers(m, b) <==> Index(b[Index(b, m.start) + |m.start|..], m.end) >= 0
  {
    var i := Index(b, m.start);
    IndexFirst(b, m.start);
    var s := b[i..];
    assert m.start <= s by {
      assert s[..|m.start|] == b[i..i + |m.start|];
    }
    EndBehindPrefix(m, s);
    assert s[|m.start|..] == b[i + |m.start|..];
  }

  lemma EndBehindPrefix(m: Markers, s: string)
    requires Apart(m) && m.start <= s
    ensures Index(s, m.end) >= 0 <==> Index(s[|m.start|..], m.end) >= 0
  {
    if Index(s, m.end) >= 0 {
      EndBehind(m, s);
    }
    if Index(s[|m.start|..], m.end) >= 0 {
      EndStillFound(s, m.end, |m.start|);
    }
  }

  lemma EndBehind(m: Markers, s: string)
    requires Apart(m) && m.start <= s && Index(s, m.end) >= 0
    ensures Index(s[|m.start|..], m.end) >= 0
  {
    var k := Index(s, m.end);
    IndexFirst(s, m.end);
    if k < |m.start| {
      EndNotInsideStart(m, s, k);
      assert false;
    }
    OccursShift(s, m.end, |m.start|, k);
    IndexFirst(s[|m.start|..], m.end);
  }

  lemma EndStillFound(s: string, pat: string, from: nat)
    requires from <= |s| && Index(s[from..], pat) >= 0
    ensures Index(s, pat) >= 0
  {
    var k := Index(s[from..], pat);
    IndexFirst(s[from..], pat);
    assert s[from + k..from + k + |pat|] == s[from..][k..k + |pat|];
    assert OccursAt(s, pat, from + k);
    IndexFirst(s, pat);
  }

  lemma EndNotInsideStart(m: Markers, s: string, k: nat)
    requires Apart(m) && m.start <= s && k < |m.start|
    ensures !OccursAt(s, m.end, k)
  {
    if k > 0 {
      assert s[k] == m.start[k] == m.start[1..][k - 1];
      assert k + |m.end| <= |s| ==> s[k..k + |m.end|][0] == s[k];
    } else {
      assert OccursAt(s, m.end, 0) ==> m.end <= s;
      assert m.end <= s ==> m.end <= m.start || m.start <= m.end by {
        if m.end <= s {
          PrefixesCompare(m.end, m.start, s);
        }
      }
    }
  }

  lemma PrefixesCompare(a: string, b: string, s: string)
    requires a <= s && b <= s
    ensures a <= b || b <= a
  {
    assert a == s[..|a|] && b == s[..|b|];
    if |a| <= |b| {
      assert a == b[..|a|];
    } else {
      assert b == a[..|b|];
    }
  }

  lemma OccursShift(s: string, pat: string, from: nat, k: int)
    requires from <= k && OccursAt(s, pat, k)
    ensures OccursAt(s[from..], pat, k - from)
  {
    assert s[from..][k - from..k - from + |pat|] == s[k..k + |pat|];
  }

  lemma OccursPrefix(s: string, t: string, pat: string, k: int)
    requires 0 <= k && k + |pat| <= |s|
    ensures OccursAt(s + t, pat, k) <==> OccursAt(s, pat, k)
  {
    assert (s + t)[k..k + |pat|] == s[k..k + |pat|];
  }

  // ----- the three parts -----

  /** Text that ends in the start marker, text without an end marker, and text that starts with the
      end marker make a file whose parts are exactly these. */
  lemma Assemble(m: Markers, before: string, region: string, behind: string)
    requires Apart(m) && IsBefore(m, before) && IsRegion(m, region) && IsBehind(m, behind)
    ensures var b := before + region + behind;
            HasMarkers(m, b) && Before(m, b) == before && Region(m, b) == region && Behind(m, b) == behind
  {
    var b := before + region + behind;
    var tail := region + behind;
    Cuts(before, region, behind);
    FirstStart(m, before, tail);
    FirstEnd(m, region, behind);
    EndFollowsStart(m, b);
  }

  lemma Cuts(before: string, region: string, behind: string)
    ensures var b, tail := before + region + behind, region + behind;
            && b == before + tail && b[..|before|] == before && b[|before|..] == tail
            && tail[..|region|] == region && tail[|region|..] == behind
  {
  }

  lemma FirstStart(m: Markers, before: string, tail: string)
    requires IsBefore(m, before)
    ensures Index(before + tail, m.start) == |before| - |m.start|
  {
    var i := |before| - |m.start|;
    IndexFirst(before, m.start);
    OccursPrefix(before, tail, m.start, i);
    forall k | 0 <= k < i
      ensures !OccursAt(before + tail, m.start, k)
    {
      OccursPrefix(before, tail, m.start, k);
    }
    IndexIs(before + tail, m.start, i);
  }

  lemma FirstEnd(m: Markers, region: string, behind: string)
    requires Apart(m) && IsRegion(m, region) && IsBehind(m, behind)
    ensures Index(region + behind, m.end) == |region|
  {
    var s := region + behind;
    IndexFirst(region, m.end);
    assert OccursAt(s, m.end, |region|) by {
      assert s[|region|..|region| + |m.end|] == behind[..|m.end|] == m.end;
    }
    forall k | 0 <= k < |region|
      ensures !OccursAt(s, m.end, k)
    {
      if k + |m.end| <= |region| {
        OccursPrefix(region, behind, m.end, k);
      } else {
        assert s[|region|] == behind[0] == m.end[0];
        assert s[k..k + |m.end|][|region| - k] == s[|region|];
        assert m.end[|region| - k] == m.end[1..][|region| - k - 1];
      }
    }
    IndexIs(s, m.end, |region|);
  }

  lemma BeforeEndsInStart(m: Markers, b: string)
    requires HasMarkers(m, b)
    ensures IsBefore(m, Before(m, b))
  {
    var before, tail := Before(m, b), b[|Before(m, b)|..];
    var i := Index(b, m.start);
    assert b == before + tail;
    IndexFirst(b, m.start);
    OccursPrefix(before, tail, m.start, i);
    forall k | 0 <= k < i
      ensures !OccursAt(before, m.start, k)
    {
      OccursPrefix(before, tail, m.start, k);
    }
    IndexIs(before, m.start, i);
  }

  lemma NoOccurrenceBeforeFirst(s: string, pat: string, e: nat)
    requires pat != "" && Index(s, pat) == e
    ensures Index(s[..e], pat) == -1
    ensures pat <= s[e..]
  {
    IndexFirst(s, pat);
    IndexFirst(s[..e], pat);
    assert s == s[..e] + s[e..];
    assert s[e..][..|pat|] == s[e..e + |pat|];
    if Index(s[..e], pat) >= 0 {
      OccursPrefix(s[..e], s[e..], pat, Index(s[..e], pat));
      assert false;
    }
  }

  /** Every file with both markers is assembled from its parts. */
  lemma Parts(m: Markers, b: string)
    requires Apart(m) && HasMarkers(m, b)
    ensures IsBefore(m, Before(m, b)) && IsRegion(m, Region(m, b)) && IsBehind(m, Behind(m, b))
    ensures b == Before(m, b) + Region(m, b) + Behind(m, b)
  {
    BeforeEndsInStart(m, b);
    EndFollowsStart(m, b);
    var tail := Tail(m, b);
    var e := Index(tail, m.end);
    NoOccurrenceBeforeFirst(tail, m.end, e);
    CutTwice(b, tail, |Before(m, b)|, e);
  }

  lemma CutTwice(b: string, tail: string, k: nat, e: nat)
    requires k + e <= |b| && tail == b[k..]
    ensures b == b[..k] + tail[..e] + tail[e..]
  {
  }

  /** What the code splices together are these parts. */
  lemma MergeSplices(m: Markers, existing: string, body: string)
    requires Apart(m) && HasMarkers(m, existing) && HasMarkers(m, body)
    ensures MergeManaged(m, existing, body) == Ok(Before(m, existing) + Region(m, body) + Behind(m, existing))
  {
    EndFollowsStart(m, existing);
    EndFollowsStart(m, body);
  }

  // ----- the laws -----

  /** Merging into a file with markers keeps what stands around its region and takes over the body's region. */
  lemma MergePutsRegion(m: Markers, existing: string, body: string)
    requires Apart(m) && HasMarkers(m, existing) && HasMarkers(m, body)
    ensures var merged := MergeManaged(m, existing, body);
            && merged == Ok(Before(m, existing) + Region(m, body) + Behind(m, existing))
            && HasMarkers(m, merged.value)
            && Before(m, merged.value) == Before(m, existing)
            && Region(m, merged.value) == Region(m, body)
            && Behind(m, merged.value) == Behind(m, existing)
  {
    MergeSplices(m, existing, body);
    Parts(m, existing);
    Parts(m, body);
    Assemble(m, Before(m, existing), Region(m, body), Behind(m, existing));
  }

  /** The same three parts make the same file, and no other parts do. */
  lemma SameParts(m: Markers, a: string, b: string)
    requires Apart(m) && HasMarkers(m, a) && HasMarkers(m, b)
    ensures a == b <==> Before(m, a) == Before(m, b) && Region(m, a) == Region(m, b) && Behind(m, a) == Behind(m, b)
  {
    Parts(m, a);
    Parts(m, b);
  }

  /** Merging fails exactly when there is a region to replace and the body has none. */
  lemma MergeFails(m: Markers, existing: string, body: string)
    requires Apart(m)
    ensures MergeManaged(m, existing, body).Err? <==> HasMarkers(m, existing) && !HasMarkers(m, body)
  {
    if HasMarkers(m, existing) {
      EndFollowsStart(m, existing);
      assert Index(Tail(m, existing), m.end) >= 0;
      if Index(body, m.start) >= 0 {
        EndFollowsStart(m, body);
        assert HasMarkers(m, body) <==> Index(Tail(m, body), m.end) >= 0;
      }
    }
  }

  /** Merging a file's own region back, in whatever wrapping, changes nothing. */
  lemma GetPut(m: Markers, existing: string, body: string)
    requires Apart(m) && HasMarkers(m, existing) && HasMarkers(m, body)
    ensures MergeManaged(m, existing, body) == Ok(existing) <==> Region(m, body) == Region(m, existing)
  {
    MergePutsRegion(m, existing, body);
    SameParts(m, MergeManaged(m, existing, body).value, existing);
  }

  /** Merging the same body twice is merging it once, whether or not the file had markers. */
  lemma MergeTwice(m: Markers, existing: string, body: string)
    requires Apart(m) && HasMarkers(m, body)
    ensures var merged := MergeManaged(m, existing, body);
            merged.Ok? && HasMarkers(m, merged.value) && MergeManaged(m, merged.value, body) == merged
  {
    if HasMarkers(m, existing) {
      MergePutsRegion(m, existing, body);
      GetPut(m, MergeManaged(m, existing, body).value, body);
    } else {
      GetPut(m, body, body);
    }
  }

  /** The last merge wins: an earlier one leaves no trace, exactly when the file had markers or the
      two bodies agree around their regions. */
  lemma LastMergeWins(m: Markers, existing: string, first: string, second: string)
    requires Apart(m) && HasMarkers(m, first) && HasMarkers(m, second)
    ensures var once := MergeManaged(m, existing, first);
            && once.Ok?
            && (MergeManaged(m, once.value, second) == MergeManaged(m, existing, second)
                <==> HasMarkers(m, existing)
                     || (Before(m, first) == Before(m, second) && Behind(m, first) == Behind(m, second)))
  {
    if HasMarkers(m, existing) {
      MergePutsRegion(m, existing, first);
      var once := MergeManaged(m, existing, first).value;
      MergePutsRegion(m, existing, second);
      MergePutsRegion(m, once, second);
    } else {
      MergePutsRegion(m, first, second);
      SameParts(m, MergeManaged(m, first, second).value, second);
    }
  }

  /** The shipped markers meet the conditions of all laws above. */
  lemma ShippedMarkersApart()
    ensures Apart(MARKERS)
  {
    NameIsPlain(GEN_NAME);
    EndingsArePlain("start -->", "end -->");
    BuiltApart("<", GEN_NAME, "start -->", "end -->");
  }

  /** No bracket that opens a marker, and no line break. */
  predicate IsPlain(s: string) {
    '<' !in s && '\n' !in s
  }

  lemma NameIsPlain(name: string)
    requires name == "!-- kaos-control:generated:"
    ensures IsPlain(name)
  {
  }

  lemma EndingsArePlain(start: string, end: string)
    requires start == "start -->" && end == "end -->"
    ensures IsPlain(start) && IsPlain(end) && start[0] != end[0]
  {
  }

  /** Markers that start with the same bracket and name, and whose endings start differently. */
  lemma BuiltApart(open: string, name: string, start: string, end: string)
    requires open == "<" && IsPlain(name) && IsPlain(start) && IsPlain(end)
    requires start != "" && end != "" && start[0] != end[0]
    ensures Apart(Markers(open + name + start, open + name + end))
  {
    var a, b := open + name + start, open + name + end;
    assert a[1..] == name + start && b[1..] == name + end;
    assert a[|name| + 1] == start[0] && b[|name| + 1] == end[0];
    assert b[0] == '<';
  }

  lemma ShippedMarkersAre(start: string, end: string)
    requires start == "<!-- kaos-control:generated:start -->" && end == "<!-- kaos-control:generated:end -->"
    ensures MARKERS == Markers(start, end)
  {
  }
}
