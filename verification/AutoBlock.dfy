/** Blocking artifacts with open questions (internal/index/autoblock.go) and the file format it
    writes (stripFrontmatter of internal/artifact/artifact.go). */
module AutoBlock {
  import opened Results
  import opened Text
  import opened OpenQuestions

  // ----- frontmatter and body -----

  const FENCE := "---\n"
  const CLOSING := "\n---"

  /** The text up to the first closing fence behind the opening one; None if there is none. */
  function AfterFrontmatter(raw: string): Option<string> {
    if FENCE <= raw then AfterClosing(raw[|FENCE|..], CLOSING) else None
  }

  function AfterClosing(s: string, closing: string): Option<string> {
    var i := Index(s, closing);
    if i < 0 then None else Some(SkipBreak(s[i + |closing|..]))
  }

  function StripFrontmatter(raw: string): string {
    var body := AfterFrontmatter(raw);
    TrimSpace(if body.Some? then body.value else raw)
  }

  function BodyPart(body: string): string {
    if body == "" then "" else "\n" + TrimSpace(body) + "\n"
  }

  /** The file written for a frontmatter already encoded and a body. */
  function Marshal(yaml: string, body: string): string {
    FENCE + yaml + FENCE + BodyPart(body)
  }

  lemma BodyPartTrims(body: string)
    ensures TrimSpace(BodyPart(body)) == TrimSpace(body)
  {
    if body != "" {
      var t := TrimSpace(body);
      TrimSpaceAfter("\n" + t, "\n");
      TrimSpaceBefore("\n", t);
      TrimSpaceIdempotent(body);
    }
  }

  lemma Reassociate(y: string, a: string, b: string, c: string, d: string)
    requires a + b == c + d
    ensures forall rest :: y + a + b + rest == y + (c + (d + rest))
  {
    forall rest
      ensures y + a + b + rest == y + (c + (d + rest))
    {
      assert y + a + b + rest == y + (a + b) + rest;
      assert y + (c + d) + rest == y + (c + (d + rest));
    }
  }

  /** The text behind the opening fence, cut at the line break that ends the frontmatter. */
  lemma MarshalCut(y: string, body: string)
    ensures FENCE <= Marshal(y + "\n", body)
    ensures Marshal(y + "\n", body)[4..] == y + (CLOSING + ("\n" + BodyPart(body)))
  {
    var b := BodyPart(body);
    Reassociate(y, "\n", FENCE, CLOSING, "\n");
    Behind(FENCE, y + "\n" + FENCE + b);
    assert Marshal(y + "\n", body) == FENCE + (y + "\n" + FENCE + b);
  }

  lemma Behind(a: string, b: string)
    ensures a <= a + b && (a + b)[|a|..] == b
  {
  }

  /** Where the closing fence is found in text that has one. Only its first character is a line break. */
  lemma FirstClosing(y: string, closing: string, rest: string)
    requires closing != [] && closing[0] !in closing[1..]
    ensures var i := Index(y + (closing + rest), closing);
            && 0 <= i <= |y|
            && (i < |y| ==> i + |closing| <= |y|)
            && (i == |y| <==> Index(y, closing) == -1)
  {
    var s := y + (closing + rest);
    IndexFirst(s, closing);
    IndexFirst(y, closing);
    assert s[|y|..|y| + |closing|] == closing;
    assert OccursAt(s, closing, |y|);
    if Index(y, closing) >= 0 {
      OccursInFront(y, closing, closing + rest, Index(y, closing));
    }
    var i := Index(s, closing);
    if i < |y| {
      ClosingStraddles(y, closing, rest, i);
      OccursInFront(y, closing, closing + rest, i);
    }
  }

  lemma OccursInFront(y: string, pat: string, rest: string, k: nat)
    requires k + |pat| <= |y|
    ensures OccursAt(y + rest, pat, k) <==> OccursAt(y, pat, k)
  {
    assert (y + rest)[k..k + |pat|] == y[k..k + |pat|];
  }

  lemma OnlyFirst(s: string, j: nat)
    requires 0 < j < |s| && s[0] !in s[1..]
    ensures s[j] != s[0]
  {
    assert s[1..][j - 1] == s[j];
  }

  /** A fence cannot begin in y and end behind it. */
  lemma ClosingStraddles(y: string, closing: string, rest: string, k: nat)
    requires closing != [] && closing[0] !in closing[1..]
    requires k < |y| && OccursAt(y + (closing + rest), closing, k)
    ensures k + |closing| <= |y|
  {
    if k + |closing| > |y| {
      OnlyFirst(closing, |y| - k);
      OccurringChar(y + (closing + rest), closing, k, |y| - k);
      assert false;
    }
  }

  lemma OneBreakInClosing()
    ensures CLOSING != [] && CLOSING[0] !in CLOSING[1..]
  {
  }

  function SkipBreak(s: string): string {
    if "\n" <= s then s[1..] else s
  }

  /** What is found behind the first closing fence: the body part, or more than that. */
  lemma ClosingFound(y: string, closing: string, rest: string)
    requires closing != [] && closing[0] !in closing[1..]
    ensures var after := AfterClosing(y + (closing + rest), closing);
            && after.Some?
            && (Index(y, closing) == -1 ==> after.value == SkipBreak(rest))
            && (Index(y, closing) != -1 ==> exists more :: after.value == SkipBreak(more + (closing + rest)))
  {
    var s := y + (closing + rest);
    FirstClosing(y, closing, rest);
    var i := Index(s, closing);
    if i == |y| {
      assert s[i + |closing|..] == rest;
    } else {
      assert s[i + |closing|..] == y[i + |closing|..] + (closing + rest);
    }
  }

  lemma MarshalAfter(y: string, body: string)
    ensures AfterFrontmatter(Marshal(y + "\n", body)) == AfterClosing(y + (CLOSING + ("\n" + BodyPart(body))), CLOSING)
  {
    MarshalCut(y, body);
    FenceLength();
  }

  lemma FenceLength()
    ensures |FENCE| == 4
  {
  }

  /** Reading back a written file gives the trimmed body, exactly when no line of the encoded
      frontmatter after its first starts like a fence. The encoder ends its output in a line break. */
  lemma MarshalStrips(y: string, body: string)
    ensures StripFrontmatter(Marshal(y + "\n", body)) == TrimSpace(body) <==> Index(y, CLOSING) == -1
  {
    var rest := "\n" + BodyPart(body);
    MarshalAfter(y, body);
    OneBreakInClosing();
    ClosingFound(y, CLOSING, rest);
    var after := AfterClosing(y + (CLOSING + rest), CLOSING);
    if Index(y, CLOSING) == -1 {
      Behind("\n", BodyPart(body));
      BodyPartTrims(body);
    } else {
      var more :| after.value == SkipBreak(more + (CLOSING + rest));
      EarlyFence(more, rest, body);
    }
  }

  /** Cut too early, the rest still holds the real closing fence, which is more ink than the body has. */
  lemma EarlyFence(more: string, rest: string, body: string)
    requires rest == "\n" + BodyPart(body)
    ensures TrimSpace(SkipBreak(more + (CLOSING + rest))) != TrimSpace(body)
  {
    var after := more + (CLOSING + rest);
    InkConcat(more, CLOSING + rest);
    InkConcat(CLOSING, rest);
    InkConcat("\n", BodyPart(body));
    InkInside(CLOSING, 1);
    InkSkipBreak(after);
    InkTrim(SkipBreak(after));
    BodyPartTrims(body);
    InkTrim(BodyPart(body));
    InkTrim(body);
  }

  lemma InkSkipBreak(s: string)
    ensures Ink(SkipBreak(s)) == Ink(s)
  {
    if "\n" <= s {
      assert s == "\n" + s[1..];
      InkConcat("\n", s[1..]);
    }
  }

  // ----- the transition -----

  datatype Assignee = Assignee(role: string, who: string)

  datatype Frontmatter = Frontmatter(status: string, kind: string, assignees: seq<Assignee>,
                                     others: map<string, string>)

  /** The workflow's answer to a transition by the system. */
  type Workflow = (string, string, string) -> bool

  const OWNER := Assignee("product-owner", "agent")

  function Blocked(fm: Frontmatter): Frontmatter {
    fm.(status := "blocked", assignees := if OWNER in fm.assignees then fm.assignees else fm.assignees + [OWNER])
  }

  function Transitioned(fm: Frontmatter, asks: bool, permits: Workflow): Frontmatter {
    if asks && fm.status != "blocked" && permits(fm.status, "blocked", fm.kind) then Blocked(fm)
    else if !asks && fm.status == "blocked" && permits("blocked", "draft", fm.kind) then fm.(status := "draft")
    else fm
  }

  /** An artifact in memory and its file. */
  class Document {
    var fm: Frontmatter
    var body: string
    var file: string

    constructor (fm: Frontmatter, body: string, file: string)
      ensures this.fm == fm && this.body == body && this.file == file
    {
      this.fm, this.body, this.file := fm, body, file;
    }

    /** Fails when the file cannot be written. */
    method WriteAndReindex(encode: Frontmatter -> string, writes: bool) returns (ok: bool)
      modifies this`file
      ensures ok == writes
      ensures file == if writes then Marshal(encode(fm), body) else old(file)
    {
      if writes {
        file := Marshal(encode(fm), body);
      }
      ok := writes;
    }

    method AutoBlock(permits: Workflow, encode: Frontmatter -> string, writes: bool) returns (ok: bool)
      modifies this
      ensures body == old(body)
      ensures fm == if permits(old(fm).status, "blocked", old(fm).kind) then Blocked(old(fm)) else old(fm)
      ensures file == if permits(old(fm).status, "blocked", old(fm).kind) && writes then Marshal(encode(fm), body)
                      else old(file)
      ensures ok <==> writes || !permits(old(fm).status, "blocked", old(fm).kind)
    {
      if !permits(fm.status, "blocked", fm.kind) {
        return true;
      }
      fm := fm.(status := "blocked");
      var hasAssignee := false;
      for i := 0 to |fm.assignees|
        invariant !hasAssignee && forall k :: 0 <= k < i ==> fm.assignees[k] != OWNER
      {
        if fm.assignees[i].role == "product-owner" && fm.assignees[i].who == "agent" {
          hasAssignee := true;
          break;
        }
      }
      if !hasAssignee {
        fm := fm.(assignees := fm.assignees + [Assignee("product-owner", "agent")]);
      }
      ok := WriteAndReindex(encode, writes);
    }

    method AutoUnblock(permits: Workflow, encode: Frontmatter -> string, writes: bool) returns (ok: bool)
      modifies this
      ensures body == old(body)
      ensures fm == if permits("blocked", "draft", old(fm).kind) then old(fm).(status := "draft") else old(fm)
      ensures file == if permits("blocked", "draft", old(fm).kind) && writes then Marshal(encode(fm), body)
                      else old(file)
      ensures ok <==> writes || !permits("blocked", "draft", old(fm).kind)
    {
      if !permits("blocked", "draft", fm.kind) {
        return true;
      }
      fm := fm.(status := "draft");
      ok := WriteAndReindex(encode, writes);
    }

    /** The file is written exactly when the status changed. */
    method ApplyOpenQuestionTransition(g: Grammar, permits: Workflow, encode: Frontmatter -> string, writes: bool)
      returns (ok: bool)
      modifies this
      ensures body == old(body)
      ensures fm == Transitioned(old(fm), HasOpenQuestions(g, body), permits)
      ensures file == if fm != old(fm) && writes then Marshal(encode(fm), body) else old(file)
      ensures ok <==> writes || fm == old(fm)
    {
      var hasOQ := HasOpenQuestions(g, body);
      if hasOQ && fm.status != "blocked" {
        ok := AutoBlock(permits, encode, writes);
      } else if !hasOQ && fm.status == "blocked" {
        ok := AutoUnblock(permits, encode, writes);
      } else {
        ok := true;
      }
    }
  }

  /** After one transition the status says whether there are open questions, exactly when it did
      before or the workflow permits the one step needed. */
  lemma StatusFollowsQuestions(fm: Frontmatter, asks: bool, permits: Workflow)
    ensures (Transitioned(fm, asks, permits).status == "blocked" <==> asks) <==>
      || (fm.status == "blocked" <==> asks)
      || (if asks then permits(fm.status, "blocked", fm.kind) else permits("blocked", "draft", fm.kind))
  {
  }

  /** A second transition changes nothing, whatever the workflow permits. */
  lemma TransitionOnce(fm: Frontmatter, asks: bool, permits: Workflow)
    ensures var once := Transitioned(fm, asks, permits); Transitioned(once, asks, permits) == once
  {
  }

  /** Nothing but the status changes, except that a blocked artifact has the product owner once more
      if it did not have them. */
  lemma OthersKept(fm: Frontmatter, asks: bool, permits: Workflow)
    ensures var t := Transitioned(fm, asks, permits);
            && t.kind == fm.kind && t.others == fm.others && fm.assignees <= t.assignees
            && |t.assignees| <= |fm.assignees| + 1
            && (t != fm && asks ==> OWNER in t.assignees)
  {
  }

  // ----- reading back -----

  /** What the fences enclose, its last line break included. */
  function FrontmatterText(raw: string): Option<string> {
    if FENCE <= raw then BeforeClosing(raw[|FENCE|..], CLOSING) else None
  }

  function BeforeClosing(s: string, closing: string): Option<string> {
    var i := Index(s, closing);
    if i < 0 || closing == "" then None else Some(s[..i + 1])
  }

  /** The frontmatter and the body of an artifact as they are read back from its file. */
  function Reread(decode: string -> Option<Frontmatter>, file: string): (Option<Frontmatter>, string) {
    var text := FrontmatterText(file);
    (if text.Some? then decode(text.value) else None, StripFrontmatter(file))
  }

  /** What the YAML library promises: encoded text ends in a line break and is decoded as it was. */
  ghost predicate Decodes(encode: Frontmatter -> string, decode: string -> Option<Frontmatter>) {
    forall fm :: EndsInBreak(encode(fm)) && decode(encode(fm)) == Some(fm)
  }

  predicate EndsInBreak(s: string) {
    s != "" && s[|s| - 1] == '\n'
  }

  /** A line after the first that starts like a fence. */
  predicate HasFence(yaml: string)
    requires yaml != ""
  {
    Index(yaml[..|yaml| - 1], CLOSING) >= 0
  }

  lemma BeforeClosingIs(y: string, closing: string, rest: string)
    requires closing != [] && closing[0] !in closing[1..] && Index(y, closing) == -1
    ensures BeforeClosing(y + (closing + rest), closing) == Some(y + [closing[0]])
  {
    FirstClosing(y, closing, rest);
    assert (y + (closing + rest))[..|y| + 1] == y + [closing[0]];
  }

  lemma MarshalEncloses(y: string, body: string)
    requires Index(y, CLOSING) == -1
    ensures FrontmatterText(Marshal(y + "\n", body)) == Some(y + "\n")
  {
    MarshalCut(y, body);
    FenceLength();
    OneBreakInClosing();
    BeforeClosingIs(y, CLOSING, "\n" + BodyPart(body));
  }

  /** A written artifact is read back with its frontmatter and its trimmed body, exactly when no later
      line of the encoded frontmatter starts like a fence. */
  lemma RereadIff(encode: Frontmatter -> string, decode: string -> Option<Frontmatter>, fm: Frontmatter, body: string)
    requires Decodes(encode, decode)
    ensures encode(fm) != ""
    ensures Reread(decode, Marshal(encode(fm), body)) == (Some(fm), TrimSpace(body)) <==> !HasFence(encode(fm))
  {
    var yaml := encode(fm);
    assert EndsInBreak(yaml) && decode(yaml) == Some(fm);
    var y := yaml[..|yaml| - 1];
    assert yaml == y + "\n";
    MarshalStrips(y, body);
    if Index(y, CLOSING) == -1 {
      MarshalEncloses(y, body);
    }
  }

  /** Written, read back and looked at again, an artifact whose body came from a file stays as it is:
      the rewrite does not set off another one, whatever decides that a body asks something. */
  lemma RewriteSettles(asks: string -> bool, encode: Frontmatter -> string, decode: string -> Option<Frontmatter>,
    fm: Frontmatter, raw: string, permits: Workflow)
    requires Decodes(encode, decode)
    ensures var body := StripFrontmatter(raw);
            var t := Transitioned(fm, asks(body), permits);
            var (fm2, body2) := Reread(decode, Marshal(encode(t), body));
            encode(t) != "" && (!HasFence(encode(t)) ==>
              && fm2 == Some(t) && body2 == body
              && Transitioned(fm2.value, asks(body2), permits) == fm2.value)
  {
    var body := StripFrontmatter(raw);
    StrippedIsTrimmed(raw);
    RereadIff(encode, decode, Transitioned(fm, asks(body), permits), body);
    TransitionOnce(fm, asks(body), permits);
  }

  lemma StrippedIsTrimmed(raw: string)
    ensures TrimSpace(StripFrontmatter(raw)) == StripFrontmatter(raw)
  {
    var body := AfterFrontmatter(raw);
    TrimSpaceIdempotent(if body.Some? then body.value else raw);
  }

  // ----- what a transition does -----

  /** An artifact with open questions becomes blocked, one without that was blocked becomes a draft, if
      the workflow permits it; in every other case it stays as it is. */
  lemma TransitionMeans(fm: Frontmatter, asks: bool, permits: Workflow)
    ensures var t := Transitioned(fm, asks, permits);
            && (asks && fm.status != "blocked" && permits(fm.status, "blocked", fm.kind) ==>
                  t.status == "blocked" && Assignee("product-owner", "agent") in t.assignees)
            && (!asks && fm.status == "blocked" && permits("blocked", "draft", fm.kind) ==>
                  t.status == "draft" && t.assignees == fm.assignees)
            && (asks && !permits(fm.status, "blocked", fm.kind) ==> t == fm)
            && (!asks && !permits("blocked", "draft", fm.kind) ==> t == fm)
            && ((asks <==> fm.status == "blocked") ==> t == fm)
  {
  }

  /** The owner is added behind the assignees there are, and only if it is not among them. */
  lemma OwnerIsAdded(fm: Frontmatter, permits: Workflow)
    requires fm.status != "blocked" && permits(fm.status, "blocked", fm.kind)
    ensures var owner := Assignee("product-owner", "agent");
            Transitioned(fm, true, permits).assignees
            == if owner in fm.assignees then fm.assignees else fm.assignees + [owner]
  {
  }

  /** The file: the frontmatter between two fences, a blank line, the trimmed body and a line break. */
  lemma MarshalLooks(yaml: string, body: string)
    ensures Marshal(yaml, "") == "---\n" + yaml + "---\n"
    ensures body != "" ==> Marshal(yaml, body) == "---\n" + yaml + "---\n" + ("\n" + TrimSpace(body) + "\n")
  {
  }
}
