/** The lines of Markdown as internal/artifact/questions.go and artifact.go read them. */
module Markdown {
  import opened Text
  import opened OpenQuestions

  const OPEN_TITLE := "Open Questions"
  const RESOLVED_TITLE := "Resolved Questions"
  const OPEN_HEADING := "## " + OPEN_TITLE
  const RESOLVED_HEADING := "## " + RESOLVED_TITLE

  /** The grammar the program uses. */
  const MARKDOWN: Grammar := Grammar(OPEN_HEADING, RESOLVED_HEADING,
                                     IsOpenHeading, IsH2, IsItem, IsBlank, IsQuote, IsRealQuestion, ItemRest, Unquote)

  // ----- what a line is -----

  /** The representative of c's simple case-folding orbit, for the orbits that meet ASCII. */
  function FoldKey(c: char): char {
    if 'A' <= c <= 'Z' then ((c as int) + 32) as char
    else if c == '\U{17F}' then 's'
    else if c == '\U{212A}' then 'k'
    else c
  }

  /** strings.EqualFold for an ASCII right-hand side. */
  predicate EqualFold(s: string, t: string) {
    |s| == |t| && forall i :: 0 <= i < |s| ==> FoldKey(s[i]) == FoldKey(t[i])
  }

  predicate IsOpenHeading(line: string) {
    var t := TrimSpace(line);
    "##" <= t && EqualFold(TrimSpace(t[2..]), OPEN_TITLE)
  }

  predicate IsH2(line: string) {
    "## " <= line
  }

  /** The length of the list marker, "-" or digits and a dot, that starts the line; 0 if none does. */
  function MarkerLength(line: string): (n: nat)
    ensures n <= |line|
    ensures n > 0 ==> line[0] == '-' || IsDigit(line[0])
  {
    var digits := |line| - |DropLeading(line, IsDigit)|;
    if "-" <= line then 1
    else if 0 < digits < |line| && line[digits] == '.' then digits + 1
    else 0
  }

  predicate IsItem(line: string) {
    var n := MarkerLength(line);
    0 < n < |line| && IsRegexSpace(line[n])
  }

  /** What follows the marker and the white space after it. */
  function ItemRest(line: string): string {
    DropLeading(line[MarkerLength(line)..], IsRegexSpace)
  }

  predicate IsPadding(c: char) {
    c == ' '
  }

  predicate IsQuote(line: string) {
    ">" <= DropLeading(line, IsPadding)
  }

  function Unquote(line: string): string {
    var l := DropLeading(line, IsPadding);
    var inner := if ">" <= l then l[1..] else l;
    if " " <= inner then inner[1..] else inner
  }

  // ----- questions that are none (internal/artifact/artifact.go) -----

  const SENTINELS: set<string> := {"none", "n/a", "na", "nil", "no open questions", "no questions", "tbd"}

  /** unicode.ToLower, for the characters whose lower case is ASCII. */
  function ToLower(c: char): char {
    if 'A' <= c <= 'Z' then ((c as int) + 32) as char
    else if c == '\U{130}' then 'i'
    else if c == '\U{212A}' then 'k'
    else c
  }

  function Lower(s: string): string {
    Map(ToLower, s)
  }

  predicate IsListMark(c: char) {
    c in "-*+"
  }

  predicate IsDecoration(c: char) {
    c in " \t_*`.,!()[]"
  }

  /** A placeholder that means there are no open questions. */
  predicate IsSentinel(line: string) {
    var s := DropLeading(TrimSpace(line), IsListMark);
    var core := DropTrailing(DropLeading(s, IsDecoration), IsDecoration);
    Lower(TrimSpace(core)) in SENTINELS
  }

  predicate IsRealQuestion(line: string) {
    !IsBlank(line) && !IsSentinel(line)
  }

  // ----- soundness -----

  lemma ItemIsNeitherBlankNorQuote(line: string)
    requires IsItem(line)
    ensures !IsBlank(line) && !IsQuote(line)
  {
    InkyIsNotBlank(line, 0);
    DropLeadingIs(line, IsPadding, 0);
  }

  lemma QuoteIsNotBlank(line: string)
    requires IsQuote(line)
    ensures !IsBlank(line) && Ink(line) > 0
  {
    var l := DropLeading(line, IsPadding);
    assert l[0] == line[|line| - |l|];
    InkyIsNotBlank(line, |line| - |l|);
    InkInside(line, |line| - |l|);
  }

  lemma QuotedLine(l: string)
    ensures var q := Quote(l); IsQuote(q) && !IsItem(q) && !IsH2(q) && Unquote(q) == l
  {
    QuoteStarts(l);
    QuoteUnquotes(l);
  }

  lemma QuoteStarts(l: string)
    ensures var q := Quote(l); IsQuote(q) && !IsItem(q) && !IsH2(q)
  {
    var q := Quote(l);
    assert q[0] == '>';
    DropLeadingIs(q, IsPadding, 0);
    DropLeadingIs(q, IsDigit, 0);
  }

  lemma QuoteUnquotes(l: string)
    ensures Unquote(Quote(l)) == l
  {
    var q := Quote(l);
    assert q[0] == '>' && q[1] == ' ';
    DropLeadingIs(q, IsPadding, 0);
    var inner := q[1..];
    assert inner[0] == ' ' && inner[1..] == l;
    assert ">" <= q && " " <= inner;
  }

  lemma BlankLine()
    ensures IsBlank("") && !IsQuote("") && !IsItem("") && !IsH2("")
  {
  }

  lemma HeadingsRecognised()
    ensures IsOpenHeading(OPEN_HEADING) && !IsOpenHeading(RESOLVED_HEADING)
  {
    HeadingOfTitle(OPEN_TITLE);
    HeadingOfTitle(RESOLVED_TITLE);
  }

  lemma HeadingsHaveNoBreak()
    ensures !HasBreak(OPEN_HEADING) && !HasBreak(RESOLVED_HEADING)
  {
  }

  lemma HeadingOfTitle(title: string)
    requires title != "" && !IsSpace(title[0]) && !IsSpace(title[|title| - 1])
    ensures IsOpenHeading("## " + title) <==> EqualFold(title, OPEN_TITLE)
  {
    var line := "## " + title;
    AlreadyTrimmed(line);
    AlreadyTrimmed(title);
    assert line[2..] == " " + title;
    assert line[..2] == "##";
    TrimSpaceBefore(" ", title);
  }

  lemma AlreadyTrimmed(s: string)
    requires s != "" && !IsSpace(s[0]) && !IsSpace(s[|s| - 1])
    ensures TrimSpace(s) == s
  {
    DropLeadingIs(s, IsSpace, 0);
    DropTrailingIs(s, IsSpace, |s|);
  }

  lemma QuotedIsNoHeading(l: string)
    ensures !IsOpenHeading(Quote(l))
  {
    var q := Quote(l);
    DropLeadingIs(q, IsSpace, 0);
    var t := TrimSpace(q);
    if t != [] {
      assert t[0] == q[0];
    }
  }

  lemma BlankIsNoHeading()
    ensures !IsOpenHeading("")
  {
  }

  lemma MarkdownReadsQuotes(l: string)
    ensures ReadsAsQuote(MARKDOWN, l)
  {
    QuotedLine(l);
    QuotedIsNoHeading(l);
  }

  /** The program's own grammar meets every condition the laws of AnswerLens put on it. */
  lemma MarkdownSound()
    ensures Sound(MARKDOWN)
  {
    HeadingsRecognised();
    HeadingsHaveNoBreak();
    BlankLine();
    BlankIsNoHeading();
    forall l | IsItem(l)
      ensures !IsBlank(l) && !IsQuote(l)
    {
      ItemIsNeitherBlankNorQuote(l);
    }
    forall l | IsQuote(l)
      ensures !IsBlank(l) && Ink(l) > 0
    {
      QuoteIsNotBlank(l);
    }
    forall l {
      MarkdownReadsQuotes(l);
    }
  }

  // ----- what the lines look like -----

  /** A list item is a dash, or digits and a dot, then white space, then its text. */
  predicate IsMarked(line: string, marker: string, gap: string, text: string) {
    && line == marker + gap + text
    && (marker == "-" || IsNumber(marker))
    && gap != "" && (forall i :: 0 <= i < |gap| ==> IsRegexSpace(gap[i]))
    && (text != "" ==> !IsRegexSpace(text[0]))
  }

  /** One or more digits and a dot. */
  predicate IsNumber(marker: string) {
    && |marker| > 1 && marker[|marker| - 1] == '.'
    && forall i :: 0 <= i < |marker| - 1 ==> '0' <= marker[i] <= '9'
  }

  lemma MarkerIs(line: string, marker: string, rest: string)
    requires line == marker + rest && (marker == "-" || IsNumber(marker))
    ensures MarkerLength(line) == |marker| && line[|marker|..] == rest
  {
    if marker != "-" {
      assert line[0] == marker[0];
      forall i | 0 <= i < |marker|
        ensures line[i] == marker[i]
      {
      }
      DropLeadingIs(line, IsDigit, |marker| - 1);
    }
  }

  /** What is marked is an item, and its text is what stands behind the marker. */
  lemma MarkedIsItem(line: string, marker: string, gap: string, text: string)
    requires IsMarked(line, marker, gap, text)
    ensures IsItem(line) && ItemRest(line) == text
  {
    assert line == marker + (gap + text);
    MarkerIs(line, marker, gap + text);
    assert line[|marker|] == gap[0];
    if text == "" {
      assert gap + text == gap;
      DropLeadingIs(gap, IsRegexSpace, |gap|);
    } else {
      DropLeadingPast(gap, text, IsRegexSpace);
    }
  }

  /** And nothing else is an item. */
  lemma ItemIsMarked(line: string) returns (marker: string, gap: string)
    requires IsItem(line)
    ensures IsMarked(line, marker, gap, ItemRest(line))
  {
    var n := MarkerLength(line);
    MarkerShape(line);
    var behind := line[n..];
    assert behind[0] == line[n];
    marker := line[..n];
    gap := GapShape(behind);
    CutIn(line, n, gap, ItemRest(line));
  }

  lemma CutIn(line: string, n: nat, gap: string, text: string)
    requires n <= |line| && line[n..] == gap + text
    ensures line == line[..n] + gap + text
  {
  }

  lemma MarkerShape(line: string)
    requires MarkerLength(line) > 0
    ensures var marker := line[..MarkerLength(line)]; marker == "-" || IsNumber(marker)
  {
    if "-" <= line {
      assert line[..1] == "-";
    }
  }

  lemma GapShape(behind: string) returns (gap: string)
    requires behind != "" && IsRegexSpace(behind[0])
    ensures var text := DropLeading(behind, IsRegexSpace);
            && behind == gap + text && gap != "" && (forall i :: 0 <= i < |gap| ==> IsRegexSpace(gap[i]))
            && (text != "" ==> !IsRegexSpace(text[0]))
  {
    var text := DropLeading(behind, IsRegexSpace);
    gap := behind[..|behind| - |text|];
  }

  /** A quote is any number of blanks and a >; the answer's line is what follows it, without one blank
      in front. */
  lemma QuoteIs(line: string, pad: string, rest: string)
    requires line == pad + ">" + rest && forall i :: 0 <= i < |pad| ==> pad[i] == ' '
    ensures IsQuote(line)
    ensures Unquote(line) == if rest != "" && rest[0] == ' ' then rest[1..] else rest
  {
    var l := ">" + rest;
    assert line == pad + l;
    DropLeadingPast(pad, l, IsPadding);
    assert l[1..] == rest;
  }

  lemma QuoteIsPadded(line: string) returns (pad: string, rest: string)
    requires IsQuote(line)
    ensures line == pad + ">" + rest && forall i :: 0 <= i < |pad| ==> pad[i] == ' '
  {
    var l := DropLeading(line, IsPadding);
    pad, rest := line[..|line| - |l|], l[1..];
    assert l == ">" + rest && line == pad + l;
  }

  /** Only a line that starts with two hashes and a blank ends a section. */
  lemma SectionEndIs(line: string)
    ensures IsH2(line) <==> |line| >= 3 && line[0] == '#' && line[1] == '#' && line[2] == ' '
  {
    if |line| >= 3 && line[0] == '#' && line[1] == '#' && line[2] == ' ' {
      assert line[..3] == "## ";
    }
  }

  /** ASCII letters are told apart up to case. */
  lemma FoldsCase(c: char, d: char)
    requires c < '\U{80}' && d < '\U{80}'
    ensures FoldKey(c) == FoldKey(d) <==>
      || c == d
      || ('A' <= c <= 'Z' && d as int == c as int + 32)
      || ('A' <= d <= 'Z' && c as int == d as int + 32)
  {
  }

  /** The title in any case. */
  predicate SaysOpenQuestions(title: string) {
    |title| == 14 && forall i :: 0 <= i < 14 ==> FoldKey(title[i]) == FoldKey("Open Questions"[i])
  }

  /** The heading in any case, with white space around it and behind the hashes. */
  lemma HeadingWritten(line: string, before: string, hashes: string, gap: string, title: string, after: string)
    requires line == before + (hashes + (gap + title) + after) && hashes == "##" && SaysOpenQuestions(title)
    requires IsBlank(before) && IsBlank(gap) && IsBlank(after)
    ensures IsOpenHeading(line)
  {
    TitleIsTrimmed(title);
    TitleFolds(title);
    HeadingOfParts(line, before, hashes, gap, title, after);
  }

  lemma TitleFolds(title: string)
    requires SaysOpenQuestions(title)
    ensures EqualFold(title, OPEN_TITLE)
  {
  }

  lemma TitleIsTrimmed(title: string)
    requires SaysOpenQuestions(title)
    ensures TrimSpace(title) == title && title != "" && !IsSpace(title[|title| - 1])
  {
    assert FoldKey(title[0]) == 'o' && FoldKey(title[13]) == 's';
    AlreadyTrimmed(title);
  }

  lemma HeadingTrims(line: string, before: string, hashes: string, gap: string, title: string, after: string)
    requires line == before + (hashes + (gap + title) + after)
    requires IsBlank(before) && IsBlank(gap) && IsBlank(after) && hashes != "" && !IsSpace(hashes[0])
    requires TrimSpace(title) == title && title != "" && !IsSpace(title[|title| - 1])
    ensures var t := TrimSpace(line); hashes <= t && t[|hashes|..] == gap + title
    ensures TrimSpace(gap + title) == title
  {
    var core := hashes + (gap + title);
    CoreTrims(line, before, core, after, title);
    TrimSpaceBefore(gap, title);
  }

  lemma CoreTrims(line: string, before: string, core: string, after: string, title: string)
    requires line == before + (core + after) && IsBlank(before) && IsBlank(after)
    requires title != "" && !IsSpace(title[|title| - 1])
    requires |title| < |core| && core[|core| - |title|..] == title && !IsSpace(core[0])
    ensures TrimSpace(line) == core
  {
    TrimSpaceBefore(before, core + after);
    TrimSpaceAfter(core, after);
    assert core[|core| - 1] == core[|core| - |title|..][|title| - 1];
    AlreadyTrimmed(core);
  }

  lemma HeadingOfParts(line: string, before: string, hashes: string, gap: string, title: string, after: string)
    requires line == before + (hashes + (gap + title) + after) && hashes == "##" && !IsSpace(hashes[0])
    requires IsBlank(before) && IsBlank(gap) && IsBlank(after)
    requires TrimSpace(title) == title && title != "" && !IsSpace(title[|title| - 1]) && EqualFold(title, OPEN_TITLE)
    ensures IsOpenHeading(line)
  {
    HeadingTrims(line, before, hashes, gap, title, after);
    HeadingBy(line, hashes, gap + title, title);
  }

  lemma HeadingBy(line: string, hashes: string, rest: string, title: string)
    requires hashes == "##" && hashes <= TrimSpace(line) && TrimSpace(line)[|hashes|..] == rest
    requires TrimSpace(rest) == title && EqualFold(title, OPEN_TITLE)
    ensures IsOpenHeading(line)
  {
  }

  /** A placeholder: a word that means there are none, in any case, behind list marks and between
      decorations. */
  predicate IsPlaceholder(line: string, marks: string, before: string, word: string, after: string) {
    && line == marks + (before + (word + after))
    && (forall i :: 0 <= i < |marks| ==> marks[i] in "-*+")
    && (forall i :: 0 <= i < |before| ==> IsDecoration(before[i]))
    && (forall i :: 0 <= i < |after| ==> IsDecoration(after[i]))
    && (before != "" ==> before[0] !in "-*+")
    && word != "" && !IsDecoration(word[0]) && !IsDecoration(word[|word| - 1])
    && word[0] !in "-*+" && TrimSpace(word) == word && TrimSpace(line) == line
  }

  lemma PlaceholderIsNone(line: string, marks: string, before: string, word: string, after: string, none: string)
    requires IsPlaceholder(line, marks, before, word, after) && |word| == |none|
    requires none in {"none", "n/a", "na", "nil", "no open questions", "no questions", "tbd"}
    requires forall i :: 0 <= i < |word| ==>
      word[i] == none[i] || ('A' <= word[i] <= 'Z' && none[i] as int == word[i] as int + 32)
    ensures !IsRealQuestion(line)
  {
    NoneIsLower(none);
    LowerIs(word, none);
    PlaceholderCore(line, marks, before, word, after);
    SentinelOf(line, word);
  }

  lemma SentinelOf(line: string, word: string)
    requires TrimSpace(line) == line && TrimSpace(word) == word && Lower(word) in SENTINELS
    requires DropTrailing(DropLeading(DropLeading(line, IsListMark), IsDecoration), IsDecoration) == word
    ensures IsSentinel(line)
  {
  }

  lemma NoneIsLower(none: string)
    requires none in {"none", "n/a", "na", "nil", "no open questions", "no questions", "tbd"}
    ensures none in SENTINELS && forall i :: 0 <= i < |none| ==> ToLower(none[i]) == none[i]
  {
  }

  lemma PlaceholderCore(line: string, marks: string, before: string, word: string, after: string)
    requires IsPlaceholder(line, marks, before, word, after)
    ensures var s := DropLeading(TrimSpace(line), IsListMark);
            DropTrailing(DropLeading(s, IsDecoration), IsDecoration) == word
  {
    var rest := before + (word + after);
    CoreStarts(before, word, after);
    DropLeadingPast(marks, rest, IsListMark);
    DecorationsGo(before, word, after);
  }

  lemma DecorationsGo(before: string, word: string, after: string)
    requires forall i :: 0 <= i < |before| ==> IsDecoration(before[i])
    requires forall i :: 0 <= i < |after| ==> IsDecoration(after[i])
    requires word != "" && !IsDecoration(word[0]) && !IsDecoration(word[|word| - 1])
    ensures DropTrailing(DropLeading(before + (word + after), IsDecoration), IsDecoration) == word
  {
    CoreStarts(before, word, after);
    DropLeadingPast(before, word + after, IsDecoration);
    DropTrailingPast(word, after, IsDecoration);
    DropTrailingIs(word, IsDecoration, |word|);
  }

  lemma CoreStarts(before: string, word: string, after: string)
    requires word != ""
    ensures (before + (word + after))[0] == if before != "" then before[0] else word[0]
    ensures (word + after)[0] == word[0]
  {
  }

  lemma LowerIs(word: string, none: string)
    requires |word| == |none|
    requires forall i :: 0 <= i < |word| ==>
      word[i] == none[i] || ('A' <= word[i] <= 'Z' && none[i] as int == word[i] as int + 32)
    requires forall i :: 0 <= i < |none| ==> ToLower(none[i]) == none[i]
    ensures Lower(word) == none
  {
  }
}
