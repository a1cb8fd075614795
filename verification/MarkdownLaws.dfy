/** The laws of AnswerLens for the program's own grammar. */
module MarkdownLaws {
  import opened Results
  import opened Text
  import opened OpenQuestions
  import opened Markdown
  import opened AnswerLens

  /** Put-get and idempotence, each with its exact condition. */
  lemma {:induction false} Answering(body: string, answers: map<int, string>)
    ensures Kept(MARKDOWN, body, answers)
            <==> HasQuestions(MARKDOWN, body) && AllKeepText(MARKDOWN, Entries(MARKDOWN, Split(body)), answers)
    ensures SameTwice(MARKDOWN, body, answers) <==> AllSettled(MARKDOWN, Entries(MARKDOWN, Split(body)), answers)
  {
    MarkdownSound();
    PutGet(MARKDOWN, body, answers);
    Idempotent(MARKDOWN, body, answers);
  }

  /** A given answer replaces the one a question had, and without one that stays. */
  lemma {:induction false} Carrying(body: string, answers: map<int, string>, i: nat)
    ensures Parse(MARKDOWN, body).Some? && i < |Parse(MARKDOWN, body).value| ==>
      var q, out := Parse(MARKDOWN, body).value[i], Apply(MARKDOWN, body, answers, false);
      var answer := TrimSpace(if i in answers then answers[i] else q.answer);
      && out.Ok? && Parse(MARKDOWN, out.value).Some?
      && |Parse(MARKDOWN, out.value).value| == |Parse(MARKDOWN, body).value|
      && (answer != "" ==> Parse(MARKDOWN, out.value).value[i] == Question(i, q.text, answer))
  {
    MarkdownSound();
    AnswersCarried(MARKDOWN, body, answers, i);
  }

  /** A list item and a quote below it are read as a question and its answer. */
  lemma WrittenQuestionIsRead(item: string, marker: string, gap: string, text: string, answer: string)
    requires IsMarked(item, marker, gap, text) && !HasBreak(item) && !HasBreak(answer)
    ensures Parse(MARKDOWN, Join([OPEN_HEADING, ""] + WrittenQuestion(item, answer)))
            == Some([Question(0, TrimSpace(text), TrimSpace(answer))])
  {
    MarkdownSound();
    MarkedIsItem(item, marker, gap, text);
    MarkedIsNoEnd(item, marker, gap, text);
    WrittenLineParses(MARKDOWN, item, answer);
  }

  lemma MarkedIsNoEnd(item: string, marker: string, gap: string, text: string)
    requires IsMarked(item, marker, gap, text)
    ensures !IsH2(item)
  {
    assert item[0] == marker[0];
    SectionEndIs(item);
  }

  /** A completed body with a single open-questions heading has nothing left to parse. Nothing is open
      any more exactly when it had list items to answer, or nothing was open before. */
  lemma {:induction false} Completing(body: string, answers: map<int, string>)
    requires OneHeadingAtMost(MARKDOWN, body)
    ensures var out := Apply(MARKDOWN, body, answers, true);
            && (out.Ok? <==> AllAnswered(Entries(MARKDOWN, Split(body)), answers))
            && (out.Ok? ==>
                  && (!HasOpenQuestions(MARKDOWN, out.value)
                      <==> HasQuestions(MARKDOWN, body) || !HasOpenQuestions(MARKDOWN, body))
                  && Parse(MARKDOWN, out.value) == None)
  {
    MarkdownSound();
    Completed(MARKDOWN, body, answers);
    CompletionResolves(MARKDOWN, body, answers);
  }

  /** A star bullet is no list item to the parser: a body whose only question is one is completed
      without an error, unchanged, and stays open. */
  lemma StarBulletStaysOpen(line: string, core: string, answers: map<int, string>)
    requires IsBullet(line, core) && line[0] == '*' && !HasBreak(line) && Lower(core) !in SENTINELS
    ensures var body := Join([OPEN_HEADING, line]);
            && Apply(MARKDOWN, body, answers, true) == Ok(body)
            && HasOpenQuestions(MARKDOWN, body)
  {
    MarkdownSound();
    BulletIsReal(line, core);
    BulletIsNothingElse(line, core);
    ProseStaysOpen(MARKDOWN, line, answers);
  }

  /** Such a body is the heading and the line "* x". */
  lemma CompletingLeavesOpen(line: string, core: string)
    requires line == "* x" && core == "x"
    ensures var body := Join([OPEN_HEADING, line]);
            Apply(MARKDOWN, body, map[], true) == Ok(body) && HasOpenQuestions(MARKDOWN, body)
  {
    LiteralBullet(line, core);
    NoSentinelIsOneLetter(Lower(core));
    StarBulletStaysOpen(line, core, map[]);
  }

  lemma LiteralBullet(line: string, core: string)
    requires line == "* x" && core == "x"
    ensures IsBullet(line, core) && line[0] == '*' && !HasBreak(line)
  {
  }

  predicate Plain(c: char) {
    !IsSpace(c) && !IsDecoration(c)
  }

  /** A list mark, a blank and a core that starts and ends plainly. */
  predicate IsBullet(line: string, core: string) {
    && |line| == |core| + 2 && line[2..] == core
    && IsListMark(line[0]) && !IsSpace(line[0]) && IsDecoration(line[1]) && !IsListMark(line[1])
    && core != "" && Plain(core[0]) && Plain(core[|core| - 1])
  }

  lemma BulletCore(line: string, core: string)
    requires IsBullet(line, core)
    ensures TrimSpace(line) == line && TrimSpace(core) == core
    ensures DropTrailing(DropLeading(DropLeading(line, IsListMark), IsDecoration), IsDecoration) == core
  {
    assert line[|line| - 1] == core[|core| - 1];
    AlreadyTrimmed(line);
    AlreadyTrimmed(core);
    DropLeadingIs(line, IsListMark, 1);
    var rest := line[1..];
    assert rest[1] == core[0] && rest[1..] == core;
    DropLeadingIs(rest, IsDecoration, 1);
    DropTrailingIs(core, IsDecoration, |core|);
  }

  lemma BulletIsReal(line: string, core: string)
    requires IsBullet(line, core) && Lower(core) !in SENTINELS
    ensures IsRealQuestion(line)
  {
    BulletCore(line, core);
    InkyIsNotBlank(line, 0);
  }

  lemma BulletIsNothingElse(line: string, core: string)
    requires IsBullet(line, core) && line[0] == '*'
    ensures !IsItem(line) && !IsH2(line) && !IsOpenHeading(line)
  {
    BulletCore(line, core);
    DropLeadingIs(line, IsDigit, 0);
  }

  lemma NoSentinelIsOneLetter(word: string)
    requires |word| == 1
    ensures word !in SENTINELS
  {
  }

  /** Clearing the answer below a quote is not idempotent. */
  lemma Clearing(item: string, quoted: string, answer: string)
    requires IsItem(item) && !IsH2(item) && TrimSpace(answer) != ""
    requires !HasBreak(item) && !HasBreak(quoted)
    ensures !SameTwice(MARKDOWN, Join(QuoteAboveAnswer(MARKDOWN, item, quoted, answer)), map[0 := ""])
  {
    MarkdownSound();
    QuoteAboveAnswerSheds(MARKDOWN, item, quoted, answer);
  }

  /** ApplyAnswers is not idempotent on every body, whatever its comment says: clear the answer of
      this one twice. */
  lemma NotAlwaysIdempotent(item: string, quoted: string, answer: string)
    requires item == "- a" && quoted == "b" && answer == "c"
    ensures !SameTwice(MARKDOWN, Join(QuoteAboveAnswer(MARKDOWN, item, quoted, answer)), map[0 := ""])
  {
    DashIsItem(item);
    AlreadyTrimmed(answer);
    Clearing(item, quoted, answer);
  }

  lemma DashIsItem(item: string)
    requires |item| == 3 && item[0] == '-' && item[1] == ' ' && item[2] != '\n'
    ensures IsItem(item) && !IsH2(item) && !HasBreak(item)
  {
    assert "-" <= item;
  }

  /** The headings written. */
  lemma HeadingsAre(open: string, resolved: string)
    requires open == "## Open Questions" && resolved == "## Resolved Questions"
    ensures MARKDOWN.open == open && MARKDOWN.resolved == resolved
  {
  }
}
