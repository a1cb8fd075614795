/** Answering open questions as a lens: parsing what ApplyAnswers wrote gives the answers back,
    and writing the same answers again changes nothing, each exactly when stated. */
module AnswerLens {
  import opened Results
  import opened Text
  import opened Cutting
  import opened OpenQuestions

  // ----- one entry -----

  lemma QuotedLines(g: Grammar, ls: seq<string>)
    requires Sound(g)
    ensures forall i :: 0 <= i < |ls| ==>
      g.isQuote(Quoted(ls)[i]) && !g.isItem(Quoted(ls)[i]) && !g.isEnd(Quoted(ls)[i])
    ensures Unquoted(g, Quoted(ls)) == ls
  {
    forall i | 0 <= i < |ls|
      ensures g.isQuote(Quoted(ls)[i]) && !g.isItem(Quoted(ls)[i]) && !g.isEnd(Quoted(ls)[i])
      ensures g.unquote(Quoted(ls)[i]) == ls[i]
    {
      assert ReadsAsQuote(g, ls[i]);
    }
  }

  /** Whether the text lines would be read back whole if no answer stood below them. */
  predicate EndsInQuote(g: Grammar, textLines: seq<string>) {
    textLines != [] && g.isQuote(textLines[|textLines| - 1])
  }

  lemma CutPlain<T>(text: seq<T>, sep: T, blank: T -> bool)
    requires text != [] && !blank(text[|text| - 1]) && blank(sep)
    ensures DropTrailing(text + [sep], blank) == text
  {
    DropTrailingIs(text + [sep], blank, |text|);
    assert (text + [sep])[..|text|] == text;
  }

  lemma CutQuoted<T>(before: seq<T>, quoted: seq<T>, quote: T -> bool)
    requires before != [] && !quote(before[|before| - 1])
    requires forall i :: 0 <= i < |quoted| ==> quote(quoted[i])
    ensures DropTrailing(before + quoted, quote) == before
  {
    DropTrailingIs(before + quoted, quote, |before|);
    assert (before + quoted)[..|before|] == before;
  }

  /** Reading back an entry that needs no answer to keep its text. */
  lemma UnansweredReadsBack(g: Grammar, text: seq<string>)
    requires Sound(g)
    requires text != [] && !g.isBlank(text[|text| - 1]) && !EndsInQuote(g, text)
    ensures EntryOf(g, text + [""]) == Entry(text, "")
  {
    CutPlain(text, "", g.isBlank);
    CutQuoted(text, [], g.isQuote);
    assert text + [] == text;
  }

  /** Reading back an entry with an answer below a blank line. */
  lemma AnsweredReadsBack(g: Grammar, text: seq<string>, ls: seq<string>)
    requires Sound(g)
    requires text != [] && !g.isBlank(text[|text| - 1]) && ls != []
    ensures EntryOf(g, text + [""] + Quoted(ls) + [""]) == Entry(text, TrimSpace(Join(ls)))
  {
    var quoted := Quoted(ls);
    var before := text + [""];
    var body := before + quoted;
    QuotedLines(g, ls);
    CutPlain(body, "", g.isBlank);
    CutQuoted(before, quoted, g.isQuote);
    CutPlain(text, "", g.isBlank);
    assert body[|before|..] == quoted;
  }

  lemma EntryLinesAre(text: seq<string>, answer: string)
    ensures var a := TrimSpace(answer);
            EntryLines(text, answer) == if a == "" then text + [""] else text + [""] + Quoted(Split(a)) + [""]
  {
    var a := TrimSpace(answer);
    if a == "" {
      assert text + [] == text;
    } else {
      assert text + ([""] + Quoted(Split(a))) == text + [""] + Quoted(Split(a));
    }
  }

  /** Reading back an entry that was written with an answer, or needs none to keep its text. */
  lemma EntryReadsBack(g: Grammar, text: seq<string>, answer: string)
    requires Sound(g)
    requires text != [] && !g.isBlank(text[|text| - 1])
    requires TrimSpace(answer) != "" || !EndsInQuote(g, text)
    ensures EntryOf(g, EntryLines(text, answer)) == Entry(text, TrimSpace(answer))
  {
    var a := TrimSpace(answer);
    EntryLinesAre(text, answer);
    if a == "" {
      UnansweredReadsBack(g, text);
    } else {
      AnsweredReadsBack(g, text, Split(a));
      JoinSplit(a);
      TrimSpaceIdempotent(answer);
    }
  }

  /** Written without an answer, a text that ends in a quote loses that quote. */
  lemma EntrySheds(g: Grammar, text: seq<string>)
    requires Sound(g)
    requires IsChunk(g, text) && !g.isBlank(text[|text| - 1]) && EndsInQuote(g, text)
    ensures var kept := EntryOf(g, text + [""]).textLines;
            kept != [] && kept <= text && |kept| < |text|
  {
    CutPlain(text, "", g.isBlank);
    var rest := DropTrailing(text, g.isQuote);
    var kept := DropTrailing(rest, g.isBlank);
    DropTrailingKeepsHead(text, g.isQuote);
    DropTrailingKeepsHead(rest, g.isBlank);
    PrefixTransitive(kept, rest, text);
  }

  /** A longer text with ink in its last line has more ink. */
  lemma TextInk(g: Grammar, kept: seq<string>, text: seq<string>)
    requires Sound(g)
    requires kept != [] && kept <= text && |kept| < |text| && g.isQuote(text[|text| - 1])
    ensures Ink(QuestionText(g, kept)) < Ink(QuestionText(g, text))
  {
    var more := text[|kept|..];
    UnmarkedPrefix(g, kept, text);
    InkTrim(Join(Unmarked(g, kept)));
    InkTrim(Join(Unmarked(g, text)));
    InkJoin(Unmarked(g, kept), more);
    InkOfEnd(g, text, |kept|);
  }

  lemma InkOfEnd(g: Grammar, text: seq<string>, k: nat)
    requires Sound(g)
    requires k < |text| && g.isQuote(text[|text| - 1])
    ensures Ink(Join(text[k..])) > 0
  {
    var more := text[k..];
    assert more[|more| - 1] == text[|text| - 1];
    InkJoinLast(more);
  }

  lemma UnmarkedPrefix(g: Grammar, kept: seq<string>, text: seq<string>)
    requires kept != [] && kept <= text
    ensures Unmarked(g, text) == Unmarked(g, kept) + text[|kept|..]
  {
    SkipHead(kept, text);
  }

  lemma SkipHead(kept: seq<string>, text: seq<string>)
    requires kept != [] && kept <= text
    ensures kept[0] == text[0]
    ensures text[1..] == kept[1..] + text[|kept|..]
  {
    assert text == kept + text[|kept|..];
  }

  lemma WrittenAvoids(answer: string, bad: string -> bool)
    requires !bad("") && (forall l :: !HasBreak(l) ==> !bad(Quote(l)))
    ensures NoneOf(Written(answer), bad)
  {
    if TrimSpace(answer) != "" {
      var ls := Split(TrimSpace(answer));
      forall i | 0 <= i < |ls|
        ensures !bad(Quoted(ls)[i])
      {
        assert !HasBreak(ls[i]);
      }
      NoneConcat([""], Quoted(ls), bad);
    }
  }

  /** What is written for an entry avoids a kind of line that no written line is of, if its text does. */
  lemma EntryLinesAvoid(text: seq<string>, answer: string, bad: string -> bool)
    requires !bad("") && (forall l :: !HasBreak(l) ==> !bad(Quote(l)))
    ensures NoneOf(EntryLines(text, answer), bad) <==> NoneOf(text, bad)
  {
    WrittenAvoids(answer, bad);
    assert NoneOf([""], bad);
    NoneConcat(text, Written(answer), bad);
    NoneConcat(text + Written(answer), [""], bad);
  }

  lemma QuotesAvoid(g: Grammar)
    requires Sound(g)
    ensures forall l :: !g.isItem(Quote(l)) && !g.isEnd(Quote(l)) && !g.isHeading(Quote(l))
  {
    forall l
      ensures !g.isItem(Quote(l)) && !g.isEnd(Quote(l)) && !g.isHeading(Quote(l))
    {
      assert ReadsAsQuote(g, l);
    }
  }

  /** What is written for an entry is one chunk. */
  lemma EntryLinesAreChunk(g: Grammar, text: seq<string>, answer: string)
    requires Sound(g)
    requires IsChunk(g, text)
    ensures IsChunk(g, EntryLines(text, answer))
  {
    QuotesAvoid(g);
    WrittenAvoids(answer, g.isItem);
    NoneOfOne("", g.isItem);
    GroupExtend(text, Written(answer), g.isItem);
    GroupExtend(text + Written(answer), [""], g.isItem);
  }

  // ----- the document -----

  /** A rewritten section is found between the same lines. */
  lemma RewrittenLocates(g: Grammar, lines: seq<string>, section: seq<string>)
    requires Sound(g)
    requires HeadingIndex(g, lines) < |lines| && NoneOf(section, g.isEnd)
    ensures var doc := Rewritten(g, lines, g.open, section);
            && HeadingIndex(g, doc) == HeadingIndex(g, lines) < |doc|
            && doc[HeadingIndex(g, doc)] == g.open
            && Section(g, doc) == [""] + section
  {
    NoneOfOne("", g.isEnd);
    NoneConcat([""], section, g.isEnd);
    ReplaceReadsBack(lines, g.open, [""] + section, g.isHeading, g.isEnd);
  }

  lemma ChunksReadBack(g: Grammar, cs: seq<seq<string>>)
    requires Sound(g)
    requires AreGroups(cs, g.isItem)
    ensures Chunks(g, [""] + Flatten(cs)) == cs
  {
    NoneOfOne("", g.isItem);
    GroupsOfFlatten([""], cs, g.isItem);
  }

  lemma NoneOfOne(line: string, p: string -> bool)
    ensures NoneOf([line], p) <==> !p(line)
  {
    assert [line][0] == line;
  }

  /** A document rewritten with a new section of chunks is read back as exactly those chunks, between the same lines. */
  lemma RewrittenReadsBack(g: Grammar, lines: seq<string>, cs: seq<seq<string>>)
    requires Sound(g)
    requires HeadingIndex(g, lines) < |lines|
    requires AreGroups(cs, g.isItem)
    requires NoneOfAll(cs, g.isEnd)
    ensures var doc := Rewritten(g, lines, g.open, Flatten(cs));
            && HeadingIndex(g, doc) == HeadingIndex(g, lines) < |doc|
            && doc[HeadingIndex(g, doc)] == g.open
            && Section(g, doc) == [""] + Flatten(cs)
            && Chunks(g, Section(g, doc)) == cs
  {
    FlattenElements(cs, g.isEnd);
    RewrittenLocates(g, lines, Flatten(cs));
    ChunksReadBack(g, cs);
  }

  // ----- the laws -----

  predicate HasQuestions(g: Grammar, body: string) {
    Entries(g, Split(body)) != []
  }

  /** What the questions of these entries should read after answering: the same texts, each with its
      final answer trimmed. */
  function Answered(g: Grammar, es: seq<Entry>, answers: map<int, string>): (qs: seq<Question>)
    ensures |qs| == |es|
  {
    seq(|es|, i requires 0 <= i < |es| =>
      Question(i, QuestionText(g, es[i].textLines), TrimSpace(FinalAnswer(es[i], i, answers))))
  }

  /** An entry keeps its text when an answer is written below it or the text does not end in a quote. */
  predicate KeepsText(g: Grammar, e: Entry, answer: string) {
    TrimSpace(answer) != "" || !EndsInQuote(g, e.textLines)
  }

  predicate AllKeepText(g: Grammar, es: seq<Entry>, answers: map<int, string>) {
    forall i :: 0 <= i < |es| ==> KeepsText(g, es[i], FinalAnswer(es[i], i, answers))
  }

  predicate TextsAvoid(es: seq<Entry>, bad: string -> bool) {
    forall i :: 0 <= i < |es| ==> NoneOf(es[i].textLines, bad)
  }

  /** The text lines of the entries are lines of the section. */
  lemma {:induction false} EntryTextsAvoid(g: Grammar, lines: seq<string>, bad: string -> bool)
    requires HeadingIndex(g, lines) < |lines| ==> NoneOf(Section(g, lines), bad)
    ensures TextsAvoid(Entries(g, lines), bad)
  {
    if HeadingIndex(g, lines) < |lines| {
      var cs := Chunks(g, Section(g, lines));
      GroupElements(Section(g, lines), g.isItem, bad);
      forall i | 0 <= i < |cs|
        ensures NoneOf(EntryOf(g, cs[i]).textLines, bad)
      {
        EntryTextAvoids(g, cs[i], bad);
      }
    }
  }

  lemma EntryTextAvoids(g: Grammar, chunk: seq<string>, bad: string -> bool)
    requires NoneOf(chunk, bad)
    ensures NoneOf(EntryOf(g, chunk).textLines, bad)
  {
    EntryTextIsPrefix(g, chunk);
  }

  lemma AnsweredChunksAreChunks(g: Grammar, es: seq<Entry>, answers: map<int, string>)
    requires Sound(g)
    requires AreEntries(g, es) && TextsAvoid(es, g.isEnd) && TextsAvoid(es, HasBreak)
    ensures var cs := AnsweredChunks(es, answers);
            AreGroups(cs, g.isItem) && NoneOfAll(cs, g.isEnd) && NoneOfAll(cs, HasBreak)
  {
    var cs := AnsweredChunks(es, answers);
    QuotesAvoid(g);
    forall i | 0 <= i < |es|
      ensures IsGroup(cs[i], g.isItem) && NoneOf(cs[i], g.isEnd) && NoneOf(cs[i], HasBreak)
    {
      EntryLinesAreChunk(g, es[i].textLines, FinalAnswer(es[i], i, answers));
      EntryLinesAvoid(es[i].textLines, FinalAnswer(es[i], i, answers), g.isEnd);
      EntryLinesAvoid(es[i].textLines, FinalAnswer(es[i], i, answers), HasBreak);
    }
  }

  lemma CleanRewritten(g: Grammar, lines: seq<string>, heading: string, section: seq<string>)
    requires Sound(g)
    requires HeadingIndex(g, lines) < |lines| && Clean(lines) && !HasBreak(heading) && Clean(section)
    ensures Clean(Rewritten(g, lines, heading, section))
  {
    assert NoneOf([""], HasBreak);
    NoneConcat([""], section, HasBreak);
    ReplaceAvoids(lines, heading, [""] + section, g.isHeading, g.isEnd, HasBreak);
  }

  /** The written chunks are chunks, end no section and hold no line break. */
  lemma WrittenChunks(g: Grammar, lines: seq<string>, answers: map<int, string>)
    requires Sound(g)
    requires Clean(lines)
    ensures var cs := AnsweredChunks(Entries(g, lines), answers);
            AreGroups(cs, g.isItem) && NoneOfAll(cs, g.isEnd) && Clean(Flatten(cs))
  {
    EntriesAreEntries(g, lines);
    if HeadingIndex(g, lines) < |lines| {
      assert NoneOf(Section(g, lines), HasBreak);
    }
    EntryTextsAvoid(g, lines, HasBreak);
    if HeadingIndex(g, lines) < |lines| {
      MiddleHasNoEnd(lines, g.isHeading, g.isEnd);
    }
    EntryTextsAvoid(g, lines, g.isEnd);
    AnsweredChunksAreChunks(g, Entries(g, lines), answers);
    FlattenElements(AnsweredChunks(Entries(g, lines), answers), HasBreak);
  }

  /** The answered body splits into the rewritten lines. */
  lemma RewritesLines(g: Grammar, body: string, answers: map<int, string>, complete: bool)
    requires Sound(g)
    requires HasQuestions(g, body)
    requires complete ==> AllAnswered(Entries(g, Split(body)), answers)
    ensures var lines := Split(body);
            var heading := if complete then g.resolved else g.open;
            var out := Apply(g, body, answers, complete);
            && out.Ok?
            && Split(out.value) == Rewritten(g, lines, heading, Flatten(AnsweredChunks(Entries(g, lines), answers)))
  {
    var lines := Split(body);
    var heading := if complete then g.resolved else g.open;
    var section := Flatten(AnsweredChunks(Entries(g, lines), answers));
    WrittenChunks(g, lines, answers);
    CleanRewritten(g, lines, heading, section);
    SplitJoin(Rewritten(g, lines, heading, section));
  }

  /** Every line above the heading, and every line from the next "## " line on, is where it was. */
  predicate KeepsAround(g: Grammar, lines: seq<string>, out: seq<string>)
    requires HeadingIndex(g, lines) < |lines|
  {
    var h, tail := HeadingIndex(g, lines), |lines| - SectionEnd(g, lines);
    && h + 2 + tail <= |out|
    && out[..h] == lines[..h]
    && out[|out| - tail..] == lines[|lines| - tail..]
  }

  lemma RewrittenKeepsAround(g: Grammar, lines: seq<string>, heading: string, section: seq<string>)
    requires HeadingIndex(g, lines) < |lines|
    ensures KeepsAround(g, lines, Rewritten(g, lines, heading, section))
  {
    ReplaceKeepsAround(lines, heading, [""] + section, g.isHeading, g.isEnd);
  }

  /** Answering touches no line outside the section. */
  lemma AroundUntouched(g: Grammar, body: string, answers: map<int, string>, complete: bool)
    requires Sound(g)
    ensures var out := Apply(g, body, answers, complete);
            HasQuestions(g, body) && out.Ok? ==> KeepsAround(g, Split(body), Split(out.value))
  {
    if HasQuestions(g, body) && Apply(g, body, answers, complete).Ok? {
      RewritesLines(g, body, answers, complete);
      var heading := if complete then g.resolved else g.open;
      RewrittenKeepsAround(g, Split(body), heading, Flatten(AnsweredChunks(Entries(g, Split(body)), answers)));
    }
  }

  /** The rewritten body splits into the rewritten lines, and its entries are those of the written chunks. */
  lemma Rewrites(g: Grammar, body: string, answers: map<int, string>)
    requires Sound(g)
    requires HasQuestions(g, body)
    ensures var lines := Split(body);
            var cs := AnsweredChunks(Entries(g, lines), answers);
            var out := Apply(g, body, answers, false);
            && out.Ok?
            && Split(out.value) == Rewritten(g, lines, g.open, Flatten(cs))
            && HeadingIndex(g, Split(out.value)) < |Split(out.value)|
            && Split(out.value)[HeadingIndex(g, Split(out.value))] == g.open
            && Section(g, Split(out.value)) == [""] + Flatten(cs)
            && Chunks(g, Section(g, Split(out.value))) == cs
  {
    var lines := Split(body);
    var cs := AnsweredChunks(Entries(g, lines), answers);
    WrittenChunks(g, lines, answers);
    RewrittenReadsBack(g, lines, cs);
    RewritesLines(g, body, answers, false);
  }

  /** Whether one question is read back as it was answered. */
  lemma {:induction false} QuestionReadsBack(g: Grammar, e: Entry, answer: string, index: nat)
    requires Sound(g)
    requires IsEntry(g, e)
    ensures var back := EntryOf(g, EntryLines(e.textLines, answer));
            && back.textLines != []
            && (QuestionOf(g, back, index) == Question(index, QuestionText(g, e.textLines), TrimSpace(answer))
                <==> KeepsText(g, e, answer))
  {
    var text := e.textLines;
    if KeepsText(g, e, answer) {
      EntryReadsBack(g, text, answer);
    } else {
      assert EntryLines(text, answer) == text + [""];
      EntrySheds(g, text);
      TextInk(g, EntryOf(g, text + [""]).textLines, text);
    }
  }

  lemma QuestionsReadBack(g: Grammar, es: seq<Entry>, answers: map<int, string>)
    requires Sound(g)
    requires AreEntries(g, es)
    ensures Questions(g, EntriesOf(g, AnsweredChunks(es, answers))) == Answered(g, es, answers)
            <==> AllKeepText(g, es, answers)
  {
    var got, expected := Questions(g, EntriesOf(g, AnsweredChunks(es, answers))), Answered(g, es, answers);
    forall i | 0 <= i < |es|
      ensures got[i] == expected[i] <==> KeepsText(g, es[i], FinalAnswer(es[i], i, answers))
    {
      QuestionReadsBack(g, es[i], FinalAnswer(es[i], i, answers), i);
    }
    assert got == expected <==> forall i :: 0 <= i < |es| ==> got[i] == expected[i];
  }

  /** Answering succeeds, and the questions parsed from the result are the same ones with their final answers. */
  predicate Kept(g: Grammar, body: string, answers: map<int, string>) {
    var out := Apply(g, body, answers, false);
    out.Ok? && Parse(g, out.value) == Some(Answered(g, Entries(g, Split(body)), answers))
  }

  /** Put-get: the questions read back are the same ones with their final answers, exactly when there
      are questions and every entry keeps its text. */
  lemma {:induction false} PutGet(g: Grammar, body: string, answers: map<int, string>)
    requires Sound(g)
    ensures Kept(g, body, answers) <==> HasQuestions(g, body) && AllKeepText(g, Entries(g, Split(body)), answers)
  {
    if HasQuestions(g, body) {
      Rewrites(g, body, answers);
      EntriesAreEntries(g, Split(body));
      QuestionsReadBack(g, Entries(g, Split(body)), answers);
    }
  }

  /** Question i of an answered body carries the answer given for it, trimmed, or the one it had when none
      was given. Its text is what it was, unless it ends in a quote and no answer stands below it. */
  lemma {:induction false} AnswersCarried(g: Grammar, body: string, answers: map<int, string>, i: nat)
    requires Sound(g)
    ensures Parse(g, body).Some? && i < |Parse(g, body).value| ==>
      var q, out := Parse(g, body).value[i], Apply(g, body, answers, false);
      var answer := TrimSpace(if i in answers then answers[i] else q.answer);
      && out.Ok? && Parse(g, out.value).Some?
      && |Parse(g, out.value).value| == |Parse(g, body).value|
      && (answer != "" || !EndsInQuote(g, Entries(g, Split(body))[i].textLines) ==>
            Parse(g, out.value).value[i] == Question(i, q.text, answer))
  {
    if HasQuestions(g, body) && i < |Parse(g, body).value| {
      var es := Entries(g, Split(body));
      Rewrites(g, body, answers);
      EntriesAreEntries(g, Split(body));
      QuestionReadsBack(g, es[i], FinalAnswer(es[i], i, answers), i);
    }
  }

  /** A question as it is written by hand, with further lines of text and an answer below a blank line,
      is read as it was meant. */
  lemma WrittenQuestionParses(g: Grammar, item: string, more: seq<string>, ls: seq<string>)
    requires Sound(g) && g.isItem(item) && NoneOf(more, g.isItem) && ls != []
    requires more != [] ==> !g.isBlank(more[|more| - 1])
    requires NoneOf([item] + more, g.isEnd) && Clean([item] + more) && Clean(ls)
    ensures Parse(g, Join([g.open, ""] + ([item] + more + [""] + Quoted(ls) + [""])))
            == Some([Question(0, TrimSpace(Join([g.rest(item)] + more)), TrimSpace(Join(ls)))])
  {
    var text := [item] + more;
    assert text[1..] == more && text[|text| - 1] == if more == [] then item else more[|more| - 1];
    WrittenChunk(g, text, ls);
    OneChunkParses(g, text + [""] + Quoted(ls) + [""]);
    AnsweredReadsBack(g, text, ls);
    assert Unmarked(g, text) == [g.rest(item)] + more;
  }

  /** A question of one line with an answer of one line. */
  function WrittenQuestion(item: string, answer: string): seq<string> {
    [item, "", "> " + answer, ""]
  }

  lemma WrittenLineParses(g: Grammar, item: string, answer: string)
    requires Sound(g) && g.isItem(item) && !g.isEnd(item) && !HasBreak(item) && !HasBreak(answer)
    ensures Parse(g, Join([g.open, ""] + WrittenQuestion(item, answer)))
            == Some([Question(0, TrimSpace(g.rest(item)), TrimSpace(answer))])
  {
    var rest := g.rest(item);
    NoneOfOne(item, g.isEnd);
    NoneOfOne(item, HasBreak);
    NoneOfOne(answer, HasBreak);
    assert [item] + [] == [item] && [rest] + [] == [rest];
    assert [item] + [""] + Quoted([answer]) + [""] == WrittenQuestion(item, answer);
    WrittenQuestionParses(g, item, [], [answer]);
  }

  lemma WrittenLineIsEntry(g: Grammar, item: string, answer: string)
    requires Sound(g) && g.isItem(item) && !g.isEnd(item) && !HasBreak(item) && !HasBreak(answer)
    ensures var lines := [g.open, ""] + WrittenQuestion(item, answer);
            && Split(Join(lines)) == lines && Entries(g, lines) == [Entry([item], TrimSpace(answer))]
            && HeadingIndex(g, lines) == 0 && SectionEnd(g, lines) == |lines|
  {
    var chunk := WrittenQuestion(item, answer);
    var lines := [g.open, ""] + chunk;
    NoneOfOne(item, g.isEnd);
    NoneOfOne(item, HasBreak);
    NoneOfOne(answer, HasBreak);
    assert [item] + [""] + Quoted([answer]) + [""] == chunk;
    WrittenChunk(g, [item], [answer]);
    OneChunk(g, chunk);
    AnsweredReadsBack(g, [item], [answer]);
    NoneOfTwo(g.open, "", HasBreak);
    NoneConcat([g.open, ""], chunk, HasBreak);
    SplitJoin(lines);
    FirstIndexIs(lines, g.isHeading, 0);
    NoneOfOne("", g.isEnd);
    SectionToTheEnd(g, lines, chunk);
  }

  lemma SectionToTheEnd(g: Grammar, lines: seq<string>, chunk: seq<string>)
    requires HeadingIndex(g, lines) == 0 && lines == [g.open, ""] + chunk && !g.isEnd("") && NoneOf(chunk, g.isEnd)
    ensures SectionEnd(g, lines) == |lines|
  {
    forall k | 0 < k < |lines|
      ensures !g.isEnd(lines[k])
    {
      assert k > 1 ==> lines[k] == chunk[k - 2];
    }
    EndIndexIs(lines, g.isHeading, g.isEnd, |lines|);
  }

  /** Answering writes a blank line and the answer as a quote in the place of the one that stood there,
      completing renames the heading, and nothing else changes. */
  lemma AnswerIsWritten(g: Grammar, item: string, before: string, answer: string, complete: bool)
    requires Sound(g) && g.isItem(item) && !g.isEnd(item) && !HasBreak(item) && !HasBreak(before)
    requires !HasBreak(answer) && TrimSpace(answer) == answer && answer != ""
    ensures Apply(g, Join([g.open, ""] + WrittenQuestion(item, before)), map[0 := answer], complete)
            == Ok(Join([if complete then g.resolved else g.open, ""] + WrittenQuestion(item, answer)))
  {
    var lines := [g.open, ""] + WrittenQuestion(item, before);
    var es := [Entry([item], TrimSpace(before))];
    var heading := if complete then g.resolved else g.open;
    WrittenLineIsEntry(g, item, before);
    BlankIff(answer);
    WrittenLineChunks(item, TrimSpace(before), answer);
    assert es[0] == Entry([item], TrimSpace(before));
    assert AllAnswered(es, map[0 := answer]);
    WholeIsReplaced(g, lines, heading, WrittenQuestion(item, answer));
  }

  lemma WrittenLineChunks(item: string, before: string, answer: string)
    requires !HasBreak(answer) && TrimSpace(answer) == answer && answer != ""
    ensures Flatten(AnsweredChunks([Entry([item], before)], map[0 := answer])) == WrittenQuestion(item, answer)
  {
    var cs := AnsweredChunks([Entry([item], before)], map[0 := answer]);
    EntryLinesAre([item], answer);
    SplitLine(answer);
    assert cs[0] == EntryLines([item], answer) == WrittenQuestion(item, answer);
    assert cs == [cs[0]];
    assert Flatten(cs) == cs[0] + Flatten([]);
  }

  lemma WholeIsReplaced(g: Grammar, lines: seq<string>, heading: string, section: seq<string>)
    requires |lines| > 0 && HeadingIndex(g, lines) == 0 && SectionEnd(g, lines) == |lines|
    ensures Rewritten(g, lines, heading, section) == [heading, ""] + section
  {
    assert lines[..0] == [] && lines[|lines|..] == [];
  }

  lemma OneChunkParses(g: Grammar, chunk: seq<string>)
    requires Sound(g) && IsChunk(g, chunk) && NoneOf(chunk, g.isEnd) && Clean(chunk)
    ensures Parse(g, Join([g.open, ""] + chunk)) == Some([QuestionOf(g, EntryOf(g, chunk), 0)])
  {
    OneChunk(g, chunk);
    NoneOfTwo(g.open, "", HasBreak);
    NoneConcat([g.open, ""], chunk, HasBreak);
    SplitJoin([g.open, ""] + chunk);
    var es := Entries(g, [g.open, ""] + chunk);
    assert Questions(g, es) == [QuestionOf(g, es[0], 0)];
  }

  lemma WrittenChunk(g: Grammar, text: seq<string>, ls: seq<string>)
    requires Sound(g) && IsChunk(g, text) && NoneOf(text, g.isEnd) && Clean(text) && Clean(ls)
    ensures var chunk := text + [""] + Quoted(ls) + [""];
            IsChunk(g, chunk) && NoneOf(chunk, g.isEnd) && Clean(chunk)
  {
    QuotedLines(g, ls);
    NoneOfOne("", g.isItem);
    NoneOfOne("", g.isEnd);
    NoneOfOne("", HasBreak);
    QuotesHaveNoBreak();
    assert NoneOf(Quoted(ls), HasBreak);
    GroupExtend(text, [""], g.isItem);
    GroupExtend(text + [""], Quoted(ls), g.isItem);
    GroupExtend(text + [""] + Quoted(ls), [""], g.isItem);
    NoneConcat(text, [""], g.isEnd);
    NoneConcat(text + [""], Quoted(ls), g.isEnd);
    NoneConcat(text + [""] + Quoted(ls), [""], g.isEnd);
    NoneConcat(text, [""], HasBreak);
    NoneConcat(text + [""], Quoted(ls), HasBreak);
    NoneConcat(text + [""] + Quoted(ls), [""], HasBreak);
  }

  // ----- answering twice -----

  /** Reading the text and writing what was read, an answer at its end included, gives the same lines. */
  predicate WrittenAsRead(g: Grammar, textLines: seq<string>) {
    var e := EntryOf(g, textLines + [""]);
    e.textLines + Written(e.answer) == textLines
  }

  /** The lines are some text, a blank line and the quoted lines of a trimmed answer. */
  predicate TextAndAnswer(g: Grammar, lines: seq<string>, text: seq<string>, answer: string) {
    && text != [] && !g.isBlank(text[|text| - 1])
    && answer != "" && TrimSpace(answer) == answer
    && lines == text + [""] + Quoted(Split(answer))
  }

  ghost predicate EndsInAnswer(g: Grammar, lines: seq<string>) {
    exists text, answer :: TextAndAnswer(g, lines, text, answer)
  }

  lemma WrittenHasShape(g: Grammar, text: seq<string>, answer: string)
    requires text != [] && !g.isBlank(text[|text| - 1]) && Written(answer) != []
    ensures EndsInAnswer(g, text + Written(answer))
  {
    var a := TrimSpace(answer);
    TrimSpaceIdempotent(answer);
    SameConcat(text, [""], Quoted(Split(a)));
    assert TextAndAnswer(g, text + Written(answer), text, a);
  }

  lemma ShedTextIsEntry(g: Grammar, lines: seq<string>)
    requires Sound(g) && IsChunk(g, lines) && !g.isBlank(lines[|lines| - 1]) && EndsInQuote(g, lines)
    ensures var e := EntryOf(g, lines + [""]);
            e.textLines != [] && !g.isBlank(e.textLines[|e.textLines| - 1]) && |e.textLines| < |lines|
  {
    EntrySheds(g, lines);
    NoneOfOne("", g.isItem);
    GroupExtend(lines, [""], g.isItem);
    EntryOfIsEntry(g, lines + [""]);
  }

  lemma AnswerIsWrittenAsRead(g: Grammar, lines: seq<string>, text: seq<string>, answer: string)
    requires Sound(g) && TextAndAnswer(g, lines, text, answer)
    ensures WrittenAsRead(g, lines)
  {
    AnsweredReadsBack(g, text, Split(answer));
    JoinSplit(answer);
    TrimmedIsWritten(answer);
    SameConcat(text, [""], Quoted(Split(answer)));
  }

  lemma TrimmedIsWritten(answer: string)
    requires answer != "" && TrimSpace(answer) == answer
    ensures Written(answer) == [""] + Quoted(Split(answer))
  {
  }

  lemma SameConcat<T>(a: seq<T>, b: seq<T>, c: seq<T>)
    ensures a + (b + c) == a + b + c
  {
  }

  /** Among the texts that end in a quote, those that end as an answer is written are written again
      as they were read. */
  lemma WrittenAsReadIff(g: Grammar, lines: seq<string>)
    requires Sound(g) && IsEntry(g, Entry(lines, "")) && EndsInQuote(g, lines)
    ensures WrittenAsRead(g, lines) <==> EndsInAnswer(g, lines)
  {
    if WrittenAsRead(g, lines) {
      var e := EntryOf(g, lines + [""]);
      ShedTextIsEntry(g, lines);
      WrittenHasShape(g, e.textLines, e.answer);
    }
    if EndsInAnswer(g, lines) {
      var text, answer :| TextAndAnswer(g, lines, text, answer);
      AnswerIsWrittenAsRead(g, lines, text, answer);
    }
  }

  /** An entry is settled when an answer is written below it, when its text does not end in a quote, or
      when the text ends as an answer is written and none was given for it. */
  ghost predicate Settled(g: Grammar, e: Entry, index: nat, answers: map<int, string>) {
    KeepsText(g, e, FinalAnswer(e, index, answers)) || (index !in answers && EndsInAnswer(g, e.textLines))
  }

  ghost predicate AllSettled(g: Grammar, es: seq<Entry>, answers: map<int, string>) {
    forall i :: 0 <= i < |es| ==> Settled(g, es[i], i, answers)
  }

  lemma EntrySettles(g: Grammar, e: Entry, index: nat, answers: map<int, string>)
    requires Sound(g)
    requires IsEntry(g, e)
    ensures var chunk := EntryLines(e.textLines, FinalAnswer(e, index, answers));
            var back := EntryOf(g, chunk);
            EntryLines(back.textLines, FinalAnswer(back, index, answers)) == chunk <==> Settled(g, e, index, answers)
  {
    var answer := FinalAnswer(e, index, answers);
    if KeepsText(g, e, answer) {
      EntryReadsBack(g, e.textLines, answer);
      TrimSpaceIdempotent(answer);
    } else {
      assert EntryLines(e.textLines, answer) == e.textLines + [""];
      SheddingSettles(g, e, index, answers);
    }
  }

  lemma {:induction false} SheddingSettles(g: Grammar, e: Entry, index: nat, answers: map<int, string>)
    requires Sound(g)
    requires IsEntry(g, e) && !KeepsText(g, e, FinalAnswer(e, index, answers))
    ensures var back := EntryOf(g, e.textLines + [""]);
            EntryLines(back.textLines, FinalAnswer(back, index, answers)) == e.textLines + [""]
            <==> index !in answers && EndsInAnswer(g, e.textLines)
  {
    WrittenAsReadIff(g, e.textLines);
    var back := EntryOf(g, e.textLines + [""]);
    var written := back.textLines + Written(FinalAnswer(back, index, answers));
    SameAppended(written, e.textLines, [""]);
    if index in answers {
      EntrySheds(g, e.textLines);
      assert |written| == |back.textLines|;
    }
  }

  lemma ChunksSettle(g: Grammar, es: seq<Entry>, answers: map<int, string>)
    requires Sound(g)
    requires AreEntries(g, es)
    ensures AnsweredChunks(EntriesOf(g, AnsweredChunks(es, answers)), answers) == AnsweredChunks(es, answers)
            <==> AllSettled(g, es, answers)
  {
    var cs := AnsweredChunks(es, answers);
    var again := AnsweredChunks(EntriesOf(g, cs), answers);
    forall i | 0 <= i < |es|
      ensures again[i] == cs[i] <==> Settled(g, es[i], i, answers)
    {
      EntrySettles(g, es[i], i, answers);
    }
    assert again == cs <==> forall i :: 0 <= i < |es| ==> again[i] == cs[i];
  }

  /** Answering succeeds, and answering the result the same way gives it again, byte for byte. */
  predicate SameTwice(g: Grammar, body: string, answers: map<int, string>) {
    var out := Apply(g, body, answers, false);
    out.Ok? && Apply(g, out.value, answers, false) == out
  }

  /** Applying the same answers twice gives the same bytes, exactly when every entry is settled. */
  lemma {:induction false} Idempotent(g: Grammar, body: string, answers: map<int, string>)
    requires Sound(g)
    ensures SameTwice(g, body, answers) <==> AllSettled(g, Entries(g, Split(body)), answers)
  {
    if HasQuestions(g, body) {
      AnsweredTwice(g, body, answers);
    }
  }

  lemma {:induction false} AnsweredTwice(g: Grammar, body: string, answers: map<int, string>)
    requires Sound(g) && HasQuestions(g, body)
    ensures SameTwice(g, body, answers) <==> AllSettled(g, Entries(g, Split(body)), answers)
  {
    var es := Entries(g, Split(body));
    var cs := AnsweredChunks(es, answers);
    var out := Apply(g, body, answers, false).value;
    var doc := Split(out);
    Rewrites(g, body, answers);
    EntriesAreEntries(g, Split(body));
    var again := AnsweredChunks(EntriesOf(g, cs), answers);
    Rewrites(g, out, answers);
    WrittenChunks(g, doc, answers);
    WrittenChunks(g, Split(body), answers);
    SameFlatten(g, again, cs);
    SameSection(g, doc, again, cs);
    SameText(Apply(g, out, answers, false).value, out);
    ChunksSettle(g, es, answers);
  }

  lemma SameText(a: string, b: string)
    ensures a == b <==> Split(a) == Split(b)
  {
    JoinSplit(a);
    JoinSplit(b);
  }

  lemma SameFlatten(g: Grammar, a: seq<seq<string>>, b: seq<seq<string>>)
    requires Sound(g)
    requires AreGroups(a, g.isItem) && AreGroups(b, g.isItem)
    ensures Flatten(a) == Flatten(b) <==> a == b
  {
    GroupsOfFlatten([], a, g.isItem);
    GroupsOfFlatten([], b, g.isItem);
  }

  lemma SameSection(g: Grammar, doc: seq<string>, again: seq<seq<string>>, cs: seq<seq<string>>)
    requires Sound(g)
    requires HeadingIndex(g, doc) < |doc| && doc[HeadingIndex(g, doc)] == g.open
    requires Section(g, doc) == [""] + Flatten(cs)
    ensures Rewritten(g, doc, g.open, Flatten(again)) == doc <==> Flatten(again) == Flatten(cs)
  {
    ReplaceSame(doc, g.open, [""] + Flatten(again), g.isHeading, g.isEnd);
    SamePrepended([""], Flatten(again), Flatten(cs));
  }

  /** A document whose only question is the item line followed by a quote, answered. */
  function QuoteAboveAnswer(g: Grammar, item: string, quoted: string, answer: string): seq<string> {
    [g.open, ""] + EntryLines([item, Quote(quoted)], answer)
  }

  /** A section of one chunk is read as one entry. */
  lemma OneChunk(g: Grammar, chunk: seq<string>)
    requires Sound(g) && IsChunk(g, chunk) && NoneOf(chunk, g.isEnd)
    ensures Entries(g, [g.open, ""] + chunk) == [EntryOf(g, chunk)]
  {
    var cs := [chunk];
    assert Flatten(cs) == chunk + Flatten([]) == chunk;
    FirstIndexIs([g.open], g.isHeading, 0);
    RewrittenReadsBack(g, [g.open], cs);
    OnlyLineReplaced(g, chunk);
  }

  lemma OnlyLineReplaced(g: Grammar, chunk: seq<string>)
    requires HeadingIndex(g, [g.open]) == 0
    ensures Rewritten(g, [g.open], g.open, chunk) == [g.open, ""] + chunk
  {
  }

  lemma QuotedItemIsChunk(g: Grammar, item: string, quoted: string)
    requires Sound(g) && g.isItem(item) && !g.isEnd(item)
    ensures var text := [item, Quote(quoted)];
            IsChunk(g, text) && NoneOf(text, g.isEnd) && EndsInQuote(g, text) && !g.isBlank(text[1])
  {
    assert ReadsAsQuote(g, quoted);
    assert [item, Quote(quoted)][1..] == [Quote(quoted)];
  }

  lemma QuoteAboveAnswerReadsBack(g: Grammar, item: string, quoted: string, answer: string)
    requires Sound(g) && g.isItem(item) && !g.isEnd(item) && TrimSpace(answer) != ""
    ensures Entries(g, QuoteAboveAnswer(g, item, quoted, answer)) == [Entry([item, Quote(quoted)], TrimSpace(answer))]
  {
    var text := [item, Quote(quoted)];
    QuotedItemIsChunk(g, item, quoted);
    QuotesAvoid(g);
    EntryLinesAreChunk(g, text, answer);
    EntryLinesAvoid(text, answer, g.isEnd);
    OneChunk(g, EntryLines(text, answer));
    EntryReadsBack(g, text, answer);
  }

  lemma QuotesHaveNoBreak()
    ensures forall l :: !HasBreak(l) ==> !HasBreak(Quote(l))
  {
  }

  lemma NoneOfTwo(a: string, b: string, p: string -> bool)
    requires !p(a) && !p(b)
    ensures NoneOf([a, b], p)
  {
  }

  lemma QuoteAboveAnswerIsClean(g: Grammar, item: string, quoted: string, answer: string)
    requires !HasBreak(g.open) && !HasBreak(item) && !HasBreak(quoted)
    ensures Clean(QuoteAboveAnswer(g, item, quoted, answer))
  {
    QuotesHaveNoBreak();
    NoneOfTwo(item, Quote(quoted), HasBreak);
    NoneOfTwo(g.open, "", HasBreak);
    EntryLinesAvoid([item, Quote(quoted)], answer, HasBreak);
    NoneConcat([g.open, ""], EntryLines([item, Quote(quoted)], answer), HasBreak);
  }

  /** Below a question text that ends in a quote the answer is cleared. */
  ghost predicate ClearsQuoted(g: Grammar, es: seq<Entry>, answers: map<int, string>) {
    exists i :: 0 <= i < |es| && EndsInQuote(g, es[i].textLines) && i in answers && TrimSpace(answers[i]) == ""
  }

  /** The conditions are needed: clearing the answer below a question text that ends in a quote, in
      any body and whatever else is answered, loses the quote, and doing it again gives other bytes. */
  lemma {:induction false} ClearingTwiceDiffers(g: Grammar, body: string, answers: map<int, string>)
    requires Sound(g)
    ensures ClearsQuoted(g, Entries(g, Split(body)), answers) ==>
      !SameTwice(g, body, answers) && !Kept(g, body, answers)
  {
    var es := Entries(g, Split(body));
    if ClearsQuoted(g, es, answers) {
      Idempotent(g, body, answers);
      PutGet(g, body, answers);
      var i :| 0 <= i < |es| && EndsInQuote(g, es[i].textLines) && i in answers && TrimSpace(answers[i]) == "";
      assert !KeepsText(g, es[i], FinalAnswer(es[i], i, answers)) && !Settled(g, es[i], i, answers);
    }
  }

  lemma QuoteAboveAnswerSheds(g: Grammar, item: string, quoted: string, answer: string)
    requires Sound(g) && g.isItem(item) && !g.isEnd(item) && TrimSpace(answer) != ""
    requires !HasBreak(item) && !HasBreak(quoted)
    ensures var body := Join(QuoteAboveAnswer(g, item, quoted, answer));
            !SameTwice(g, body, map[0 := ""]) && !Kept(g, body, map[0 := ""])
  {
    var doc := QuoteAboveAnswer(g, item, quoted, answer);
    QuoteAboveAnswerIsClean(g, item, quoted, answer);
    SplitJoin(doc);
    QuoteAboveAnswerReadsBack(g, item, quoted, answer);
    QuotedItemIsChunk(g, item, quoted);
    assert EndsInQuote(g, Entries(g, Split(Join(doc)))[0].textLines);
    ClearingTwiceDiffers(g, Join(doc), map[0 := ""]);
  }

  // ----- completing -----

  /** No line kept by completion is itself an open-questions heading. */
  predicate OnlyHeading(g: Grammar, lines: seq<string>)
    requires HeadingIndex(g, lines) < |lines|
  {
    TextsAvoid(Entries(g, lines), g.isHeading) && NoneOf(lines[SectionEnd(g, lines)..], g.isHeading)
  }

  lemma ChunksHeading(g: Grammar, es: seq<Entry>, answers: map<int, string>)
    requires Sound(g)
    ensures NoneOf(Flatten(AnsweredChunks(es, answers)), g.isHeading) <==> TextsAvoid(es, g.isHeading)
  {
    var cs := AnsweredChunks(es, answers);
    QuotesAvoid(g);
    forall i | 0 <= i < |es|
      ensures NoneOf(cs[i], g.isHeading) <==> NoneOf(es[i].textLines, g.isHeading)
    {
      EntryLinesAvoid(es[i].textLines, FinalAnswer(es[i], i, answers), g.isHeading);
    }
    FlattenElements(cs, g.isHeading);
  }

  lemma RewrittenAvoids(g: Grammar, lines: seq<string>, heading: string, section: seq<string>, bad: string -> bool)
    requires HeadingIndex(g, lines) < |lines| && NoneOf(lines[..HeadingIndex(g, lines)], bad)
    requires !bad(heading) && !bad("")
    ensures NoneOf(Rewritten(g, lines, heading, section), bad)
            <==> NoneOf(section, bad) && NoneOf(lines[SectionEnd(g, lines)..], bad)
  {
    assert NoneOf([""], bad);
    NoneConcat([""], section, bad);
    ReplaceAvoids(lines, heading, [""] + section, g.isHeading, g.isEnd, bad);
  }

  lemma NoHeadingBefore(g: Grammar, lines: seq<string>)
    ensures NoneOf(lines[..HeadingIndex(g, lines)], g.isHeading)
  {
  }

  /** Completion succeeds exactly when every question is answered; a body without questions is
      returned as it is. After it no open-questions heading is left, exactly when there were questions
      below the only one kept, or there was no heading at all. */
  lemma Completed(g: Grammar, body: string, answers: map<int, string>)
    requires Sound(g)
    ensures var out := Apply(g, body, answers, true);
            var lines := Split(body);
            && (out.Ok? <==> AllAnswered(Entries(g, lines), answers))
            && (out.Ok? && !HasQuestions(g, body) ==> out == Ok(body))
            && (out.Ok? ==> (NoneOf(Split(out.value), g.isHeading) <==> OnlyAnsweredHeading(g, body)))
  {
    var lines := Split(body);
    if HasQuestions(g, body) && AllAnswered(Entries(g, lines), answers) {
      RewritesLines(g, body, answers, true);
      NoHeadingBefore(g, lines);
      ChunksHeading(g, Entries(g, lines), answers);
      RewrittenAvoids(g, lines, g.resolved, Flatten(AnsweredChunks(Entries(g, lines), answers)), g.isHeading);
    }
  }

  lemma AnsweredKeepTexts(g: Grammar, es: seq<Entry>, answers: map<int, string>)
    requires AllAnswered(es, answers)
    ensures AllKeepText(g, es, answers)
  {
    forall i | 0 <= i < |es|
      ensures KeepsText(g, es[i], FinalAnswer(es[i], i, answers))
    {
      BlankIff(FinalAnswer(es[i], i, answers));
    }
  }

  /** Completing loses no answer and no question, quotes included: what stands under the resolved heading
      is read as the same questions with their final answers. */
  lemma CompletedReadsBack(g: Grammar, body: string, answers: map<int, string>)
    requires Sound(g)
    ensures var lines, out := Split(body), Apply(g, body, answers, true);
            var h := HeadingIndex(g, lines);
            HasQuestions(g, body) && out.Ok? ==>
              && h < |Split(out.value)| && Split(out.value)[h] == g.resolved
              && Questions(g, EntriesOf(g, Chunks(g, SectionAt(Split(out.value), h, g.isEnd))))
                 == Answered(g, Entries(g, lines), answers)
  {
    var lines := Split(body);
    var es := Entries(g, lines);
    if HasQuestions(g, body) && AllAnswered(es, answers) {
      RewritesLines(g, body, answers, true);
      ResolvedSection(g, lines, answers);
      EntriesAreEntries(g, lines);
      AnsweredKeepTexts(g, es, answers);
      QuestionsReadBack(g, es, answers);
    }
  }

  lemma ResolvedSection(g: Grammar, lines: seq<string>, answers: map<int, string>)
    requires Sound(g) && Clean(lines) && HeadingIndex(g, lines) < |lines|
    ensures var h, cs := HeadingIndex(g, lines), AnsweredChunks(Entries(g, lines), answers);
            var after := Rewritten(g, lines, g.resolved, Flatten(cs));
            && h < |after| && after[h] == g.resolved
            && Chunks(g, SectionAt(after, h, g.isEnd)) == cs
  {
    var cs := AnsweredChunks(Entries(g, lines), answers);
    WrittenChunks(g, lines, answers);
    FlattenElements(cs, g.isEnd);
    NoneOfOne("", g.isEnd);
    NoneConcat([""], Flatten(cs), g.isEnd);
    ReplacedSection(lines, g.resolved, [""] + Flatten(cs), g.isHeading, g.isEnd);
    ChunksReadBack(g, cs);
  }

  predicate OnlyAnsweredHeading(g: Grammar, body: string) {
    var lines := Split(body);
    HeadingIndex(g, lines) == |lines| || (HasQuestions(g, body) && OnlyHeading(g, lines))
  }

  lemma NoHeadingNoQuestions(g: Grammar, body: string)
    requires Sound(g)
    requires NoneOf(Split(body), g.isHeading)
    ensures !HasOpenQuestions(g, body) && Parse(g, body) == None
    ensures forall answers, complete :: Apply(g, body, answers, complete) == Ok(body)
  {
    FirstIndexIs(Split(body), g.isHeading, |Split(body)|);
  }

  predicate OneHeadingAtMost(g: Grammar, body: string) {
    var lines := Split(body);
    forall i :: HeadingIndex(g, lines) < i < |lines| ==> !g.isHeading(lines[i])
  }

  /** With a single open-questions heading, completing leaves nothing to parse or to answer; it leaves
      nothing open exactly when there were questions, or nothing was open before. */
  lemma CompletionResolves(g: Grammar, body: string, answers: map<int, string>)
    requires Sound(g) && OneHeadingAtMost(g, body)
    ensures var out := Apply(g, body, answers, true);
            out.Ok? ==>
              && (!HasOpenQuestions(g, out.value) <==> HasQuestions(g, body) || !HasOpenQuestions(g, body))
              && Parse(g, out.value) == None
              && (forall again, complete :: Apply(g, out.value, again, complete) == out)
  {
    var out := Apply(g, body, answers, true);
    if HasQuestions(g, body) && out.Ok? {
      SingleHeading(g, Split(body));
      Completed(g, body, answers);
      NoHeadingNoQuestions(g, out.value);
    }
  }

  /** A body asks something exactly when a line between the first heading and the next second-level
      heading is a real question. */
  lemma OpenMeans(g: Grammar, body: string, before: seq<string>, heading: string, middle: seq<string>,
    after: seq<string>)
    requires Split(body) == before + [heading] + middle + after
    requires NoneOf(before, g.isHeading) && g.isHeading(heading) && NoneOf(middle, g.isEnd)
    requires after != [] ==> g.isEnd(after[0])
    ensures HasOpenQuestions(g, body) <==> Occurs(middle, 0, |middle|, g.isReal)
  {
    var lines := Split(body);
    SectionFound(g, lines, before, heading, middle, after);
    OpenBetween(g, body, lines, |before| + 1 + |middle|);
    RealShifts(lines, before, heading, middle, after, g.isReal);
  }

  ghost predicate Occurs<T>(s: seq<T>, from: nat, to: nat, p: T -> bool)
    requires to <= |s|
  {
    exists k :: from <= k < to && p(s[k])
  }

  lemma SectionFound(g: Grammar, lines: seq<string>, before: seq<string>, heading: string, middle: seq<string>,
    after: seq<string>)
    requires NoneOf(before, g.isHeading) && g.isHeading(heading) && NoneOf(middle, g.isEnd)
    requires (after != [] ==> g.isEnd(after[0])) && lines == before + [heading] + middle + after
    ensures HeadingIndex(g, lines) == |before| < |lines| && SectionEnd(g, lines) == |before| + 1 + |middle|
  {
    SectionStands(before, heading, middle, after);
    FirstIndexIs(lines, g.isHeading, |before|);
    EndIndexIs(lines, g.isHeading, g.isEnd, |before| + 1 + |middle|);
  }

  lemma OpenBetween(g: Grammar, body: string, lines: seq<string>, end: nat)
    requires Split(body) == lines && HeadingIndex(g, lines) < |lines| && SectionEnd(g, lines) == end
    ensures HasOpenQuestions(g, body) <==> Occurs(lines, HeadingIndex(g, lines) + 1, end, g.isReal)
  {
  }

  lemma SectionStands<T>(before: seq<T>, heading: T, middle: seq<T>, after: seq<T>)
    ensures var lines, h, end := before + [heading] + middle + after, |before|, |before| + 1 + |middle|;
            && (forall k :: 0 <= k < h ==> lines[k] == before[k]) && lines[h] == heading
            && (forall k :: h < k < end ==> lines[k] == middle[k - h - 1])
            && (after != [] ==> lines[end] == after[0])
            && |lines| == end + |after|
  {
  }

  lemma RealShifts<T>(lines: seq<T>, before: seq<T>, heading: T, middle: seq<T>, after: seq<T>, p: T -> bool)
    requires lines == before + [heading] + middle + after
    ensures Occurs(lines, |before| + 1, |before| + 1 + |middle|, p) <==> Occurs(middle, 0, |middle|, p)
  {
    SectionStands(before, heading, middle, after);
    if k :| 0 <= k < |middle| && p(middle[k]) {
      assert p(lines[|before| + 1 + k]);
    }
  }

  /** The condition is needed: below a heading without list items a line that is a real question stays
      open, while completing reports success and changes nothing. */
  lemma ProseStaysOpen(g: Grammar, line: string, answers: map<int, string>)
    requires Sound(g) && g.isReal(line) && !HasBreak(line)
    requires !g.isItem(line) && !g.isEnd(line) && !g.isHeading(line)
    ensures var body := Join([g.open, line]);
            OneHeadingAtMost(g, body) && Apply(g, body, answers, true) == Ok(body) && HasOpenQuestions(g, body)
  {
    var lines := [g.open, line];
    NoneOfTwo(g.open, line, HasBreak);
    SplitJoin(lines);
    FirstIndexIs(lines, g.isHeading, 0);
    EndIndexIs(lines, g.isHeading, g.isEnd, 2);
    assert Section(g, lines) == [line];
    FirstIndexIs([line], g.isItem, 1);
    assert Chunks(g, [line]) == [];
    assert g.isReal(lines[1]);
  }

  lemma SingleHeading(g: Grammar, lines: seq<string>)
    requires HeadingIndex(g, lines) < |lines|
    requires forall i :: HeadingIndex(g, lines) < i < |lines| ==> !g.isHeading(lines[i])
    ensures OnlyHeading(g, lines)
  {
    var h, end := HeadingIndex(g, lines), SectionEnd(g, lines);
    assert NoneOf(lines[end..], g.isHeading) by {
      NoneAfter(lines, h + 1, end, |lines|, g.isHeading);
    }
    assert NoneOf(Section(g, lines), g.isHeading) by {
      NoneAfter(lines, h + 1, h + 1, end, g.isHeading);
    }
    EntryTextsAvoid(g, lines, g.isHeading);
  }

  lemma NoneAfter(lines: seq<string>, from: nat, lo: nat, hi: nat, bad: string -> bool)
    requires from <= lo <= hi <= |lines|
    requires forall i :: from <= i < |lines| ==> !bad(lines[i])
    ensures NoneOf(lines[lo..hi], bad)
    ensures NoneOf(lines[lo..], bad)
  {
  }
}
