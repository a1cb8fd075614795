/** The loops of internal/artifact/questions.go and of HasOpenQuestions, each proved to compute
    the function of OpenQuestions that specifies it. */
module QuestionLoops {
  import opened Results
  import opened Text
  import opened Cutting
  import opened OpenQuestions

  method LocateOpenQuestionsSection(g: Grammar, lines: seq<string>) returns (headingIdx: int, sectionEnd: int)
    ensures if HeadingIndex(g, lines) < |lines|
            then headingIdx == HeadingIndex(g, lines) && sectionEnd == SectionEnd(g, lines)
            else headingIdx == sectionEnd == -1
  {
    headingIdx := Find(lines, 0, g.isHeading);
    FirstIndexIs(lines, g.isHeading, headingIdx);
    if headingIdx == |lines| {
      return -1, -1;
    }
    sectionEnd := Find(lines, headingIdx + 1, g.isEnd);
    EndIndexIs(lines, g.isHeading, g.isEnd, sectionEnd);
  }

  method SplitEntry(g: Grammar, chunk: seq<string>) returns (e: Entry)
    ensures e == EntryOf(g, chunk)
  {
    var end := TrailingRun(chunk, g.isBlank);
    var entry := chunk[..end];
    var answerStart := TrailingRun(entry, g.isQuote);
    var answer := "";
    if answerStart < |entry| {
      var answerLines := UnquoteAll(g, entry[answerStart..]);
      answer := TrimSpace(Join(answerLines));
      entry := entry[..answerStart];
      end := TrailingRun(entry, g.isBlank);
      entry := entry[..end];
    }
    e := Entry(entry, answer);
  }

  method UnquoteAll(g: Grammar, lines: seq<string>) returns (answerLines: seq<string>)
    ensures answerLines == Unquoted(g, lines)
  {
    answerLines := [];
    for i := 0 to |lines|
      invariant answerLines == Unquoted(g, lines[..i])
    {
      MapStep(g.unquote, lines, i);
      answerLines := answerLines + [g.unquote(lines[i])];
    }
    assert lines[..|lines|] == lines;
  }

  method SplitQuestionEntries(g: Grammar, section: seq<string>) returns (entries: seq<Entry>)
    ensures entries == EntriesOf(g, Chunks(g, section))
  {
    var chunks := CutAll(section, g.isItem);
    entries := [];
    for qi := 0 to |chunks|
      invariant entries == Map(EntryReader(g), chunks[..qi])
    {
      var e := SplitEntry(g, chunks[qi]);
      MapStep(EntryReader(g), chunks, qi);
      entries := entries + [e];
    }
    assert chunks[..|chunks|] == chunks;
  }

  /** The part ParseOpenQuestions and ApplyAnswers share: find the section, then split it. */
  method ReadSection(g: Grammar, lines: seq<string>) returns (headingIdx: int, sectionEnd: int, entries: seq<Entry>)
    ensures entries == Entries(g, lines)
    ensures entries != [] ==> headingIdx == HeadingIndex(g, lines) < |lines| && sectionEnd == SectionEnd(g, lines)
  {
    headingIdx, sectionEnd := LocateOpenQuestionsSection(g, lines);
    EntriesInSection(g, lines);
    if headingIdx == -1 {
      entries := [];
    } else {
      var section := lines[headingIdx + 1..sectionEnd];
      assert section == Section(g, lines);
      entries := SplitQuestionEntries(g, section);
    }
  }

  lemma EntriesInSection(g: Grammar, lines: seq<string>)
    ensures Entries(g, lines) == if HeadingIndex(g, lines) == |lines| then []
                                 else EntriesOf(g, Chunks(g, Section(g, lines)))
  {
  }

  method ParseOpenQuestions(g: Grammar, body: string) returns (result: Option<seq<Question>>)
    requires Sound(g)
    ensures result == Parse(g, body)
  {
    var lines := Split(body);
    var headingIdx, sectionEnd, entries := ReadSection(g, lines);
    if entries == [] {
      return None;
    }
    EntriesHaveText(g, lines);
    var questions := AskAll(g, entries);
    result := Some(questions);
  }

  lemma EntriesHaveText(g: Grammar, lines: seq<string>)
    requires Sound(g)
    ensures forall i :: 0 <= i < |Entries(g, lines)| ==> Entries(g, lines)[i].textLines != []
  {
    EntriesAreEntries(g, lines);
    assert forall i :: 0 <= i < |Entries(g, lines)| ==> IsEntry(g, Entries(g, lines)[i]);
  }

  method Ask(g: Grammar, e: Entry, index: nat) returns (q: Question)
    requires e.textLines != []
    ensures q == QuestionOf(g, e, index)
  {
    var text := e.textLines;
    text := text[0 := g.rest(text[0])];
    SetFirst(e.textLines, g.rest(e.textLines[0]));
    q := Question(index, TrimSpace(Join(text)), e.answer);
  }

  lemma SetFirst<T>(s: seq<T>, x: T)
    requires s != []
    ensures s[0 := x] == [x] + s[1..]
  {
  }

  method AskAll(g: Grammar, entries: seq<Entry>) returns (questions: seq<Question>)
    requires forall i :: 0 <= i < |entries| ==> entries[i].textLines != []
    ensures questions == Questions(g, entries)
  {
    questions := [];
    for qi := 0 to |entries|
      invariant questions == MapIndexed(Asker(g), entries[..qi])
    {
      var q := Ask(g, entries[qi], qi);
      MapIndexedStep(Asker(g), entries, qi);
      questions := questions + [q];
    }
    assert entries[..|entries|] == entries;
  }

  method FinalAnswers(entries: seq<Entry>, answers: map<int, string>) returns (finals: seq<string>)
    ensures |finals| == |entries|
    ensures forall i :: 0 <= i < |entries| ==> finals[i] == if i in answers then answers[i] else entries[i].answer
  {
    finals := [];
    for i := 0 to |entries|
      invariant |finals| == i && forall k :: 0 <= k < i ==> finals[k] == entries[k].answer
    {
      finals := finals + [entries[i].answer];
    }
    var keys := answers.Keys;
    while exists idx :: idx in keys
      invariant keys <= answers.Keys && |finals| == |entries|
      invariant forall i :: 0 <= i < |entries| ==>
        finals[i] == if i in answers && i !in keys then answers[i] else entries[i].answer
      decreases keys
    {
      var idx :| idx in keys;
      if 0 <= idx < |finals| {
        finals := finals[idx := answers[idx]];
      }
      keys := keys - {idx};
    }
  }

  method QuoteAll(answerLines: seq<string>) returns (quoted: seq<string>)
    ensures quoted == Quoted(answerLines)
  {
    quoted := [];
    for k := 0 to |answerLines|
      invariant quoted == Quoted(answerLines[..k])
    {
      MapStep(Quote, answerLines, k);
      quoted := quoted + [Quote(answerLines[k])];
    }
    assert answerLines[..|answerLines|] == answerLines;
  }

  method WriteEntry(textLines: seq<string>, final: string) returns (lines: seq<string>)
    ensures lines == textLines + Written(final)
  {
    lines := textLines;
    var ans := TrimSpace(final);
    if ans != "" {
      var quoted := QuoteAll(Split(ans));
      lines := lines + ([""] + quoted);
    }
  }

  /** The entries written out, separated by blank lines; ApplyAnswers adds the last blank line. */
  method Rebuild(entries: seq<Entry>, finals: seq<string>, ghost chunks: seq<seq<string>>)
    returns (rebuilt: seq<string>)
    requires |entries| == |finals| == |chunks| > 0
    requires forall i :: 0 <= i < |entries| ==> chunks[i] == EntryLines(entries[i].textLines, finals[i])
    ensures rebuilt + [""] == Flatten(chunks)
  {
    rebuilt := [];
    for i := 0 to |entries|
      invariant Flatten(chunks[..i]) == if i < |entries| then rebuilt else rebuilt + [""]
    {
      FlattenStep(chunks, i);
      var lines := WriteEntry(entries[i].textLines, finals[i]);
      AppendThenBlank(rebuilt, lines);
      rebuilt := rebuilt + lines;
      if i != |entries| - 1 {
        rebuilt := rebuilt + [""];
      }
    }
    assert chunks[..|entries|] == chunks;
  }

  lemma AppendThenBlank(a: seq<string>, b: seq<string>)
    ensures a + (b + [""]) == a + b + [""]
  {
  }

  method Incomplete(finals: seq<string>) returns (missing: bool)
    ensures missing <==> !NoneOf(finals, IsBlank)
  {
    missing := false;
    for i := 0 to |finals|
      invariant missing <==> !forall k :: 0 <= k < i ==> !IsBlank(finals[k])
    {
      BlankIff(finals[i]);
      if TrimSpace(finals[i]) == "" {
        missing := true;
      }
    }
  }

  method ApplyAnswers(g: Grammar, body: string, answers: map<int, string>, complete: bool)
    returns (result: Result<string, Error>)
    ensures result == Apply(g, body, answers, complete)
  {
    var lines := Split(body);
    var headingIdx, sectionEnd, entries := ReadSection(g, lines);
    if entries == [] {
      return Ok(body);
    }
    var finals := FinalAnswers(entries, answers);
    FinalsAreAnswers(entries, answers, finals);
    if complete {
      var missing := Incomplete(finals);
      if missing {
        return Err(IncompleteAnswers);
      }
    }
    var heading := if complete then g.resolved else g.open;
    var chunks := AnsweredChunks(entries, answers);
    var out := WriteSection(g, lines, headingIdx, sectionEnd, heading, entries, finals, chunks);
    result := Ok(Join(out));
  }

  lemma FinalsAreAnswers(entries: seq<Entry>, answers: map<int, string>, finals: seq<string>)
    requires |finals| == |entries|
    requires forall i :: 0 <= i < |entries| ==> finals[i] == if i in answers then answers[i] else entries[i].answer
    ensures forall i :: 0 <= i < |entries| ==>
      AnsweredChunks(entries, answers)[i] == EntryLines(entries[i].textLines, finals[i])
    ensures NoneOf(finals, IsBlank) <==> AllAnswered(entries, answers)
  {
    assert forall i :: 0 <= i < |entries| ==> finals[i] == FinalAnswer(entries[i], i, answers);
  }

  method WriteSection(g: Grammar, lines: seq<string>, headingIdx: nat, sectionEnd: nat, heading: string,
    entries: seq<Entry>, finals: seq<string>, ghost chunks: seq<seq<string>>) returns (out: seq<string>)
    requires headingIdx == HeadingIndex(g, lines) < |lines| && sectionEnd == SectionEnd(g, lines)
    requires |entries| == |finals| == |chunks| > 0
    requires forall i :: 0 <= i < |entries| ==> chunks[i] == EntryLines(entries[i].textLines, finals[i])
    ensures out == Rewritten(g, lines, heading, Flatten(chunks))
  {
    var rebuilt := Rebuild(entries, finals, chunks);
    out := lines[..headingIdx] + [heading, ""] + rebuilt + [""] + lines[sectionEnd..];
    OutIsRewritten(g, lines, heading, rebuilt);
  }

  lemma OutIsRewritten(g: Grammar, lines: seq<string>, heading: string, rebuilt: seq<string>)
    requires HeadingIndex(g, lines) < |lines|
    ensures lines[..HeadingIndex(g, lines)] + [heading, ""] + rebuilt + [""] + lines[SectionEnd(g, lines)..]
         == Rewritten(g, lines, heading, rebuilt + [""])
  {
    Reassociate(lines[..HeadingIndex(g, lines)], heading, "", rebuilt, lines[SectionEnd(g, lines)..]);
  }

  lemma Reassociate<T>(before: seq<T>, x: T, blank: T, middle: seq<T>, after: seq<T>)
    ensures before + [x, blank] + middle + [blank] + after == before + [x] + ([blank] + (middle + [blank])) + after
  {
  }

  method DetectOpenQuestions(g: Grammar, body: string) returns (sawRealQuestion: bool)
    ensures sawRealQuestion == HasOpenQuestions(g, body)
  {
    var lines := Split(body);
    sawRealQuestion := AnyInSection(lines, g.isHeading, g.isEnd, g.isReal);
  }
}
