/** The "## Open Questions" section of a Markdown body: parsing it into questions, writing answers
    back into it, and detecting whether it still asks something (internal/artifact/questions.go,
    HasOpenQuestions in internal/artifact/artifact.go).

    What a single line is (a heading, a list item, a quote) is a parameter here, the Grammar; the
    module Markdown defines the one the program uses and shows that it is sound. */
module OpenQuestions {
  import opened Results
  import opened Text
  import opened Cutting

  datatype Question = Question(index: nat, text: string, answer: string)

  /** One list item of the section: its text lines, marker included, and the answer under it. */
  datatype Entry = Entry(textLines: seq<string>, answer: string)

  datatype Error = IncompleteAnswers

  /** What the parser asks of a line, and the two headings the writer puts. */
  datatype Grammar = Grammar(
    open: string,
    resolved: string,
    isHeading: string -> bool,
    isEnd: string -> bool,
    isItem: string -> bool,
    isBlank: string -> bool,
    isQuote: string -> bool,
    isReal: string -> bool,
    rest: string -> string,
    unquote: string -> string)

  /** Items are neither blank nor quotes, what is written as an answer line is read as one and as
      nothing else, and the headings written are told apart. */
  ghost predicate Sound(g: Grammar) {
    && g.isHeading(g.open) && !g.isHeading(g.resolved)
    && !HasBreak(g.open) && !HasBreak(g.resolved)
    && g.isBlank("") && !g.isQuote("") && !g.isItem("") && !g.isEnd("") && !g.isHeading("")
    && (forall l :: g.isItem(l) ==> !g.isBlank(l) && !g.isQuote(l))
    && (forall l :: g.isQuote(l) ==> !g.isBlank(l) && Ink(l) > 0)
    && (forall l :: ReadsAsQuote(g, l))
  }

  ghost predicate ReadsAsQuote(g: Grammar, l: string) {
    var q := Quote(l);
    && g.isQuote(q) && !g.isItem(q) && !g.isEnd(q) && !g.isHeading(q)
    && g.unquote(q) == l
  }

  // ----- parsing -----

  function HeadingIndex(g: Grammar, lines: seq<string>): nat {
    FirstIndex(lines, g.isHeading)
  }

  /** The index of the first "## " line after the heading, or the number of lines. */
  function SectionEnd(g: Grammar, lines: seq<string>): (end: nat)
    requires HeadingIndex(g, lines) < |lines|
    ensures HeadingIndex(g, lines) < end <= |lines|
  {
    EndIndex(lines, g.isHeading, g.isEnd)
  }

  function Section(g: Grammar, lines: seq<string>): seq<string>
    requires HeadingIndex(g, lines) < |lines|
  {
    lines[HeadingIndex(g, lines) + 1..SectionEnd(g, lines)]
  }

  /** An item line and the lines up to the next item. */
  predicate IsChunk(g: Grammar, c: seq<string>) {
    IsGroup(c, g.isItem)
  }

  /** The section cut before every item line; what precedes the first item belongs to no chunk. */
  function Chunks(g: Grammar, section: seq<string>): seq<seq<string>> {
    Groups(section, g.isItem)
  }

  function Unquoted(g: Grammar, lines: seq<string>): (r: seq<string>)
    ensures |r| == |lines|
  {
    Map(g.unquote, lines)
  }

  /** Trailing blank lines go; a trailing run of quote lines is the answer. */
  function EntryOf(g: Grammar, chunk: seq<string>): Entry {
    var body := DropTrailing(chunk, g.isBlank);
    var text := DropTrailing(body, g.isQuote);
    if |text| < |body|
    then Entry(DropTrailing(text, g.isBlank), TrimSpace(Join(Unquoted(g, body[|text|..]))))
    else Entry(body, "")
  }

  function EntriesOf(g: Grammar, chunks: seq<seq<string>>): (es: seq<Entry>)
    ensures |es| == |chunks|
    ensures forall i :: 0 <= i < |chunks| ==> es[i] == EntryOf(g, chunks[i])
  {
    Map(EntryReader(g), chunks)
  }

  function EntryReader(g: Grammar): seq<string> -> Entry {
    (chunk: seq<string>) => EntryOf(g, chunk)
  }

  /** The entries of the open-questions section; none when there is no section or no item in it. */
  function Entries(g: Grammar, lines: seq<string>): seq<Entry> {
    if HeadingIndex(g, lines) == |lines| then [] else EntriesOf(g, Chunks(g, Section(g, lines)))
  }

  /** The text lines with the marker taken off the first. */
  function Unmarked(g: Grammar, textLines: seq<string>): seq<string> {
    if textLines == [] then [] else [g.rest(textLines[0])] + textLines[1..]
  }

  function QuestionText(g: Grammar, textLines: seq<string>): string {
    TrimSpace(Join(Unmarked(g, textLines)))
  }

  predicate IsEntry(g: Grammar, e: Entry) {
    IsChunk(g, e.textLines) && !g.isBlank(e.textLines[|e.textLines| - 1])
  }

  function QuestionOf(g: Grammar, e: Entry, index: nat): Question {
    Question(index, QuestionText(g, e.textLines), e.answer)
  }

  predicate AreEntries(g: Grammar, es: seq<Entry>) {
    forall i :: 0 <= i < |es| ==> IsEntry(g, es[i])
  }

  function Questions(g: Grammar, es: seq<Entry>): (qs: seq<Question>)
    ensures |qs| == |es|
    ensures forall i :: 0 <= i < |es| ==> qs[i] == QuestionOf(g, es[i], i)
  {
    MapIndexed(Asker(g), es)
  }

  function Asker(g: Grammar): (Entry, nat) -> Question {
    (e: Entry, i: nat) => QuestionOf(g, e, i)
  }

  function Parse(g: Grammar, body: string): Option<seq<Question>> {
    var es := Entries(g, Split(body));
    if es == [] then None else Some(Questions(g, es))
  }

  // ----- answering -----

  function FinalAnswer(e: Entry, index: nat, answers: map<int, string>): string {
    if index in answers then answers[index] else e.answer
  }

  /** The lines an answer is written as. */
  function Written(answer: string): seq<string> {
    var a := TrimSpace(answer);
    if a == "" then [] else [""] + Quoted(Split(a))
  }

  function Quote(line: string): string {
    "> " + line
  }

  function Quoted(lines: seq<string>): (r: seq<string>)
    ensures |r| == |lines|
  {
    Map(Quote, lines)
  }

  function EntryLines(textLines: seq<string>, answer: string): seq<string> {
    textLines + Written(answer) + [""]
  }

  function AnsweredChunks(es: seq<Entry>, answers: map<int, string>): (cs: seq<seq<string>>)
    ensures |cs| == |es|
  {
    seq(|es|, i requires 0 <= i < |es| => EntryLines(es[i].textLines, FinalAnswer(es[i], i, answers)))
  }

  /** The whole document around a new section. */
  function Rewritten(g: Grammar, lines: seq<string>, heading: string, section: seq<string>): seq<string>
    requires HeadingIndex(g, lines) < |lines|
  {
    Replace(lines, heading, [""] + section, g.isHeading, g.isEnd)
  }

  predicate AllAnswered(es: seq<Entry>, answers: map<int, string>) {
    forall i :: 0 <= i < |es| ==> !IsBlank(FinalAnswer(es[i], i, answers))
  }

  function Apply(g: Grammar, body: string, answers: map<int, string>, complete: bool): Result<string, Error> {
    var lines := Split(body);
    var es := Entries(g, lines);
    if es == [] then Ok(body)
    else if complete && !AllAnswered(es, answers) then Err(IncompleteAnswers)
    else
      var heading := if complete then g.resolved else g.open;
      Ok(Join(Rewritten(g, lines, heading, Flatten(AnsweredChunks(es, answers)))))
  }

  predicate HasOpenQuestions(g: Grammar, body: string) {
    var lines := Split(body);
    && HeadingIndex(g, lines) < |lines|
    && exists k :: HeadingIndex(g, lines) < k < SectionEnd(g, lines) && g.isReal(lines[k])
  }

  // ----- shape of entries -----

  lemma ChunkPrefix(g: Grammar, c: seq<string>, p: seq<string>)
    requires IsChunk(g, c) && p != [] && p <= c
    ensures IsChunk(g, p)
  {
    assert p[1..] <= c[1..];
  }

  /** Trimming lines that are no items off the end of a chunk leaves a chunk. */
  lemma TrimmedChunk(g: Grammar, c: seq<string>, drop: string -> bool)
    requires IsChunk(g, c) && !drop(c[0])
    ensures IsChunk(g, DropTrailing(c, drop))
    ensures !drop(DropTrailing(c, drop)[|DropTrailing(c, drop)| - 1])
  {
    DropTrailingKeepsHead(c, drop);
    ChunkPrefix(g, c, DropTrailing(c, drop));
  }

  /** Neither the marker line nor the last text line is ever trimmed away: an entry keeps a text. */
  lemma EntryOfIsEntry(g: Grammar, chunk: seq<string>)
    requires Sound(g) && IsChunk(g, chunk)
    ensures IsEntry(g, EntryOf(g, chunk))
  {
    TrimmedChunk(g, chunk, g.isBlank);
    var body := DropTrailing(chunk, g.isBlank);
    TrimmedChunk(g, body, g.isQuote);
    var text := DropTrailing(body, g.isQuote);
    TrimmedChunk(g, text, g.isBlank);
  }

  /** An entry's text is a beginning of its chunk. */
  lemma EntryTextIsPrefix(g: Grammar, chunk: seq<string>)
    ensures EntryOf(g, chunk).textLines <= chunk
  {
    var body := DropTrailing(chunk, g.isBlank);
    var text := DropTrailing(body, g.isQuote);
    PrefixTransitive(DropTrailing(text, g.isBlank), text, body);
    PrefixTransitive(DropTrailing(text, g.isBlank), body, chunk);
  }

  lemma PrefixTransitive<T>(a: seq<T>, b: seq<T>, c: seq<T>)
    requires a <= b <= c
    ensures a <= c
  {
  }

  lemma DropTrailingKeepsHead<T>(s: seq<T>, p: T -> bool)
    requires s != [] && !p(s[0])
    ensures var r := DropTrailing(s, p); r != [] && r[0] == s[0]
  {
  }

  lemma EntriesAreEntries(g: Grammar, lines: seq<string>)
    requires Sound(g)
    ensures AreEntries(g, Entries(g, lines))
  {
    if HeadingIndex(g, lines) < |lines| {
      var cs := Chunks(g, Section(g, lines));
      GroupsAreGroups(Section(g, lines), g.isItem);
      forall i | 0 <= i < |cs|
        ensures IsEntry(g, EntryOf(g, cs[i]))
      {
        EntryOfIsEntry(g, cs[i]);
      }
    }
  }

  /** How a chunk is read: its text, blank lines, the longest run of quote lines before the blank lines
      at its end, and those. The run is the answer; without one the blank lines are one run. */
  lemma EntryShape(g: Grammar, chunk: seq<string>)
    returns (gap: seq<string>, quotes: seq<string>, tail: seq<string>)
    requires Sound(g) && IsChunk(g, chunk)
    ensures var e := EntryOf(g, chunk);
            && chunk == e.textLines + gap + quotes + tail
            && e.textLines != [] && !g.isBlank(e.textLines[|e.textLines| - 1])
            && (gap == [] ==> !g.isQuote(e.textLines[|e.textLines| - 1]))
            && e.answer == if quotes == [] then "" else TrimSpace(Join(Map(g.unquote, quotes)))
    ensures (forall l :: l in gap || l in tail ==> g.isBlank(l)) && (forall l :: l in quotes ==> g.isQuote(l))
    ensures quotes == [] ==> gap == []
  {
    var body, text;
    body, tail := CutTrailing(chunk, g.isBlank);
    text, quotes := CutTrailing(body, g.isQuote);
    EntryOfIsEntry(g, chunk);
    var e := EntryOf(g, chunk);
    if quotes == [] {
      gap := [];
      assert e == Entry(body, "");
    } else {
      var kept;
      kept, gap := CutTrailing(text, g.isBlank);
      assert e == Entry(kept, TrimSpace(Join(Unquoted(g, quotes))));
    }
  }

  lemma CutTrailing<T>(s: seq<T>, p: T -> bool) returns (kept: seq<T>, cut: seq<T>)
    ensures kept == DropTrailing(s, p) && s == kept + cut && cut == s[|kept|..]
    ensures kept != [] ==> !p(kept[|kept| - 1])
    ensures forall x :: x in cut ==> p(x)
  {
    kept := DropTrailing(s, p);
    cut := s[|kept|..];
  }
}
