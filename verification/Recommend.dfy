/** Recommend and RankStacks of internal/architecture/recommend.go. */
module Recommend {
  import opened Results
  import opened Text
  import opened Sorting
  import opened Relaxation

  datatype WizardOption = WizardOption(value: string, caption: string, labels: seq<string>, hard: bool)

  datatype WizardQuestion = WizardQuestion(id: string, prompt: string, kind: string, options: seq<WizardOption>)

  datatype Wizard = Wizard(questions: seq<WizardQuestion>, defaultArchitecture: string)

  datatype Answer = Answer(questionId: string, value: string)

  /** A catalog label an answer speaks for, and the reason to show. */
  datatype Contribution = Contribution(signal: string, why: string)

  datatype Recommendation = Recommendation(item: Item, score: nat, why: seq<string>)

  const MAX_RECOMMENDATIONS := 3

  // ----- what an answer contributes -----

  /** Of several questions with one id the last counts. */
  function QuestionOf(questions: seq<WizardQuestion>, id: string): Option<WizardQuestion> {
    if questions == [] then None
    else if questions[|questions| - 1].id == id then Some(questions[|questions| - 1])
    else QuestionOf(questions[..|questions| - 1], id)
  }

  /** Of several options with one value the first counts. */
  function OptionOf(options: seq<WizardOption>, value: string): Option<WizardOption> {
    if options == [] then None
    else if options[0].value == value then Some(options[0])
    else OptionOf(options[1..], value)
  }

  function Reason(q: WizardQuestion, o: WizardOption, signal: string): string {
    q.prompt + " \U{2192} " + if o.caption != "" then o.caption else signal
  }

  function Speaker(q: WizardQuestion, o: WizardOption): string -> Contribution {
    (signal: string) => Contribution(signal, Reason(q, o, signal))
  }

  function Contributions(w: Wizard, a: Answer): seq<Contribution> {
    match QuestionOf(w.questions, a.questionId)
    case None => []
    case Some(q) =>
      if q.kind == "language" then []
      else match OptionOf(q.options, a.value)
           case None => []
           case Some(o) => Map(Speaker(q, o), o.labels)
  }

  predicate IsHard(w: Wizard, a: Answer) {
    match QuestionOf(w.questions, a.questionId)
    case None => false
    case Some(q) =>
      q.kind == "hard" || match OptionOf(q.options, a.value) case None => false case Some(o) => o.hard
  }

  /** The contributions of the hard answers, or of the others, in order. */
  function Collect(w: Wizard, answers: seq<Answer>, hard: bool): seq<Contribution> {
    if answers == [] then []
    else
      var a := answers[|answers| - 1];
      Collect(w, answers[..|answers| - 1], hard) + if IsHard(w, a) == hard then Contributions(w, a) else []
  }

  function SignalOf(c: Contribution): string {
    c.signal
  }

  function Signals(cs: seq<Contribution>): seq<string> {
    Map(SignalOf, cs)
  }

  predicate IsSignal(cs: seq<Contribution>, x: string) {
    exists i :: 0 <= i < |cs| && cs[i].signal == x
  }

  lemma SignalsHave(cs: seq<Contribution>, x: string)
    ensures x in Signals(cs) <==> IsSignal(cs, x)
  {
    if IsSignal(cs, x) {
      var i :| 0 <= i < |cs| && cs[i].signal == x;
      assert Signals(cs)[i] == x;
    }
  }

  // ----- one contribution per label -----

  /** The first contribution for each label. */
  function Firsts(cs: seq<Contribution>): seq<Contribution> {
    if cs == [] then []
    else
      var before, c := cs[..|cs| - 1], cs[|cs| - 1];
      if IsSignal(before, c.signal) then Firsts(before) else Firsts(before) + [c]
  }

  predicate BySignal(a: Contribution, b: Contribution) {
    Below(a.signal, b.signal)
  }

  function Dedup(cs: seq<Contribution>): seq<Contribution> {
    Sort(Firsts(cs), BySignal)
  }

  lemma BySignalOrders()
    ensures Orders(BySignal)
  {
    BelowOrders();
  }

  lemma {:induction false} FirstsAre(cs: seq<Contribution>)
    ensures Untied(Firsts(cs), BySignal)
    ensures forall x :: IsSignal(Firsts(cs), x) <==> IsSignal(cs, x)
  {
    if cs != [] {
      var before, c := cs[..|cs| - 1], cs[|cs| - 1];
      FirstsAre(before);
      forall x
        ensures IsSignal(cs, x) <==> IsSignal(before, x) || c.signal == x
      {
        SignalSplit(before, c, cs, x);
      }
      if !IsSignal(before, c.signal) {
        forall x
          ensures IsSignal(Firsts(cs), x) <==> IsSignal(Firsts(before), x) || c.signal == x
        {
          SignalSplit(Firsts(before), c, Firsts(cs), x);
        }
        assert !IsSignal(Firsts(before), c.signal);
        AppendUntied(Firsts(before), c);
      }
    }
  }

  lemma AppendUntied(cs: seq<Contribution>, c: Contribution)
    requires Untied(cs, BySignal) && !IsSignal(cs, c.signal)
    ensures Untied(cs + [c], BySignal)
  {
    forall i | 0 <= i < |cs|
      ensures Below(cs[i].signal, c.signal) || Below(c.signal, cs[i].signal)
    {
      BelowTotal(cs[i].signal, c.signal);
    }
  }

  lemma SignalSplit(before: seq<Contribution>, c: Contribution, cs: seq<Contribution>, x: string)
    requires cs == before + [c]
    ensures IsSignal(cs, x) <==> IsSignal(before, x) || c.signal == x
  {
    if IsSignal(before, x) {
      var i :| 0 <= i < |before| && before[i].signal == x;
      assert cs[i].signal == x;
    }
    assert cs[|before|] == c;
  }

  /** One entry per label, by name. */
  lemma DedupAscends(cs: seq<Contribution>)
    ensures Ascending(Dedup(cs), BySignal)
    ensures forall x :: IsSignal(Dedup(cs), x) <==> IsSignal(cs, x)
  {
    FirstsAre(cs);
    BySignalOrders();
    SortKeepsAll(Firsts(cs), BySignal);
    SortAscends(Firsts(cs), BySignal);
    forall x
      ensures IsSignal(Dedup(cs), x) <==> IsSignal(Firsts(cs), x)
    {
      if IsSignal(Firsts(cs), x) {
        SignalsKept(Firsts(cs), Dedup(cs), x);
      }
      if IsSignal(Dedup(cs), x) {
        SignalsKept(Dedup(cs), Firsts(cs), x);
      }
    }
  }

  lemma SignalsKept(a: seq<Contribution>, b: seq<Contribution>, x: string)
    requires multiset(a) == multiset(b) && IsSignal(a, x)
    ensures IsSignal(b, x)
  {
    var i :| 0 <= i < |a| && a[i].signal == x;
    SameElements(a, b, a[i]);
  }

  // ----- ranking -----

  function CarriedBy(item: Item): string -> bool {
    (signal: string) => signal in item.labels
  }

  /** How many of the soft labels the item carries. */
  function Score(item: Item, soft: seq<string>): nat {
    |Filter(soft, CarriedBy(item))|
  }

  function Speaks(item: Item): Contribution -> bool {
    (c: Contribution) => c.signal in item.labels
  }

  function WhyOf(c: Contribution): string {
    c.why
  }

  function Why(item: Item, hard: seq<Contribution>, soft: seq<Contribution>): seq<string> {
    Map(WhyOf, Filter(hard, Speaks(item))) + Map(WhyOf, Filter(soft, Speaks(item)))
  }

  function Scorer(hard: seq<Contribution>, soft: seq<Contribution>): Item -> Recommendation {
    (item: Item) => Recommendation(item, Score(item, Signals(soft)), Why(item, hard, soft))
  }

  /** A recommendation without its reasons. */
  datatype Core = Core(item: Item, score: nat)

  function CoreOf(r: Recommendation): Core {
    Core(r.item, r.score)
  }

  predicate BetterCore(a: Core, b: Core) {
    a.score > b.score || (a.score == b.score && Below(a.item.slug, b.item.slug))
  }

  predicate Better(a: Recommendation, b: Recommendation) {
    BetterCore(CoreOf(a), CoreOf(b))
  }

  function Ranked(survivors: seq<Item>, hard: seq<Contribution>, soft: seq<Contribution>): seq<Recommendation> {
    Sort(Map(Scorer(hard, soft), survivors), Better)
  }

  const BIAS_WHY := ["low-regret default \U{2014} signals were weak"]

  function HasSlug(slug: string): Recommendation -> bool {
    (r: Recommendation) => r.item.slug == slug
  }

  /** When nothing scores, the default goes first, in exchange with whatever stood there. */
  function Biased(recs: seq<Recommendation>, slug: string): (r: seq<Recommendation>)
    ensures |r| == |recs|
  {
    var i := FirstIndex(recs, HasSlug(slug));
    if recs == [] || recs[0].score > 0 || i == |recs| then recs
    else recs[i := recs[0]][0 := recs[i].(why := BIAS_WHY)]
  }

  function DefaultSlug(w: Wizard): string {
    if w.defaultArchitecture == "" then "modular-monolith" else w.defaultArchitecture
  }

  function Hard(w: Wizard, answers: seq<Answer>): seq<Contribution> {
    Dedup(Collect(w, answers, true))
  }

  function Soft(w: Wizard, answers: seq<Answer>): seq<Contribution> {
    Dedup(Collect(w, answers, false))
  }

  function Candidates(items: seq<Item>, w: Wizard, answers: seq<Answer>): seq<Item> {
    Survivors(items, Signals(Hard(w, answers)))
  }

  /** Every survivor, best first. */
  function Ranking(items: seq<Item>, w: Wizard, answers: seq<Answer>): seq<Recommendation> {
    Biased(Ranked(Candidates(items, w, answers), Hard(w, answers), Soft(w, answers)), DefaultSlug(w))
  }

  function Top<T>(s: seq<T>): seq<T> {
    if |s| > MAX_RECOMMENDATIONS then s[..MAX_RECOMMENDATIONS] else s
  }

  // ----- what the ranking guarantees -----

  lemma BetterOrders()
    ensures Orders(Better) && Orders(BetterCore)
  {
    BelowOrders();
    forall a, b, c | !BetterCore(b, a) && !BetterCore(c, b)
      ensures !BetterCore(c, a)
    {
      if a.score == b.score == c.score {
        BelowChain(a.item.slug, b.item.slug, c.item.slug);
      }
    }
    forall a, b
      ensures !(BetterCore(a, b) && BetterCore(b, a))
    {
      BelowTotal(a.item.slug, b.item.slug);
    }
  }

  ghost predicate Descending(recs: seq<Recommendation>) {
    forall i, j :: 0 <= i < j < |recs| ==> recs[i].score >= recs[j].score
  }

  lemma RankedDescends(survivors: seq<Item>, hard: seq<Contribution>, soft: seq<Contribution>)
    ensures Descending(Ranked(survivors, hard, soft))
  {
    BetterOrders();
    SortSorts(Map(Scorer(hard, soft), survivors), Better);
    var recs := Ranked(survivors, hard, soft);
    forall i, j | 0 <= i < j < |recs|
      ensures recs[i].score >= recs[j].score
    {
      assert !Better(recs[j], recs[i]);
    }
  }

  lemma BiasedDescends(recs: seq<Recommendation>, slug: string)
    requires Descending(recs)
    ensures Descending(Biased(recs, slug))
  {
  }

  /** No survivor left out scores above one returned. */
  lemma NoneBetterOmitted(items: seq<Item>, w: Wizard, answers: seq<Answer>, i: nat, j: nat)
    requires i < |Top(Ranking(items, w, answers))| <= j < |Ranking(items, w, answers)|
    ensures Top(Ranking(items, w, answers))[i].score >= Ranking(items, w, answers)[j].score
    ensures |Top(Ranking(items, w, answers))| == 3
  {
    var hard, soft := Hard(w, answers), Soft(w, answers);
    RankedDescends(Candidates(items, w, answers), hard, soft);
    BiasedDescends(Ranked(Candidates(items, w, answers), hard, soft), DefaultSlug(w));
  }

  function ItemOf(r: Recommendation): Item {
    r.item
  }

  lemma MapRemove<A, B>(f: A -> B, s: seq<A>, i: nat)
    requires i < |s|
    ensures multiset(Map(f, s)) == multiset(Map(f, s[..i] + s[i + 1..])) + multiset{f(s[i])}
  {
    var m := Map(f, s);
    assert Map(f, s[..i] + s[i + 1..]) == m[..i] + m[i + 1..];
    assert m == m[..i] + [m[i]] + m[i + 1..];
  }

  lemma {:induction false} MultisetMap<A, B>(f: A -> B, a: seq<A>, b: seq<A>)
    requires multiset(a) == multiset(b)
    ensures multiset(Map(f, a)) == multiset(Map(f, b))
  {
    if a == [] {
      assert |b| == |multiset(b)| == 0;
      assert Map(f, a) == Map(f, b);
    } else {
      SameElements(a, b, a[0]);
      var i :| 0 <= i < |b| && b[i] == a[0];
      var restA, restB := a[..0] + a[1..], b[..i] + b[i + 1..];
      RemoveOne(b, i);
      RemoveOne(a, 0);
      assert multiset(restA) == multiset(restB) && |restA| < |a|;
      MultisetMap(f, restA, restB);
      MapRemove(f, a, 0);
      MapRemove(f, b, i);
    }
  }

  lemma SwapKeepsAll<T>(s: seq<T>, i: nat)
    requires i < |s|
    ensures multiset(s[i := s[0]][0 := s[i]]) == multiset(s)
  {
  }

  lemma MapMap(survivors: seq<Item>, hard: seq<Contribution>, soft: seq<Contribution>)
    ensures Map(ItemOf, Map(Scorer(hard, soft), survivors)) == survivors
  {
  }

  lemma RankedItems(survivors: seq<Item>, hard: seq<Contribution>, soft: seq<Contribution>)
    ensures multiset(Map(ItemOf, Ranked(survivors, hard, soft))) == multiset(survivors)
  {
    var recs := Map(Scorer(hard, soft), survivors);
    SortKeepsAll(recs, Better);
    MultisetMap(ItemOf, Sort(recs, Better), recs);
    MapMap(survivors, hard, soft);
  }

  lemma BiasedItems(recs: seq<Recommendation>, slug: string)
    ensures multiset(Map(ItemOf, Biased(recs, slug))) == multiset(Map(ItemOf, recs))
  {
    var i := FirstIndex(recs, HasSlug(slug));
    if recs != [] && recs[0].score == 0 && i < |recs| {
      var items := Map(ItemOf, recs);
      assert Map(ItemOf, Biased(recs, slug)) == items[i := items[0]][0 := items[i]];
      SwapKeepsAll(items, i);
    }
  }

  /** The ranking lists every survivor of the hard constraints, each once, and nothing else; it is
      empty only if the catalog is. */
  lemma RankingIsSurvivors(items: seq<Item>, w: Wizard, answers: seq<Answer>)
    ensures multiset(Map(ItemOf, Ranking(items, w, answers))) == multiset(Candidates(items, w, answers))
    ensures Top(Ranking(items, w, answers)) == [] <==> items == []
  {
    var hard, soft := Hard(w, answers), Soft(w, answers);
    RankedItems(Candidates(items, w, answers), hard, soft);
    BiasedItems(Ranked(Candidates(items, w, answers), hard, soft), DefaultSlug(w));
    SurvivorsExist(items, Signals(hard));
    var ranking := Map(ItemOf, Ranking(items, w, answers));
    assert |ranking| == |multiset(ranking)|;
    assert |Candidates(items, w, answers)| == |multiset(Candidates(items, w, answers))|;
  }

  /** When no survivor scores and the default is among them, it comes first. */
  lemma DefaultFirst(items: seq<Item>, w: Wizard, answers: seq<Answer>, item: Item)
    requires item in Candidates(items, w, answers)
    requires item.slug == if w.defaultArchitecture == "" then "modular-monolith" else w.defaultArchitecture
    requires forall other :: other in Candidates(items, w, answers) ==> Score(other, Signals(Soft(w, answers))) == 0
    ensures var ranking := Ranking(items, w, answers);
            && ranking != []
            && ranking[0].item.slug == item.slug
            && ranking[0].why == ["low-regret default \U{2014} signals were weak"]
  {
    var hard, soft, survivors := Hard(w, answers), Soft(w, answers), Candidates(items, w, answers);
    var recs := Ranked(survivors, hard, soft);
    var i := RankedHas(survivors, hard, soft, item);
    RankedOnly(survivors, hard, soft, recs[0]);
    DefaultIsMoved(recs, DefaultSlug(w), i);
  }

  lemma RankedHas(survivors: seq<Item>, hard: seq<Contribution>, soft: seq<Contribution>, item: Item) returns (i: nat)
    requires item in survivors
    ensures i < |Ranked(survivors, hard, soft)| && Ranked(survivors, hard, soft)[i].item == item
  {
    var scored := Map(Scorer(hard, soft), survivors);
    SortKeepsAll(scored, Better);
    var k :| 0 <= k < |survivors| && survivors[k] == item;
    assert scored[k] in scored;
    SameElements(scored, Ranked(survivors, hard, soft), scored[k]);
    i :| 0 <= i < |Ranked(survivors, hard, soft)| && Ranked(survivors, hard, soft)[i] == scored[k];
  }

  lemma RankedOnly(survivors: seq<Item>, hard: seq<Contribution>, soft: seq<Contribution>, r: Recommendation)
    requires r in Ranked(survivors, hard, soft)
    ensures r.item in survivors && r.score == Score(r.item, Signals(soft))
  {
    var scored := Map(Scorer(hard, soft), survivors);
    SortKeepsAll(scored, Better);
    SameElements(scored, Ranked(survivors, hard, soft), r);
    var k :| 0 <= k < |scored| && scored[k] == r;
  }

  lemma DefaultIsMoved(recs: seq<Recommendation>, slug: string, i: nat)
    requires i < |recs| && recs[i].item.slug == slug && recs[0].score == 0
    ensures Biased(recs, slug)[0].item.slug == slug && Biased(recs, slug)[0].why == BIAS_WHY
  {
    assert HasSlug(slug)(recs[i]);
    assert FirstIndex(recs, HasSlug(slug)) <= i;
  }

  /** The default is moved only when nothing scores and it is there; then it and the first change
      places, and its reasons are replaced. */
  lemma BiasMovesDefault(recs: seq<Recommendation>, slug: string)
    ensures var out := Biased(recs, slug);
            && (recs != [] && recs[0].score > 0 ==> out == recs)
            && ((forall r :: r in recs ==> r.item.slug != slug) ==> out == recs)
            && (recs != [] && recs[0].score == 0 && (exists r :: r in recs && r.item.slug == slug) ==>
                  exists i :: 0 <= i < |recs| && DefaultMoved(recs, slug, out, i))
  {
    var i := FirstIndex(recs, HasSlug(slug));
    if i < |recs| {
      assert recs[i] in recs && recs[i].item.slug == slug;
      if recs[0].score == 0 {
        assert DefaultMoved(recs, slug, Biased(recs, slug), i);
      }
    } else {
      forall r | r in recs
        ensures r.item.slug != slug
      {
        var k :| 0 <= k < |recs| && recs[k] == r;
        assert !HasSlug(slug)(recs[k]);
      }
    }
  }

  /** The first candidate with the slug stands in front, and what stood there in its place. */
  predicate DefaultMoved(recs: seq<Recommendation>, slug: string, out: seq<Recommendation>, i: nat)
    requires i < |recs|
  {
    && |out| == |recs|
    && recs[i].item.slug == slug && (forall k :: 0 <= k < i ==> recs[k].item.slug != slug)
    && out[0].item == recs[i].item && out[0].score == recs[i].score
    && (i > 0 ==> out[i] == recs[0])
    && forall k :: 0 < k < |recs| && k != i ==> out[k] == recs[k]
  }

  // ----- what an answer means -----

  /** The question an answer is about: the last one with its id. */
  lemma {:induction false} QuestionOfIs(qs: seq<WizardQuestion>, i: nat)
    requires i < |qs| && forall j :: i < j < |qs| ==> qs[j].id != qs[i].id
    ensures QuestionOf(qs, qs[i].id) == Some(qs[i])
  {
    if i < |qs| - 1 {
      QuestionOfIs(qs[..|qs| - 1], i);
    }
  }

  lemma {:induction false} QuestionOfHas(qs: seq<WizardQuestion>, id: string) returns (i: nat)
    requires QuestionOf(qs, id).Some?
    ensures i < |qs| && qs[i].id == id && QuestionOf(qs, id) == Some(qs[i])
    ensures forall j :: i < j < |qs| ==> qs[j].id != id
  {
    i := |qs| - 1;
    if qs[i].id != id {
      i := QuestionOfHas(qs[..i], id);
    }
  }

  /** The option an answer picks: the first one with its value. */
  lemma {:induction false} OptionOfIs(os: seq<WizardOption>, k: nat)
    requires k < |os| && forall j :: 0 <= j < k ==> os[j].value != os[k].value
    ensures OptionOf(os, os[k].value) == Some(os[k])
  {
    if k > 0 {
      OptionOfIs(os[1..], k - 1);
    }
  }

  lemma {:induction false} OptionOfHas(os: seq<WizardOption>, value: string) returns (k: nat)
    requires OptionOf(os, value).Some?
    ensures k < |os| && os[k].value == value && OptionOf(os, value) == Some(os[k])
    ensures forall j :: 0 <= j < k ==> os[j].value != value
  {
    k := 0;
    if os[0].value != value {
      k := OptionOfHas(os[1..], value);
      k := k + 1;
    }
  }

  /** The answer is about the question at i, the last with its id, and picks its option at k, the first
      with its value. */
  predicate Picks(w: Wizard, a: Answer, i: nat, k: nat) {
    && i < |w.questions| && w.questions[i].id == a.questionId
    && (forall j :: i < j < |w.questions| ==> w.questions[j].id != a.questionId)
    && k < |w.questions[i].options| && w.questions[i].options[k].value == a.value
    && (forall j :: 0 <= j < k ==> w.questions[i].options[j].value != a.value)
  }

  lemma {:induction false} CollectIs(w: Wizard, answers: seq<Answer>, hard: bool, c: Contribution)
    ensures c in Collect(w, answers, hard) <==>
      exists a :: a in answers && IsHard(w, a) == hard && c in Contributions(w, a)
  {
    if answers != [] {
      var before, a := answers[..|answers| - 1], answers[|answers| - 1];
      CollectIs(w, before, hard, c);
      assert answers == before + [a];
    }
  }

  lemma MapHas<A, B>(f: A -> B, s: seq<A>, x: A)
    requires x in s
    ensures f(x) in Map(f, s)
  {
    var i :| 0 <= i < |s| && s[i] == x;
    assert Map(f, s)[i] == f(x);
  }

  /** Every label of the option picked counts, as a hard constraint if the question or the option says
      so and as a signal otherwise, unless the question is about the language. */
  lemma AnswerCounts(w: Wizard, answers: seq<Answer>, a: Answer, i: nat, k: nat, tag: string)
    requires a in answers && Picks(w, a, i, k) && w.questions[i].kind != "language"
    requires tag in w.questions[i].options[k].labels
    ensures var q, o := w.questions[i], w.questions[i].options[k];
            var why := q.prompt + " \U{2192} " + if o.caption != "" then o.caption else tag;
            Contribution(tag, why) in Collect(w, answers, q.kind == "hard" || o.hard)
    ensures var q, o := w.questions[i], w.questions[i].options[k];
            IsSignal(if q.kind == "hard" || o.hard then Hard(w, answers) else Soft(w, answers), tag)
  {
    var q := w.questions[i];
    var o := q.options[k];
    var c := Contribution(tag, Reason(q, o, tag));
    QuestionOfIs(w.questions, i);
    OptionOfIs(q.options, k);
    MapHas(Speaker(q, o), o.labels, tag);
    CollectIs(w, answers, q.kind == "hard" || o.hard, c);
    DedupAscends(Collect(w, answers, q.kind == "hard" || o.hard));
    IsSignalOf(Collect(w, answers, q.kind == "hard" || o.hard), c);
  }

  lemma IsSignalOf(cs: seq<Contribution>, c: Contribution)
    requires c in cs
    ensures IsSignal(cs, c.signal)
  {
  }

  /** Nothing else counts. */
  lemma OnlyAnswersCount(w: Wizard, answers: seq<Answer>, hard: bool, c: Contribution)
    returns (a: Answer, i: nat, k: nat)
    requires c in Collect(w, answers, hard)
    ensures a in answers && Picks(w, a, i, k) && w.questions[i].kind != "language"
    ensures var q, o := w.questions[i], w.questions[i].options[k];
            && c.signal in o.labels && hard == (q.kind == "hard" || o.hard)
            && c.why == q.prompt + " \U{2192} " + if o.caption != "" then o.caption else c.signal
  {
    CollectIs(w, answers, hard, c);
    a :| a in answers && IsHard(w, a) == hard && c in Contributions(w, a);
    i := QuestionOfHas(w.questions, a.questionId);
    k := OptionOfHas(w.questions[i].options, a.value);
    var o := w.questions[i].options[k];
    var j :| 0 <= j < |o.labels| && Map(Speaker(w.questions[i], o), o.labels)[j] == c;
  }

  /** Of the contributions for one label the first is kept. */
  lemma {:induction false} FirstsIs(cs: seq<Contribution>, c: Contribution)
    ensures c in Firsts(cs) <==>
      exists i :: 0 <= i < |cs| && cs[i] == c && forall k :: 0 <= k < i ==> cs[k].signal != c.signal
  {
    if cs != [] {
      var n := |cs| - 1;
      FirstsIs(cs[..n], c);
      if IsSignal(cs[..n], c.signal) {
        var k :| 0 <= k < n && cs[..n][k].signal == c.signal;
        assert cs[k].signal == c.signal;
      } else {
        assert forall k :: 0 <= k < n ==> cs[..n][k] == cs[k];
      }
      if i :| 0 <= i < n && cs[..n][i] == c && forall k :: 0 <= k < i ==> cs[..n][k].signal != c.signal {
        assert cs[i] == c && forall k :: 0 <= k < i ==> cs[k] == cs[..n][k];
      }
      if i :| 0 <= i < n && cs[i] == c && forall k :: 0 <= k < i ==> cs[k].signal != c.signal {
        assert cs[..n][i] == c && forall k :: 0 <= k < i ==> cs[k] == cs[..n][k];
      }
    }
  }

  lemma DedupKeepsFirst(cs: seq<Contribution>, c: Contribution)
    ensures c in Dedup(cs) <==>
      exists i :: 0 <= i < |cs| && cs[i] == c && forall k :: 0 <= k < i ==> cs[k].signal != c.signal
  {
    FirstsIs(cs, c);
    SortKeepsAll(Firsts(cs), BySignal);
    SameElements(Firsts(cs), Dedup(cs), c);
  }

  /** What is recommended carries every hard label of the answers that was not given up. */
  lemma HardAnswersRespected(items: seq<Item>, w: Wizard, answers: seq<Answer>, a: Answer, i: nat, k: nat,
    tag: string, r: Recommendation)
    requires a in answers && Picks(w, a, i, k) && tag in w.questions[i].options[k].labels
    requires w.questions[i].kind == "hard" || (w.questions[i].kind != "language" && w.questions[i].options[k].hard)
    requires r in Ranking(items, w, answers)
    ensures r.item in items
    ensures tag in r.item.labels || tag in Dropped(items, Signals(Hard(w, answers)))
  {
    var labels := Signals(Hard(w, answers));
    AnswerCounts(w, answers, a, i, k, tag);
    SignalsHave(Hard(w, answers), tag);
    RankingIsSurvivors(items, w, answers);
    MapHas(ItemOf, Ranking(items, w, answers), r);
    SameElements(Map(ItemOf, Ranking(items, w, answers)), Candidates(items, w, answers), r.item);
    SurvivorsExist(items, labels);
    DropsWeakest(items, labels);
    assert tag in multiset(labels);
  }

  // ----- what the ranking means -----

  /** The score counts the soft labels the item carries. */
  lemma {:induction false} ScoreIs(item: Item, soft: seq<string>)
    ensures Score(item, soft) == |set i | 0 <= i < |soft| && soft[i] in item.labels|
  {
    var all := set i | 0 <= i < |soft| && soft[i] in item.labels;
    if soft == [] {
      assert all == {};
    } else {
      var n := |soft| - 1;
      var before := set i | 0 <= i < n && soft[..n][i] in item.labels;
      ScoreIs(item, soft[..n]);
      assert all == before + if soft[n] in item.labels then {n} else {};
    }
  }

  /** Candidates stand by score, best first, then by slug. */
  lemma RankedOrder(survivors: seq<Item>, hard: seq<Contribution>, soft: seq<Contribution>, i: nat, j: nat)
    requires i < j < |Ranked(survivors, hard, soft)|
    ensures var a, b := Ranked(survivors, hard, soft)[i], Ranked(survivors, hard, soft)[j];
            a.score > b.score || (a.score == b.score && (a.item.slug == b.item.slug || Below(a.item.slug, b.item.slug)))
  {
    BetterOrders();
    SortSorts(Map(Scorer(hard, soft), survivors), Better);
    var a, b := Ranked(survivors, hard, soft)[i], Ranked(survivors, hard, soft)[j];
    assert !Better(b, a);
    BelowTotal(a.item.slug, b.item.slug);
  }

  /** Whether a candidate has this score and this slug. */
  function Ties(score: nat, slug: string): Recommendation -> bool {
    (r: Recommendation) => r.score == score && r.item.slug == slug
  }

  /** Candidates with one score and one slug stay in catalog order. */
  lemma RankedIsStable(survivors: seq<Item>, hard: seq<Contribution>, soft: seq<Contribution>, score: nat, slug: string)
    ensures Filter(Ranked(survivors, hard, soft), Ties(score, slug))
            == Filter(Map(Scorer(hard, soft), survivors), Ties(score, slug))
  {
    BetterOrders();
    forall a, b | Ties(score, slug)(a) && Ties(score, slug)(b)
      ensures !Better(a, b)
    {
      BelowTotal(slug, slug);
    }
    SortIsStable(Map(Scorer(hard, soft), survivors), Ties(score, slug), Better);
  }

  /** A candidate's score counts the soft labels it carries. */
  lemma RankedScores(survivors: seq<Item>, hard: seq<Contribution>, soft: seq<Contribution>, r: Recommendation)
    requires r in Ranked(survivors, hard, soft)
    ensures r.item in survivors
    ensures r.score == |set i | 0 <= i < |soft| && soft[i].signal in r.item.labels|
  {
    RankedOnly(survivors, hard, soft, r);
    ScoreIs(r.item, Signals(soft));
    var a := set i | 0 <= i < |soft| && soft[i].signal in r.item.labels;
    var b := set i | 0 <= i < |soft| && Signals(soft)[i] in r.item.labels;
    assert a == b;
  }

  /** Its reasons are those of the hard and soft labels it carries. */
  lemma RankedReasons(survivors: seq<Item>, hard: seq<Contribution>, soft: seq<Contribution>, r: Recommendation,
    x: string)
    requires r in Ranked(survivors, hard, soft)
    ensures x in r.why <==> exists c :: (c in hard || c in soft) && c.signal in r.item.labels && c.why == x
  {
    RankedWhy(survivors, hard, soft, r);
    WhyHas(r.item, hard, x);
    WhyHas(r.item, soft, x);
  }

  lemma RankedWhy(survivors: seq<Item>, hard: seq<Contribution>, soft: seq<Contribution>, r: Recommendation)
    requires r in Ranked(survivors, hard, soft)
    ensures r.why == Map(WhyOf, Filter(hard, Speaks(r.item))) + Map(WhyOf, Filter(soft, Speaks(r.item)))
  {
    var scored := Map(Scorer(hard, soft), survivors);
    SortKeepsAll(scored, Better);
    SameElements(scored, Ranked(survivors, hard, soft), r);
    var k :| 0 <= k < |scored| && scored[k] == r;
  }

  lemma WhyHas(item: Item, cs: seq<Contribution>, x: string)
    ensures x in Map(WhyOf, Filter(cs, Speaks(item))) <==>
      exists c :: c in cs && c.signal in item.labels && c.why == x
  {
    var spoken := Filter(cs, Speaks(item));
    forall c
      ensures c in spoken <==> c in cs && c.signal in item.labels
    {
      FilterHas(cs, Speaks(item), c);
    }
    if c :| c in cs && c.signal in item.labels && c.why == x {
      MapHas(WhyOf, spoken, c);
    }
    if x in Map(WhyOf, spoken) {
      var i :| 0 <= i < |spoken| && Map(WhyOf, spoken)[i] == x;
      assert spoken[i] in spoken;
    }
  }

  /** Reasons stand in the order of the labels, those of hard labels first. */
  lemma ReasonsInOrder(item: Item, hard: seq<Contribution>, soft: seq<Contribution>, c: Contribution)
    ensures Why(item, hard + [c], []) == Why(item, hard, []) + if c.signal in item.labels then [c.why] else []
    ensures Why(item, hard, soft + [c]) == Why(item, hard, soft) + if c.signal in item.labels then [c.why] else []
  {
    assert (hard + [c])[..|hard|] == hard && (soft + [c])[..|soft|] == soft;
  }

  lemma TopThree<T>(s: seq<T>)
    ensures Top(s) <= s && |Top(s)| == if |s| < 3 then |s| else 3
  {
  }

  // ----- the order of the answers -----

  lemma {:induction false} CollectHas(w: Wizard, answers: seq<Answer>, hard: bool, x: string)
    ensures IsSignal(Collect(w, answers, hard), x) <==>
      exists a :: a in answers && IsHard(w, a) == hard && IsSignal(Contributions(w, a), x)
  {
    if answers != [] {
      var before, a := answers[..|answers| - 1], answers[|answers| - 1];
      CollectHas(w, before, hard, x);
      assert answers == before + [a];
      SignalConcat(Collect(w, before, hard), if IsHard(w, a) == hard then Contributions(w, a) else [], x);
    }
  }

  lemma SignalConcat(a: seq<Contribution>, b: seq<Contribution>, x: string)
    ensures IsSignal(a + b, x) <==> IsSignal(a, x) || IsSignal(b, x)
  {
    if IsSignal(a, x) {
      var i :| 0 <= i < |a| && a[i].signal == x;
      assert (a + b)[i].signal == x;
    }
    if IsSignal(b, x) {
      var i :| 0 <= i < |b| && b[i].signal == x;
      assert (a + b)[|a| + i].signal == x;
    }
  }

  /** The labels, each once and in order, depend on the set of answers only. */
  lemma {:induction false} SignalsOfSet(w: Wizard, a: seq<Answer>, b: seq<Answer>, hard: bool)
    requires forall x :: x in a <==> x in b
    ensures Signals(Dedup(Collect(w, a, hard))) == Signals(Dedup(Collect(w, b, hard)))
  {
    var s, t := Dedup(Collect(w, a, hard)), Dedup(Collect(w, b, hard));
    DedupAscends(Collect(w, a, hard));
    DedupAscends(Collect(w, b, hard));
    forall x
      ensures x in Signals(s) <==> x in Signals(t)
    {
      CollectHas(w, a, hard, x);
      CollectHas(w, b, hard, x);
      SignalsHave(s, x);
      SignalsHave(t, x);
    }
    BelowOrders();
    OneOrder(Signals(s), Signals(t), Below);
  }

  lemma DedupIsDistinct(cs: seq<Contribution>)
    ensures Distinct(Signals(Dedup(cs)))
  {
    DedupAscends(cs);
    var s := Dedup(cs);
    forall i, j | 0 <= i < j < |s|
      ensures Signals(s)[i] != Signals(s)[j]
    {
      BelowTotal(s[i].signal, s[j].signal);
      assert BySignal(s[i], s[j]);
    }
  }

  lemma {:induction false} InsertMap<A, B>(f: A -> B, s: seq<A>, x: A, less: (A, A) -> bool, lessB: (B, B) -> bool)
    requires forall a, b :: less(a, b) <==> lessB(f(a), f(b))
    ensures Map(f, Insert(s, x, less)) == Insert(Map(f, s), f(x), lessB)
  {
    if s != [] && !less(x, s[0]) {
      InsertMap(f, s[1..], x, less, lessB);
      assert Map(f, s)[1..] == Map(f, s[1..]);
      assert Map(f, [s[0]] + Insert(s[1..], x, less)) == [f(s[0])] + Map(f, Insert(s[1..], x, less));
    }
  }

  lemma {:induction false} SortMap<A, B>(f: A -> B, s: seq<A>, less: (A, A) -> bool, lessB: (B, B) -> bool)
    requires forall a, b :: less(a, b) <==> lessB(f(a), f(b))
    ensures Map(f, Sort(s, less)) == Sort(Map(f, s), lessB)
  {
    if s != [] {
      SortMap(f, s[..|s| - 1], less, lessB);
      InsertMap(f, Sort(s[..|s| - 1], less), s[|s| - 1], less, lessB);
      assert Map(f, s)[..|s| - 1] == Map(f, s[..|s| - 1]);
    }
  }

  /** What is ranked and how depends on the labels only, not on the reasons. */
  lemma RankedCores(survivors: seq<Item>, hard: seq<Contribution>, soft: seq<Contribution>,
    hard2: seq<Contribution>, soft2: seq<Contribution>)
    requires Signals(soft) == Signals(soft2)
    ensures Map(CoreOf, Ranked(survivors, hard, soft)) == Map(CoreOf, Ranked(survivors, hard2, soft2))
  {
    SortMap(CoreOf, Map(Scorer(hard, soft), survivors), Better, BetterCore);
    SortMap(CoreOf, Map(Scorer(hard2, soft2), survivors), Better, BetterCore);
    assert Map(CoreOf, Map(Scorer(hard, soft), survivors)) == Map(CoreOf, Map(Scorer(hard2, soft2), survivors));
  }

  lemma BiasedCores(a: seq<Recommendation>, b: seq<Recommendation>, slug: string)
    requires Map(CoreOf, a) == Map(CoreOf, b)
    ensures Map(CoreOf, Biased(a, slug)) == Map(CoreOf, Biased(b, slug))
  {
    SameCores(a, b);
    var i := FirstIndex(a, HasSlug(slug));
    FirstIndexIs(b, HasSlug(slug), i);
  }

  lemma SameCores(a: seq<Recommendation>, b: seq<Recommendation>)
    requires Map(CoreOf, a) == Map(CoreOf, b)
    ensures |a| == |b| && forall k :: 0 <= k < |a| ==> a[k].item == b[k].item && a[k].score == b[k].score
  {
    forall k | 0 <= k < |a|
      ensures a[k].item == b[k].item && a[k].score == b[k].score
    {
      assert Map(CoreOf, a)[k] == CoreOf(a[k]) && Map(CoreOf, b)[k] == CoreOf(b[k]);
    }
  }

  /** Neither the labels given up nor the ranking with its scores depends on the order of the
      answers, or on how often one is repeated. */
  lemma AnswerOrderIrrelevant(items: seq<Item>, w: Wizard, a: seq<Answer>, b: seq<Answer>)
    requires forall x :: x in a <==> x in b
    ensures Dropped(items, Signals(Hard(w, a))) == Dropped(items, Signals(Hard(w, b)))
    ensures Map(CoreOf, Top(Ranking(items, w, a))) == Map(CoreOf, Top(Ranking(items, w, b)))
  {
    SignalsOfSet(w, a, b, true);
    SignalsOfSet(w, a, b, false);
    var survivors := Candidates(items, w, a);
    RankedCores(survivors, Hard(w, a), Soft(w, a), Hard(w, b), Soft(w, b));
    BiasedCores(Ranked(survivors, Hard(w, a), Soft(w, a)), Ranked(survivors, Hard(w, b), Soft(w, b)), DefaultSlug(w));
    TopCores(Ranking(items, w, a), Ranking(items, w, b));
  }

  lemma TopCores(a: seq<Recommendation>, b: seq<Recommendation>)
    requires Map(CoreOf, a) == Map(CoreOf, b)
    ensures Map(CoreOf, Top(a)) == Map(CoreOf, Top(b))
  {
    SameCores(a, b);
  }
}
