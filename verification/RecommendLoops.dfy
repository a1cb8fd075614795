/** The loops of internal/architecture/recommend.go, each proved to compute the function of
    Recommend that specifies it, and RankStacks. */
module RecommendLoops {
  import opened Results
  import opened Text
  import opened Sorting
  import opened Relaxation
  import opened Recommend

  method IndexQuestions(questions: seq<WizardQuestion>) returns (byID: map<string, WizardQuestion>)
    ensures forall id :: QuestionOf(questions, id) == if id in byID then Some(byID[id]) else None
  {
    byID := map[];
    for i := 0 to |questions|
      invariant forall id :: QuestionOf(questions[..i], id) == if id in byID then Some(byID[id]) else None
    {
      assert questions[..i + 1][..i] == questions[..i];
      byID := byID[questions[i].id := questions[i]];
    }
    assert questions[..|questions|] == questions;
  }

  method ResolveOption(q: WizardQuestion, value: string) returns (o: Option<WizardOption>)
    ensures o == OptionOf(q.options, value)
  {
    for i := 0 to |q.options|
      invariant OptionOf(q.options, value) == OptionOf(q.options[i..], value)
    {
      if q.options[i].value == value {
        return Some(q.options[i]);
      }
    }
    o := None;
  }

  method CollectAnswers(w: Wizard, answers: seq<Answer>) returns (hard: seq<Contribution>, soft: seq<Contribution>)
    ensures hard == Collect(w, answers, true) && soft == Collect(w, answers, false)
  {
    var byID := IndexQuestions(w.questions);
    hard, soft := [], [];
    for i := 0 to |answers|
      invariant hard == Collect(w, answers[..i], true) && soft == Collect(w, answers[..i], false)
    {
      assert answers[..i + 1][..i] == answers[..i];
      var ans := answers[i];
      if ans.questionId !in byID || byID[ans.questionId].kind == "language" {
        continue;
      }
      var q := byID[ans.questionId];
      var opt := ResolveOption(q, ans.value);
      var isHard := q.kind == "hard" || (opt.Some? && opt.value.hard);
      var cs := [];
      if opt.Some? {
        cs := Contribute(q, opt.value);
      }
      if isHard {
        hard := hard + cs;
      } else {
        soft := soft + cs;
      }
    }
    assert answers[..|answers|] == answers;
  }

  method Contribute(q: WizardQuestion, o: WizardOption) returns (cs: seq<Contribution>)
    ensures cs == Map(Speaker(q, o), o.labels)
  {
    cs := [];
    for k := 0 to |o.labels|
      invariant cs == Map(Speaker(q, o), o.labels[..k])
    {
      MapStep(Speaker(q, o), o.labels, k);
      cs := cs + [Contribution(o.labels[k], Reason(q, o, o.labels[k]))];
    }
    assert o.labels[..|o.labels|] == o.labels;
  }

  // ----- one contribution per label -----

  /** seen holds exactly the first contributions, each under its label. */
  ghost predicate IsIndex(seen: map<string, Contribution>, firsts: seq<Contribution>) {
    && (forall c :: c in firsts ==> c.signal in seen && seen[c.signal] == c)
    && (forall l :: l in seen ==> seen[l].signal == l && seen[l] in firsts)
  }

  lemma SeenIff(seen: map<string, Contribution>, cs: seq<Contribution>, l: string)
    requires IsIndex(seen, Firsts(cs))
    ensures l in seen <==> IsSignal(cs, l)
  {
    FirstsAre(cs);
    if IsSignal(Firsts(cs), l) {
      var i :| 0 <= i < |Firsts(cs)| && Firsts(cs)[i].signal == l;
      assert Firsts(cs)[i] in Firsts(cs);
    }
    if l in seen {
      var i :| 0 <= i < |Firsts(cs)| && Firsts(cs)[i] == seen[l];
      assert IsSignal(Firsts(cs), l);
    }
  }

  lemma IndexGrows(seen: map<string, Contribution>, cs: seq<Contribution>, i: nat)
    requires i < |cs| && IsIndex(seen, Firsts(cs[..i]))
    ensures IsIndex(if cs[i].signal in seen then seen else seen[cs[i].signal := cs[i]], Firsts(cs[..i + 1]))
  {
    assert cs[..i + 1][..i] == cs[..i];
    SeenIff(seen, cs[..i], cs[i].signal);
  }

  /** Listing a map in any order and sorting gives one list. */
  method DedupContributions(cs: seq<Contribution>) returns (out: seq<Contribution>)
    ensures out == Dedup(cs)
  {
    var seen: map<string, Contribution> := map[];
    for i := 0 to |cs|
      invariant IsIndex(seen, Firsts(cs[..i]))
    {
      IndexGrows(seen, cs, i);
      if cs[i].signal !in seen {
        seen := seen[cs[i].signal := cs[i]];
      }
    }
    assert cs[..|cs|] == cs;
    out := ListValues(seen, cs);
    AnyListSorts(seen, cs, out);
    out := Sort(out, BySignal);
  }

  method ListValues(seen: map<string, Contribution>, ghost cs: seq<Contribution>) returns (out: seq<Contribution>)
    requires IsIndex(seen, Firsts(cs))
    ensures Untied(out, BySignal) && forall c :: c in out <==> c in Firsts(cs)
  {
    out := [];
    var left := seen.Keys;
    while exists l :: l in left
      invariant left <= seen.Keys
      invariant Untied(out, BySignal)
      invariant forall c :: c in out <==> c.signal in seen && seen[c.signal] == c && c.signal !in left
      decreases left
    {
      var l :| l in left;
      ListedUntied(out, seen[l]);
      out := out + [seen[l]];
      left := left - {l};
    }
    assert left == {};
  }

  lemma ListedUntied(out: seq<Contribution>, c: Contribution)
    requires Untied(out, BySignal) && forall d :: d in out ==> d.signal != c.signal
    ensures Untied(out + [c], BySignal)
  {
    assert !IsSignal(out, c.signal);
    AppendUntied(out, c);
  }

  lemma AnyListSorts(seen: map<string, Contribution>, cs: seq<Contribution>, out: seq<Contribution>)
    requires Untied(out, BySignal) && forall c :: c in out <==> c in Firsts(cs)
    ensures Sort(out, BySignal) == Dedup(cs)
  {
    FirstsAre(cs);
    BySignalOrders();
    SortAscends(out, BySignal);
    SortAscends(Firsts(cs), BySignal);
    SortKeepsAll(out, BySignal);
    SortKeepsAll(Firsts(cs), BySignal);
    forall c
      ensures c in Sort(out, BySignal) <==> c in Dedup(cs)
    {
      SameElements(out, Sort(out, BySignal), c);
      SameElements(Firsts(cs), Dedup(cs), c);
    }
    OneOrder(Sort(out, BySignal), Dedup(cs), BySignal);
  }

  // ----- scoring -----

  method ScoreItem(item: Item, hard: seq<Contribution>, soft: seq<Contribution>) returns (rec: Recommendation)
    ensures rec == Scorer(hard, soft)(item)
  {
    var why := [];
    for i := 0 to |hard|
      invariant why == Map(WhyOf, Filter(hard[..i], Speaks(item)))
    {
      SpokenStep(hard, i, item);
      if hard[i].signal in item.labels {
        why := why + [hard[i].why];
      }
    }
    assert hard[..|hard|] == hard;
    ghost var whyHard := why;
    var score := 0;
    for i := 0 to |soft|
      invariant why == whyHard + Map(WhyOf, Filter(soft[..i], Speaks(item)))
      invariant score == Score(item, Signals(soft[..i]))
    {
      SpokenStep(soft, i, item);
      ScoreStep(soft, i, item);
      if soft[i].signal in item.labels {
        score := score + 1;
        why := why + [soft[i].why];
      }
    }
    assert soft[..|soft|] == soft;
    rec := Recommendation(item, score, why);
  }

  lemma SpokenStep(cs: seq<Contribution>, i: nat, item: Item)
    requires i < |cs|
    ensures Map(WhyOf, Filter(cs[..i + 1], Speaks(item)))
         == Map(WhyOf, Filter(cs[..i], Speaks(item))) + if cs[i].signal in item.labels then [cs[i].why] else []
  {
    assert cs[..i + 1][..i] == cs[..i];
  }

  lemma ScoreStep(cs: seq<Contribution>, i: nat, item: Item)
    requires i < |cs|
    ensures Score(item, Signals(cs[..i + 1]))
            == Score(item, Signals(cs[..i])) + if cs[i].signal in item.labels then 1 else 0
  {
    assert Signals(cs[..i + 1])[..i] == Signals(cs[..i]);
  }

  method ScoreSurvivors(survivors: seq<Item>, hard: seq<Contribution>, soft: seq<Contribution>)
    returns (recs: seq<Recommendation>)
    ensures recs == Ranked(survivors, hard, soft)
  {
    recs := [];
    for i := 0 to |survivors|
      invariant recs == Map(Scorer(hard, soft), survivors[..i])
    {
      var rec := ScoreItem(survivors[i], hard, soft);
      MapStep(Scorer(hard, soft), survivors, i);
      recs := recs + [rec];
    }
    assert survivors[..|survivors|] == survivors;
    recs := Sort(recs, Better);
  }

  method ApplyDefaultBias(recs: array<Recommendation>, defaultSlug: string)
    modifies recs
    ensures recs[..] == Biased(old(recs[..]), defaultSlug)
  {
    if recs.Length == 0 || recs[0].score > 0 {
      return;
    }
    ghost var before := recs[..];
    for i := 0 to recs.Length
      invariant recs[..] == before
      invariant forall k :: 0 <= k < i ==> !HasSlug(defaultSlug)(before[k])
    {
      if recs[i].item.slug != defaultSlug {
        continue;
      }
      FirstIndexIs(before, HasSlug(defaultSlug), i);
      if i != 0 {
        recs[0], recs[i] := recs[i], recs[0];
      }
      recs[0] := recs[0].(why := BIAS_WHY);
      assert recs[..] == before[i := before[0]][0 := before[i].(why := BIAS_WHY)];
      return;
    }
    FirstIndexIs(before, HasSlug(defaultSlug), |before|);
  }

  method RecommendArchitectures(items: seq<Item>, w: Wizard, answers: seq<Answer>)
    returns (recs: seq<Recommendation>, dropped: seq<string>)
    ensures recs == Top(Ranking(items, w, answers)) && dropped == Dropped(items, Signals(Hard(w, answers)))
  {
    var hard, soft := CollectAnswers(w, answers);
    var hardLabels := DedupContributions(hard);
    var survivors;
    survivors, dropped := FilterByHardConstraints(items, Signals(hardLabels));
    var softLabels := DedupContributions(soft);
    var scored := ScoreSurvivors(survivors, hardLabels, softLabels);
    var slice := new Recommendation[|scored|](i requires 0 <= i < |scored| => scored[i]);
    assert slice[..] == scored;
    ApplyDefaultBias(slice, DefaultSlug(w));
    recs := slice[..];
    if |recs| > MAX_RECOMMENDATIONS {
      recs := recs[..MAX_RECOMMENDATIONS];
    }
  }

  // ----- tech stacks -----

  function Speaking(language: string): Item -> bool {
    (stack: Item) => language != "" && language in stack.labels
  }

  function RelatedTo(chosen: Item): Item -> bool {
    (stack: Item) => stack.path in chosen.relatedTo
  }

  predicate SpeaksBefore(language: string, a: Item, b: Item) {
    Speaking(language)(a) && !Speaking(language)(b)
  }

  method RankStacks(chosen: Item, stacks: seq<Item>, language: string) returns (ranked: seq<Item>)
    ensures var compatible := Filter(stacks, RelatedTo(chosen));
            ranked == Filter(compatible, Speaking(language)) + Filter(compatible, Not(Speaking(language)))
    ensures forall stack :: stack in ranked <==> stack in stacks && stack.path in chosen.relatedTo
    ensures forall i, j :: 0 <= i < j < |ranked| && language != "" && language in ranked[j].labels ==>
      language in ranked[i].labels
  {
    var compatible := [];
    for i := 0 to |stacks|
      invariant compatible == Filter(stacks[..i], RelatedTo(chosen))
    {
      assert stacks[..i + 1][..i] == stacks[..i];
      if stacks[i].path in chosen.relatedTo {
        compatible := compatible + [stacks[i]];
      }
    }
    assert stacks[..|stacks|] == stacks;
    TwoTiers(compatible, Speaking(language), (a, b) => SpeaksBefore(language, a, b));
    ranked := Sort(compatible, (a, b) => SpeaksBefore(language, a, b));
    StacksAre(chosen, stacks, language);
  }

  lemma StacksAre(chosen: Item, stacks: seq<Item>, language: string)
    ensures var compatible := Filter(stacks, RelatedTo(chosen));
            var yes, no := Filter(compatible, Speaking(language)), Filter(compatible, Not(Speaking(language)));
            && (forall stack :: stack in yes + no <==> stack in stacks && stack.path in chosen.relatedTo)
            && (forall stack :: stack in yes ==> language in stack.labels)
            && (forall stack :: stack in no ==> language == "" || language !in stack.labels)
  {
    var compatible := Filter(stacks, RelatedTo(chosen));
    forall stack
      ensures stack in compatible <==> stack in stacks && stack.path in chosen.relatedTo
      ensures stack in Filter(compatible, Speaking(language))
              <==> stack in compatible && language != "" && language in stack.labels
      ensures stack in Filter(compatible, Not(Speaking(language)))
              <==> stack in compatible && !(language != "" && language in stack.labels)
    {
      FilterHas(stacks, RelatedTo(chosen), stack);
      FilterHas(compatible, Speaking(language), stack);
      FilterHas(compatible, Not(Speaking(language)), stack);
    }
  }
}
