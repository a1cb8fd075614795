/** PatchAgentConfig of internal/directives/config_patch.go on the parsed configuration: which nodes
    of the tree it edits, and that editing twice is editing once. A mapping's content is kept as
    pairs; the source keeps keys and values alternating in one slice. */
module AgentConfig {
  import opened Results
  import opened Text
  import opened Sorting
  import opened ManagedRegion
  import opened PromptMerge

  datatype Kind = Scalar | Sequence | Mapping | Other

  /** extra stands for anchors, comments and positions. */
  datatype Node = Node(kind: Kind, tag: string, value: string, style: nat, extra: string,
                       items: seq<Node>, pairs: seq<Pair>)

  datatype Pair = Pair(key: Node, val: Node)

  /** What the stack profile says of a role. */
  datatype RoleProfile = RoleProfile(required: bool, writePaths: seq<string>, commands: string)

  type Stack = map<string, RoleProfile>

  const ENABLED := "enabled"
  const WRITE_PATHS := "allowed_write_paths"
  const PROMPTS := "prompt_templates"
  const NAME := "name"

  function NewScalar(value: string, tag: string): Node {
    Node(Scalar, tag, value, 0, "", [], [])
  }

  // ----- mappings -----

  function HasKey(key: string): Pair -> bool {
    (p: Pair) => p.key.value == key
  }

  /** The first pair with the key, or the number of pairs. */
  function KeyIndex(n: Node, key: string): (i: nat)
    ensures i <= |n.pairs|
  {
    FirstIndex(n.pairs, HasKey(key))
  }

  function MappingValue(n: Node, key: string): Option<Node> {
    if n.kind.Mapping? && KeyIndex(n, key) < |n.pairs| then Some(n.pairs[KeyIndex(n, key)].val) else None
  }

  function WithValue(n: Node, i: nat, val: Node): Node
    requires i < |n.pairs|
  {
    n.(pairs := n.pairs[i := n.pairs[i].(val := val)])
  }

  function WithPair(n: Node, key: string, val: Node): Node {
    n.(pairs := n.pairs + [Pair(NewScalar(key, ""), val)])
  }

  function RemoveMappingKey(n: Node, key: string): Node {
    var i := KeyIndex(n, key);
    if i == |n.pairs| then n else n.(pairs := n.pairs[..i] + n.pairs[i + 1..])
  }

  // ----- the three edits -----

  function MarkedFalse(n: Node): Node {
    n.(value := "false", tag := "!!bool")
  }

  function SetDisabled(n: Node, disabled: bool): Node {
    var existing := MappingValue(n, ENABLED);
    if !disabled then (if existing.Some? then RemoveMappingKey(n, ENABLED) else n)
    else if existing.Some? then WithValue(n, KeyIndex(n, ENABLED), MarkedFalse(existing.value))
    else WithPair(n, ENABLED, NewScalar("false", "!!bool"))
  }

  function ToItem(v: string): Node {
    NewScalar(v, "!!str")
  }

  /** The node itself is kept and turned into a block sequence. */
  function AsSequence(n: Node, values: seq<string>): Node {
    n.(kind := Sequence, tag := "!!seq", style := 0, items := Map(ToItem, values), pairs := [])
  }

  const BLANK := Node(Other, "", "", 0, "", [], [])

  function SetStringSequence(n: Node, key: string, values: seq<string>): Node {
    var val := MappingValue(n, key);
    if val.Some? then WithValue(n, KeyIndex(n, key), AsSequence(val.value, values))
    else WithPair(n, key, AsSequence(BLANK, values))
  }

  function MergePrompt(block: string): Pair -> Pair {
    (p: Pair) => p.(val := p.val.(value := MergeBlock(MARKERS, p.val.value, block)))
  }

  function MergePrompts(pt: Node, block: string): Node {
    pt.(pairs := Map(MergePrompt(block), pt.pairs))
  }

  function PatchPrompts(n: Node, block: string): Node {
    var pt := MappingValue(n, PROMPTS);
    if pt.Some? && pt.value.kind.Mapping? then WithValue(n, KeyIndex(n, PROMPTS), MergePrompts(pt.value, block)) else n
  }

  // ----- strings without repeats -----

  function DedupStrings(items: seq<string>): seq<string> {
    if items == [] then []
    else
      var before, it := items[..|items| - 1], items[|items| - 1];
      if it == "" || it in before then DedupStrings(before) else DedupStrings(before) + [it]
  }

  /** Each non-empty item once. */
  lemma {:induction false} DedupHas(items: seq<string>, x: string)
    ensures x in DedupStrings(items) <==> x in items && x != ""
    ensures Distinct(DedupStrings(items))
  {
    if items != [] {
      var before, it := items[..|items| - 1], items[|items| - 1];
      DedupHas(before, x);
      DedupHas(before, it);
      assert items == before + [it];
    }
  }

  /** In the order of first occurrence: what is deduplicated first comes first. */
  lemma {:induction false} DedupOrder(a: seq<string>, b: seq<string>)
    ensures DedupStrings(a) <= DedupStrings(a + b)
    decreases |b|
  {
    if b == [] {
      assert a + b == a;
    } else {
      assert (a + b)[..|a + b| - 1] == a + b[..|b| - 1];
      DedupOrder(a, b[..|b| - 1]);
    }
  }

  // ----- one agent -----

  /** The agents that are patched, and the role each fulfils. */
  function StandardRole(name: string): Option<string> {
    if name == "requirements-analyst" || name == "planning-analyst" then Some("analyst")
    else if name == "backend-developer" || name == "frontend-developer" || name == "test-developer" then Some(name)
    else if name == "qa" then Some(name)
    else None
  }

  function LifecyclePaths(name: string): seq<string> {
    if name == "requirements-analyst" then
      ["lifecycle/requirements", "lifecycle/ideas", "lifecycle/architecture/decisions"]
    else if name == "planning-analyst" then
      ["lifecycle/backend-plans", "lifecycle/frontend-plans", "lifecycle/test-plans", "lifecycle/requirements",
       "lifecycle/architecture/decisions"]
    else if name == "backend-developer" then ["lifecycle/backend-plans", "lifecycle/architecture/decisions"]
    else if name == "frontend-developer" then ["lifecycle/frontend-plans", "lifecycle/architecture/decisions"]
    else if name == "test-developer" then
      ["lifecycle/tests", "lifecycle/test-plans", "lifecycle/architecture/decisions"]
    else if name == "qa" then ["lifecycle/defects", "lifecycle/architecture/decisions"]
    else []
  }

  predicate DisabledFor(stack: Stack, role: string) {
    role in stack && !stack[role].required
  }

  /** The write paths of the role, then those every agent of this name has. */
  function ListedPaths(stack: Stack, role: string, name: string): seq<string> {
    (if role in stack then stack[role].writePaths else []) + LifecyclePaths(name)
  }

  function BlockFor(stack: Stack, role: string, clause: string -> string): string {
    RenderClause(MARKERS, clause(role), if role in stack then stack[role].commands else "")
  }

  /** What the patch does: which names are standard agents and their roles, which roles it disables,
      and the write paths, repeats included, and the prompt block of each. */
  datatype Plan = Plan(
    roleOf: string -> Option<string>,
    disables: string -> bool,
    listed: (string, string) -> seq<string>,
    block: string -> string)

  /** The plan for a stack; clause gives the architecture clause of a role. */
  function StackPlan(stack: Stack, clause: string -> string): Plan {
    Plan(StandardRole,
         (role: string) => DisabledFor(stack, role),
         (name: string, role: string) => ListedPaths(stack, role, name),
         (role: string) => BlockFor(stack, role, clause))
  }

  function WritePaths(plan: Plan, name: string, role: string): seq<string> {
    DedupStrings(plan.listed(name, role))
  }

  /** Every block of the plan has a region. */
  ghost predicate Renders(plan: Plan) {
    forall role :: IsBlock(MARKERS, plan.block(role))
  }

  lemma StackPlanRenders(stack: Stack, clause: string -> string)
    ensures Renders(StackPlan(stack, clause))
  {
    ShippedMarkersApart();
    forall role
      ensures IsBlock(MARKERS, BlockFor(stack, role, clause))
    {
      RenderedIsBlock(MARKERS, clause(role), if role in stack then stack[role].commands else "");
    }
  }

  /** The name and role of an agent that is patched. */
  function Standard(n: Node, plan: Plan): Option<(string, string)> {
    match MappingValue(n, NAME)
    case None => None
    case Some(name) =>
      match plan.roleOf(name.value)
      case None => None
      case Some(role) => Some((name.value, role))
  }

  function Edited(n: Node, disabled: bool, paths: seq<string>, block: string): Node {
    PatchPrompts(SetStringSequence(SetDisabled(n, disabled), WRITE_PATHS, paths), block)
  }

  function PatchAgent(n: Node, plan: Plan): Node {
    match Standard(n, plan)
    case None => n
    case Some((name, role)) => Edited(n, plan.disables(role), WritePaths(plan, name, role), plan.block(role))
  }

  // ----- what an edit of one key leaves alone -----

  /** Both nodes are mappings or neither is, and they agree on what a key means. */
  predicate Agree(a: Node, b: Node, key: string) {
    a.kind == b.kind && MappingValue(a, key) == MappingValue(b, key)
  }

  lemma WithValueAgrees(n: Node, i: nat, val: Node, key: string)
    requires i < |n.pairs| && n.pairs[i].key.value != key
    ensures Agree(WithValue(n, i, val), n, key)
  {
    var m := WithValue(n, i, val);
    FirstIndexIs(m.pairs, HasKey(key), KeyIndex(n, key));
  }

  lemma WithValueGets(n: Node, val: Node, key: string)
    requires n.kind.Mapping? && KeyIndex(n, key) < |n.pairs|
    ensures var m := WithValue(n, KeyIndex(n, key), val);
            KeyIndex(m, key) == KeyIndex(n, key) && MappingValue(m, key) == Some(val) && m.kind == n.kind
  {
    var m := WithValue(n, KeyIndex(n, key), val);
    FirstIndexIs(m.pairs, HasKey(key), KeyIndex(n, key));
  }

  lemma WithPairAgrees(n: Node, added: string, val: Node, key: string)
    requires added != key
    ensures Agree(WithPair(n, added, val), n, key)
  {
    var m := WithPair(n, added, val);
    var i := KeyIndex(n, key);
    FirstIndexIs(m.pairs, HasKey(key), if i < |n.pairs| then i else |m.pairs|);
  }

  lemma WithPairGets(n: Node, key: string, val: Node)
    requires n.kind.Mapping? && KeyIndex(n, key) == |n.pairs|
    ensures var m := WithPair(n, key, val);
            KeyIndex(m, key) == |n.pairs| && MappingValue(m, key) == Some(val)
  {
    FirstIndexIs(WithPair(n, key, val).pairs, HasKey(key), |n.pairs|);
  }

  lemma RemoveAgrees(n: Node, removed: string, key: string)
    requires removed != key
    ensures Agree(RemoveMappingKey(n, removed), n, key)
  {
    var i, k := KeyIndex(n, removed), KeyIndex(n, key);
    var m := RemoveMappingKey(n, removed);
    if i < |n.pairs| {
      FirstIndexIs(m.pairs, HasKey(key), if k < i then k else k - 1);
    }
  }

  lemma SetDisabledAgrees(n: Node, disabled: bool, key: string)
    requires key != ENABLED
    ensures Agree(SetDisabled(n, disabled), n, key)
  {
    var i := KeyIndex(n, ENABLED);
    if !disabled {
      RemoveAgrees(n, ENABLED, key);
    } else if MappingValue(n, ENABLED).Some? {
      assert HasKey(ENABLED)(n.pairs[i]);
      WithValueAgrees(n, i, MarkedFalse(n.pairs[i].val), key);
    } else {
      WithPairAgrees(n, ENABLED, NewScalar("false", "!!bool"), key);
    }
  }

  lemma SetSequenceAgrees(n: Node, target: string, values: seq<string>, key: string)
    requires key != target
    ensures Agree(SetStringSequence(n, target, values), n, key)
  {
    var i := KeyIndex(n, target);
    if MappingValue(n, target).Some? {
      assert HasKey(target)(n.pairs[i]);
      WithValueAgrees(n, i, AsSequence(n.pairs[i].val, values), key);
    } else {
      WithPairAgrees(n, target, AsSequence(BLANK, values), key);
    }
  }

  lemma PatchPromptsAgrees(n: Node, block: string, key: string)
    requires key != PROMPTS
    ensures Agree(PatchPrompts(n, block), n, key)
  {
    var i := KeyIndex(n, PROMPTS);
    if MappingValue(n, PROMPTS).Some? {
      assert HasKey(PROMPTS)(n.pairs[i]);
      WithValueAgrees(n, i, MergePrompts(n.pairs[i].val, block), key);
    }
  }

  lemma KeysDiffer()
    ensures ENABLED != WRITE_PATHS && ENABLED != PROMPTS && ENABLED != NAME
    ensures WRITE_PATHS != PROMPTS && WRITE_PATHS != NAME && PROMPTS != NAME
  {
    assert |ENABLED| == 7 && |WRITE_PATHS| == 19 && |PROMPTS| == 16 && |NAME| == 4;
  }

  /** A patched agent keeps its name, its kind, and every key but the three. */
  lemma EditKeepsKeys(n: Node, disabled: bool, paths: seq<string>, block: string, key: string)
    requires key != ENABLED && key != WRITE_PATHS && key != PROMPTS
    ensures Agree(Edited(n, disabled, paths, block), n, key)
  {
    var d := SetDisabled(n, disabled);
    var s := SetStringSequence(d, WRITE_PATHS, paths);
    SetDisabledAgrees(n, disabled, key);
    SetSequenceAgrees(d, WRITE_PATHS, paths, key);
    PatchPromptsAgrees(s, block, key);
  }

  // ----- editing twice -----

  predicate AtMostOnce(n: Node, key: string) {
    forall i, j :: 0 <= i < j < |n.pairs| ==> !(n.pairs[i].key.value == key && n.pairs[j].key.value == key)
  }

  /** A prompt that is read back as it was merged: it has a region, or no start marker. */
  predicate Settles(prompt: string) {
    HasMarkers(MARKERS, prompt) || Index(prompt, GEN_START) < 0
  }

  predicate PromptsSettle(n: Node) {
    var pt := MappingValue(n, PROMPTS);
    pt.Some? && pt.value.kind.Mapping? ==>
      forall i :: 0 <= i < |pt.value.pairs| ==> Settles(pt.value.pairs[i].val.value)
  }

  lemma RemovedIff(n: Node, key: string)
    requires n.kind.Mapping?
    ensures MappingValue(RemoveMappingKey(n, key), key) == None <==> AtMostOnce(n, key)
  {
    var i := KeyIndex(n, key);
    var m := RemoveMappingKey(n, key);
    var k := KeyIndex(m, key);
    if i < |n.pairs| {
      assert HasKey(key)(n.pairs[i]);
      if k < |m.pairs| {
        assert HasKey(key)(m.pairs[k]);
        assert k >= i && n.pairs[k + 1].key.value == key;
      } else {
        forall j | 0 <= j < |n.pairs| && j != i
          ensures n.pairs[j].key.value != key
        {
          assert j > i ==> m.pairs[j - 1] == n.pairs[j] && !HasKey(key)(m.pairs[j - 1]);
          assert j < i ==> !HasKey(key)(n.pairs[j]);
        }
      }
    } else {
      forall j | 0 <= j < |n.pairs|
        ensures n.pairs[j].key.value != key
      {
        assert !HasKey(key)(n.pairs[j]);
      }
    }
  }

  lemma SameValue(n: Node, key: string)
    requires MappingValue(n, key).Some?
    ensures WithValue(n, KeyIndex(n, key), MappingValue(n, key).value) == n
  {
  }

  /** After disabling, the key is there and says false; after enabling, it is gone unless it stood
      there twice. */
  lemma DisabledGets(n: Node, disabled: bool)
    requires n.kind.Mapping?
    ensures var v := MappingValue(SetDisabled(n, disabled), ENABLED);
            if disabled then v.Some? && MarkedFalse(v.value) == v.value
            else v == None <==> AtMostOnce(n, ENABLED)
  {
    var i := KeyIndex(n, ENABLED);
    if !disabled {
      RemovedIff(n, ENABLED);
      if i == |n.pairs| {
        assert RemoveMappingKey(n, ENABLED) == n;
      }
    } else if i < |n.pairs| {
      WithValueGets(n, MarkedFalse(n.pairs[i].val), ENABLED);
    } else {
      WithPairGets(n, ENABLED, NewScalar("false", "!!bool"));
    }
  }

  lemma SequenceGets(n: Node, key: string, values: seq<string>)
    requires n.kind.Mapping?
    ensures var v := MappingValue(SetStringSequence(n, key, values), key);
            v.Some? && AsSequence(v.value, values) == v.value
  {
    var i := KeyIndex(n, key);
    if i < |n.pairs| {
      WithValueGets(n, AsSequence(n.pairs[i].val, values), key);
    } else {
      WithPairGets(n, key, AsSequence(BLANK, values));
    }
  }

  lemma PromptsGet(n: Node, block: string)
    requires n.kind.Mapping?
    ensures var pt, v := MappingValue(n, PROMPTS), MappingValue(PatchPrompts(n, block), PROMPTS);
            v == if pt.Some? && pt.value.kind.Mapping? then Some(MergePrompts(pt.value, block)) else pt
  {
    var i := KeyIndex(n, PROMPTS);
    if i < |n.pairs| && n.pairs[i].val.kind.Mapping? {
      WithValueGets(n, MergePrompts(n.pairs[i].val, block), PROMPTS);
    }
  }

  /** Merging the prompts again changes nothing exactly when each of them settles. */
  lemma MergeAgain(pt: Node, block: string)
    requires IsBlock(MARKERS, block)
    ensures MergePrompts(MergePrompts(pt, block), block) == MergePrompts(pt, block)
            <==> forall i :: 0 <= i < |pt.pairs| ==> Settles(pt.pairs[i].val.value)
  {
    ShippedMarkersApart();
    var once := MergePrompts(pt, block).pairs;
    var twice := MergePrompts(MergePrompts(pt, block), block).pairs;
    forall i | 0 <= i < |pt.pairs|
      ensures twice[i] == once[i] <==> Settles(pt.pairs[i].val.value)
    {
      PairAgain(pt.pairs[i], block);
    }
    assert twice == once <==> forall i :: 0 <= i < |pt.pairs| ==> twice[i] == once[i];
  }

  lemma PairAgain(p: Pair, block: string)
    requires Apart(MARKERS) && IsBlock(MARKERS, block)
    ensures MergePrompt(block)(MergePrompt(block)(p)) == MergePrompt(block)(p) <==> Settles(p.val.value)
  {
    MergeBlockTwice(MARKERS, p.val.value, block);
  }

  lemma PromptsAgain(e: Node, n: Node, block: string)
    requires IsBlock(MARKERS, block) && n.kind.Mapping? && Agree(n, e, PROMPTS)
    ensures PatchPrompts(PatchPrompts(e, block), block) == PatchPrompts(e, block) <==> PromptsSettle(n)
  {
    PromptsGet(e, block);
    var m := PatchPrompts(e, block);
    var pt := MappingValue(e, PROMPTS);
    if pt.Some? && pt.value.kind.Mapping? {
      MergeAgain(pt.value, block);
      WithValueGets(e, MergePrompts(pt.value, block), PROMPTS);
      SameValue(m, PROMPTS);
      WithValueGets(m, MergePrompts(MergePrompts(pt.value, block), block), PROMPTS);
    }
  }

  lemma SequenceAgain(e: Node, key: string, values: seq<string>)
    requires MappingValue(e, key).Some? && AsSequence(MappingValue(e, key).value, values) == MappingValue(e, key).value
    ensures SetStringSequence(e, key, values) == e
  {
    SameValue(e, key);
  }

  /** The key values of an edited agent, edit by edit. */
  lemma EditedGets(n: Node, disabled: bool, paths: seq<string>, block: string)
    requires n.kind.Mapping?
    ensures var d := SetDisabled(n, disabled);
            var s := SetStringSequence(d, WRITE_PATHS, paths);
            var e := PatchPrompts(s, block);
            && Agree(s, n, PROMPTS) && Agree(e, s, WRITE_PATHS) && Agree(e, d, ENABLED) && e.kind.Mapping?
  {
    KeysDiffer();
    var d := SetDisabled(n, disabled);
    var s := SetStringSequence(d, WRITE_PATHS, paths);
    SetDisabledAgrees(n, disabled, PROMPTS);
    SetSequenceAgrees(d, WRITE_PATHS, paths, PROMPTS);
    SetSequenceAgrees(d, WRITE_PATHS, paths, ENABLED);
    PatchPromptsAgrees(s, block, WRITE_PATHS);
    PatchPromptsAgrees(s, block, ENABLED);
  }

  /** A second enabling would remove another pair, which no later edit puts back. */
  lemma EnableShrinks(e: Node, paths: seq<string>, block: string)
    requires e.kind.Mapping? && MappingValue(e, ENABLED).Some? && MappingValue(e, WRITE_PATHS).Some?
    ensures Edited(e, false, paths, block) != e
  {
    KeysDiffer();
    SetDisabledAgrees(e, false, WRITE_PATHS);
    var d := SetDisabled(e, false);
    assert |d.pairs| < |e.pairs|;
    assert |SetStringSequence(d, WRITE_PATHS, paths).pairs| == |d.pairs|;
  }

  lemma DisableAgain(e: Node, disabled: bool)
    requires if disabled
             then MappingValue(e, ENABLED).Some?
                  && MarkedFalse(MappingValue(e, ENABLED).value) == MappingValue(e, ENABLED).value
             else MappingValue(e, ENABLED) == None
    ensures SetDisabled(e, disabled) == e
  {
    if disabled {
      SameValue(e, ENABLED);
    }
  }

  /** Editing an agent twice is editing it once, exactly when it is disabled or its enabled key does
      not stand there twice, and all its prompts settle. */
  lemma EditTwice(n: Node, disabled: bool, paths: seq<string>, block: string)
    requires n.kind.Mapping? && IsBlock(MARKERS, block)
    ensures var e := Edited(n, disabled, paths, block);
            Edited(e, disabled, paths, block) == e <==> (disabled || AtMostOnce(n, ENABLED)) && PromptsSettle(n)
  {
    var d := SetDisabled(n, disabled);
    var s := SetStringSequence(d, WRITE_PATHS, paths);
    var e := PatchPrompts(s, block);
    EditedGets(n, disabled, paths, block);
    DisabledGets(n, disabled);
    SequenceGets(d, WRITE_PATHS, paths);
    if disabled || AtMostOnce(n, ENABLED) {
      DisableAgain(e, disabled);
      SequenceAgain(e, WRITE_PATHS, paths);
      PromptsAgain(s, n, block);
    } else {
      EnableShrinks(e, paths, block);
    }
  }

  predicate AgentSettles(n: Node, plan: Plan) {
    match Standard(n, plan)
    case None => true
    case Some((name, role)) => (plan.disables(role) || AtMostOnce(n, ENABLED)) && PromptsSettle(n)
  }

  /** A patched agent is still the same standard agent. */
  lemma PatchKeepsName(n: Node, plan: Plan)
    ensures Standard(PatchAgent(n, plan), plan) == Standard(n, plan)
  {
    match Standard(n, plan)
    case None =>
    case Some((name, role)) =>
      KeysDiffer();
      EditKeepsKeys(n, plan.disables(role), WritePaths(plan, name, role), plan.block(role), NAME);
  }

  lemma PatchAgentTwice(n: Node, plan: Plan)
    requires Renders(plan)
    ensures var once := PatchAgent(n, plan);
            PatchAgent(once, plan) == once <==> AgentSettles(n, plan)
  {
    PatchKeepsName(n, plan);
    match Standard(n, plan)
    case None =>
    case Some((name, role)) =>
      EditTwice(n, plan.disables(role), WritePaths(plan, name, role), plan.block(role));
  }

  // ----- the document -----

  const AGENTS := "agents"

  datatype ConfigError = NotAMapping

  function Patcher(plan: Plan): Node -> Node {
    (n: Node) => PatchAgent(n, plan)
  }

  function AgentItems(root: Node): Option<seq<Node>> {
    var agents := MappingValue(root, AGENTS);
    if agents.Some? && agents.value.kind.Sequence? then Some(agents.value.items) else None
  }

  /** A document without a sequence of agents is left as it is. */
  function PatchConfig(root: Node, plan: Plan): Result<Node, ConfigError> {
    if !root.kind.Mapping? then Err(NotAMapping)
    else if AgentItems(root).None? then Ok(root)
    else
      var agents := MappingValue(root, AGENTS).value;
      Ok(WithValue(root, KeyIndex(root, AGENTS), agents.(items := Map(Patcher(plan), agents.items))))
  }

  /** Every standard agent of the document settles. */
  predicate AgentsSettle(root: Node, plan: Plan) {
    match AgentItems(root)
    case None => true
    case Some(agents) => forall i :: 0 <= i < |agents| ==> AgentSettles(agents[i], plan)
  }

  /** Agents are patched in their places; every other top-level key, and every agent that is not one
      of the six, is what it was. */
  lemma OthersUntouched(root: Node, plan: Plan, key: string)
    requires root.kind.Mapping?
    ensures var out := PatchConfig(root, plan);
            && out.Ok?
            && (key != AGENTS ==> MappingValue(out.value, key) == MappingValue(root, key))
            && (AgentItems(root).Some? ==>
                  && AgentItems(out.value).Some? && |AgentItems(out.value).value| == |AgentItems(root).value|
                  && forall i ::
                       0 <= i < |AgentItems(root).value| && Standard(AgentItems(root).value[i], plan).None? ==>
                       AgentItems(out.value).value[i] == AgentItems(root).value[i])
  {
    if AgentItems(root).Some? {
      var i := KeyIndex(root, AGENTS);
      var agents := MappingValue(root, AGENTS).value;
      var patched := agents.(items := Map(Patcher(plan), agents.items));
      assert HasKey(AGENTS)(root.pairs[i]);
      if key != AGENTS {
        WithValueAgrees(root, i, patched, key);
      }
      WithValueGets(root, patched, AGENTS);
    }
  }

  /** Patching the document twice is patching it once, exactly when every standard agent settles. */
  lemma PatchTwice(root: Node, plan: Plan)
    requires root.kind.Mapping? && Renders(plan)
    ensures var once := PatchConfig(root, plan);
            && once.Ok?
            && (PatchConfig(once.value, plan) == once <==> AgentsSettle(root, plan))
  {
    if AgentItems(root).Some? {
      var agents := MappingValue(root, AGENTS).value;
      var f := Patcher(plan);
      var once := agents.(items := Map(f, agents.items));
      WithValueGets(root, once, AGENTS);
      forall i | 0 <= i < |agents.items|
        ensures Map(f, Map(f, agents.items))[i] == Map(f, agents.items)[i] <==> AgentSettles(agents.items[i], plan)
      {
        PatchAgentTwice(agents.items[i], plan);
      }
      TwiceIff(root, once, Map(f, once.items), plan);
    }
  }

  /** The same for the patch of a stack, whatever the architecture clauses say. */
  lemma StackPatchTwice(root: Node, stack: Stack, clause: string -> string)
    requires root.kind.Mapping?
    ensures var plan := StackPlan(stack, clause);
            var once := PatchConfig(root, plan);
            && once.Ok?
            && (PatchConfig(once.value, plan) == once <==> AgentsSettle(root, plan))
  {
    StackPlanRenders(stack, clause);
    PatchTwice(root, StackPlan(stack, clause));
  }

  lemma TwiceIff(root: Node, once: Node, twice: seq<Node>, plan: Plan)
    requires root.kind.Mapping? && KeyIndex(root, AGENTS) < |root.pairs| && |twice| == |once.items|
    ensures var out := WithValue(root, KeyIndex(root, AGENTS), once);
            && KeyIndex(out, AGENTS) == KeyIndex(root, AGENTS) && MappingValue(out, AGENTS) == Some(once)
            && (WithValue(out, KeyIndex(out, AGENTS), once.(items := twice)) == out
                <==> forall i :: 0 <= i < |twice| ==> twice[i] == once.items[i])
  {
    WithValueGets(root, once, AGENTS);
    var out := WithValue(root, KeyIndex(root, AGENTS), once);
    var i := KeyIndex(out, AGENTS);
    var again := WithValue(out, i, once.(items := twice));
    assert again.pairs[i].val == once.(items := twice);
    if forall i :: 0 <= i < |twice| ==> twice[i] == once.items[i] {
      assert twice == once.items;
      SameValue(out, AGENTS);
    }
  }

  /** The end of a prompt from its end marker on. */
  function BehindOf(prompt: string): string
    requires HasMarkers(MARKERS, prompt)
  {
    ShippedMarkersApart();
    Behind(MARKERS, prompt)
  }

  /** Around an existing region everything is kept, and without one the whole prompt but its
      trailing line breaks. */
  predicate ProseKept(prompt: string, out: string) {
    if HasMarkers(MARKERS, prompt)
    then HasMarkers(MARKERS, out) && Before(MARKERS, out) == Before(MARKERS, prompt)
         && BehindOf(out) == BehindOf(prompt)
    else TrimBreaks(prompt) <= out
  }

  lemma PromptKept(prompt: string, block: string)
    requires IsBlock(MARKERS, block)
    ensures ProseKept(prompt, MergeBlock(MARKERS, prompt, block))
  {
    ShippedMarkersApart();
    MergeKeepsProse(MARKERS, prompt, block);
  }

  /** The same prompts under the same keys, each with its prose. */
  predicate PromptsKept(before: Node, after: Node) {
    && |after.pairs| == |before.pairs|
    && forall i :: 0 <= i < |before.pairs| ==>
         && after.pairs[i].key == before.pairs[i].key
         && ProseKept(before.pairs[i].val.value, after.pairs[i].val.value)
  }

  lemma MergePromptsKeeps(pt: Node, block: string)
    requires IsBlock(MARKERS, block)
    ensures PromptsKept(pt, MergePrompts(pt, block))
  {
    forall i | 0 <= i < |pt.pairs|
      ensures ProseKept(pt.pairs[i].val.value, MergePrompt(block)(pt.pairs[i]).val.value)
    {
      PromptKept(pt.pairs[i].val.value, block);
    }
  }

  /** What was written by hand in a prompt outlives the patch. */
  lemma PatchKeepsProse(n: Node, plan: Plan)
    requires Standard(n, plan).Some? && Renders(plan)
    requires MappingValue(n, PROMPTS).Some? && MappingValue(n, PROMPTS).value.kind.Mapping?
    ensures var after := MappingValue(PatchAgent(n, plan), PROMPTS);
            after.Some? && PromptsKept(MappingValue(n, PROMPTS).value, after.value)
  {
    var (name, role) := Standard(n, plan).value;
    var disabled, paths, block := plan.disables(role), WritePaths(plan, name, role), plan.block(role);
    EditedGets(n, disabled, paths, block);
    PromptsGet(SetStringSequence(SetDisabled(n, disabled), WRITE_PATHS, paths), block);
    MergePromptsKeeps(MappingValue(n, PROMPTS).value, block);
  }

  /** A standard agent ends up with exactly the write paths of its role and name, each once. */
  lemma PatchSetsPaths(n: Node, plan: Plan)
    requires Standard(n, plan).Some?
    ensures var (name, role) := Standard(n, plan).value;
            var v := MappingValue(PatchAgent(n, plan), WRITE_PATHS);
            && v.Some? && v.value.kind.Sequence? && v.value.items == Map(ToItem, WritePaths(plan, name, role))
  {
    var (name, role) := Standard(n, plan).value;
    var disabled, paths := plan.disables(role), WritePaths(plan, name, role);
    EditedGets(n, disabled, paths, plan.block(role));
    SetDisabledAgrees(n, disabled, NAME);
    SequenceGets(SetDisabled(n, disabled), WRITE_PATHS, paths);
  }
}
