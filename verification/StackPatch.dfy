/** What PatchAgentConfig of internal/directives/config_patch.go does for a stack profile, agent by
    agent: which agents it disables and reports, which write paths and which block they get. */
module StackPatch {
  import opened Results
  import opened Text
  import opened Sorting
  import opened ManagedRegion
  import opened PromptMerge
  import opened AgentConfig
  import opened ConfigTree

  /** The six standard agents and their roles. */
  predicate IsStandard(name: string, role: string) {
    || (role == "analyst" && name in {"requirements-analyst", "planning-analyst"})
    || (role == name && name in {"backend-developer", "frontend-developer", "test-developer", "qa"})
  }

  /** The first pair with the key holds the value. */
  predicate Holds(n: Node, key: string, i: nat) {
    && n.kind.Mapping? && i < |n.pairs| && n.pairs[i].key.value == key
    && forall j :: 0 <= j < i ==> n.pairs[j].key.value != key
  }

  predicate Lacks(n: Node, key: string) {
    !n.kind.Mapping? || forall j :: 0 <= j < |n.pairs| ==> n.pairs[j].key.value != key
  }

  lemma HeldValue(n: Node, key: string, i: nat)
    requires Holds(n, key, i)
    ensures MappingValue(n, key) == Some(n.pairs[i].val)
  {
    FirstIndexIs(n.pairs, HasKey(key), i);
  }

  lemma ValueIsHeld(n: Node, key: string) returns (i: nat)
    ensures MappingValue(n, key).Some? ==> Holds(n, key, i) && MappingValue(n, key) == Some(n.pairs[i].val)
    ensures MappingValue(n, key).None? ==> Lacks(n, key)
  {
    i := KeyIndex(n, key);
    if i < |n.pairs| {
      assert HasKey(key)(n.pairs[i]);
    }
    assert forall j :: 0 <= j < i ==> !HasKey(key)(n.pairs[j]);
  }

  /** The node is the configuration of this standard agent. */
  predicate IsAgent(n: Node, name: string, role: string, i: nat) {
    Holds(n, "name", i) && n.pairs[i].val.value == name && IsStandard(name, role)
  }

  lemma RoleIs(name: string, role: string)
    ensures StandardRole(name) == Some(role) <==> IsStandard(name, role)
  {
  }

  lemma AgentIs(n: Node, name: string, role: string, i: nat, stack: Stack, clause: string -> string)
    requires IsAgent(n, name, role, i)
    ensures Standard(n, StackPlan(stack, clause)) == Some((name, role))
  {
    HeldValue(n, "name", i);
    RoleIs(name, role);
  }

  lemma AgentOf(n: Node, stack: Stack, clause: string -> string) returns (i: nat)
    requires Standard(n, StackPlan(stack, clause)).Some?
    ensures var (name, role) := Standard(n, StackPlan(stack, clause)).value; IsAgent(n, name, role, i)
  {
    i := ValueIsHeld(n, "name");
    var (name, role) := Standard(n, StackPlan(stack, clause)).value;
    RoleIs(name, role);
  }

  /** A mapping that does not name one of the six, and any other node, is left alone. */
  lemma OthersLeftAlone(n: Node, stack: Stack, clause: string -> string)
    requires forall i, role :: 0 <= i < |n.pairs| && Holds(n, "name", i) ==> !IsStandard(n.pairs[i].val.value, role)
    ensures PatchAgent(n, StackPlan(stack, clause)) == n
  {
    if Standard(n, StackPlan(stack, clause)).Some? {
      var i := AgentOf(n, stack, clause);
      var (name, role) := Standard(n, StackPlan(stack, clause)).value;
      assert false;
    }
  }

  // ----- who is disabled -----

  /** A standard agent whose role the stack does without says enabled: false afterwards; any other one
      has no such key any more, unless it stood there more than once. */
  lemma StackDisables(n: Node, stack: Stack, clause: string -> string, name: string, role: string, i: nat)
    requires IsAgent(n, name, role, i)
    ensures var m := PatchAgent(n, StackPlan(stack, clause));
            if role in stack && stack[role].required == false
            then exists k :: 0 <= k < |m.pairs| && Holds(m, "enabled", k)
                             && m.pairs[k].val.value == "false" && m.pairs[k].val.tag == "!!bool"
            else Lacks(m, "enabled") <==> AtMostOnce(n, "enabled")
  {
    var plan := StackPlan(stack, clause);
    var m := PatchAgent(n, plan);
    AgentIs(n, name, role, i, stack, clause);
    EditedGets(n, plan.disables(role), WritePaths(plan, name, role), plan.block(role));
    DisabledGets(n, plan.disables(role));
    var k := ValueIsHeld(m, "enabled");
    if MappingValue(m, "enabled").Some? {
      assert !Lacks(m, "enabled");
    }
  }

  /** Nobody else is reported as disabled, and nobody is left out. */
  lemma StackReports(root: Node, stack: Stack, clause: string -> string, name: string)
    requires AgentItems(root).Some?
    ensures name in DocumentNames(root, StackPlan(stack, clause)) <==>
      exists k, i, role :: 0 <= k < |AgentItems(root).value| && 0 <= i < |AgentItems(root).value[k].pairs|
                           && IsAgent(AgentItems(root).value[k], name, role, i)
                           && role in stack && stack[role].required == false
  {
    var agents, plan := AgentItems(root).value, StackPlan(stack, clause);
    SortKeepsAll(DisabledNames(agents, plan), Below);
    SameElements(DisabledNames(agents, plan), DocumentNames(root, plan), name);
    ReportedNames(agents, plan, name);
    if k :| 0 <= k < |agents| && name in DisabledName(agents[k], plan) {
      var i := AgentOf(agents[k], stack, clause);
      var role := Standard(agents[k], plan).value.1;
      assert IsAgent(agents[k], name, role, i);
    }
    if k, i, role :| 0 <= k < |agents| && 0 <= i < |agents[k].pairs| && IsAgent(agents[k], name, role, i)
                     && role in stack && stack[role].required == false {
      AgentIs(agents[k], name, role, i, stack, clause);
      assert name in DisabledName(agents[k], plan);
    }
  }

  lemma {:induction false} ReportedNames(agents: seq<Node>, plan: Plan, name: string)
    ensures name in DisabledNames(agents, plan) <==>
      exists k :: 0 <= k < |agents| && name in DisabledName(agents[k], plan)
  {
    if agents != [] {
      var n := |agents| - 1;
      ReportedNames(agents[..n], plan, name);
      ReportedBefore(agents, n, plan, name);
    }
  }

  lemma ReportedBefore(agents: seq<Node>, n: nat, plan: Plan, name: string)
    requires n <= |agents|
    ensures (exists k :: 0 <= k < n && name in DisabledName(agents[..n][k], plan))
            <==> exists k :: 0 <= k < n && name in DisabledName(agents[k], plan)
  {
    if k :| 0 <= k < n && name in DisabledName(agents[k], plan) {
      assert name in DisabledName(agents[..n][k], plan);
    }
  }

  /** The report is sorted by name. */
  lemma ReportIsSorted(root: Node, plan: Plan, i: nat, j: nat)
    requires i < j < |DocumentNames(root, plan)|
    ensures var names := DocumentNames(root, plan); names[i] == names[j] || Below(names[i], names[j])
  {
    BelowOrders();
    SortSorts(DisabledNames(AgentItems(root).value, plan), Below);
    BelowTotal(DocumentNames(root, plan)[i], DocumentNames(root, plan)[j]);
  }

  // ----- write paths -----

  /** The items of the list, each once, where it stands first, without the empty ones. */
  predicate OnceInOrder(list: seq<string>, items: seq<string>, at: seq<nat>) {
    && |at| == |items|
    && (forall k :: 0 <= k < |at| ==> at[k] < |list| && list[at[k]] == items[k] && items[k] != "")
    && (forall k :: 0 <= k < |at| ==> forall j :: 0 <= j < at[k] ==> list[j] != items[k])
    && (forall k, l :: 0 <= k < l < |at| ==> at[k] < at[l])
    && forall j :: 0 <= j < |list| && list[j] != "" ==> list[j] in items
  }

  lemma {:induction false} DedupIsInOrder(list: seq<string>) returns (at: seq<nat>)
    ensures OnceInOrder(list, DedupStrings(list), at)
  {
    if list == [] {
      at := [];
    } else {
      var n := |list| - 1;
      at := DedupIsInOrder(list[..n]);
      DedupHas(list[..n], list[n]);
      if list[n] == "" || list[n] in list[..n] {
        OnceMore(list, DedupStrings(list[..n]), at);
      } else {
        OneMore(list, DedupStrings(list[..n]), at);
        at := at + [n];
      }
    }
  }

  lemma OnceMore(list: seq<string>, items: seq<string>, at: seq<nat>)
    requires list != [] && OnceInOrder(list[..|list| - 1], items, at)
    requires list[|list| - 1] == "" || list[|list| - 1] in list[..|list| - 1]
    ensures OnceInOrder(list, items, at)
  {
    var before := list[..|list| - 1];
    assert forall j :: 0 <= j < |before| ==> before[j] == list[j];
    forall j | 0 <= j < |list| && list[j] != ""
      ensures list[j] in items
    {
      if j == |list| - 1 {
        var k :| 0 <= k < |before| && before[k] == list[j];
      }
    }
  }

  lemma OneMore(list: seq<string>, items: seq<string>, at: seq<nat>)
    requires list != [] && OnceInOrder(list[..|list| - 1], items, at)
    requires list[|list| - 1] != "" && list[|list| - 1] !in list[..|list| - 1]
    ensures OnceInOrder(list, items + [list[|list| - 1]], at + [|list| - 1])
  {
    var before := list[..|list| - 1];
    assert forall j :: 0 <= j < |before| ==> before[j] == list[j] && before[j] in before;
  }

  /** The lifecycle directories an agent may write to whatever the stack. */
  lemma LifecycleIs(name: string, path: string)
    ensures path in LifecyclePaths(name) <==>
      || (path == "lifecycle/architecture/decisions" && exists role :: IsStandard(name, role))
      || (name == "requirements-analyst" && path in {"lifecycle/requirements", "lifecycle/ideas"})
      || (name == "planning-analyst"
          && path in {"lifecycle/backend-plans", "lifecycle/frontend-plans", "lifecycle/test-plans",
                      "lifecycle/requirements"})
      || (name == "backend-developer" && path == "lifecycle/backend-plans")
      || (name == "frontend-developer" && path == "lifecycle/frontend-plans")
      || (name == "test-developer" && path in {"lifecycle/tests", "lifecycle/test-plans"})
      || (name == "qa" && path == "lifecycle/defects")
  {
    assert IsStandard("requirements-analyst", "analyst") && IsStandard("planning-analyst", "analyst");
    assert IsStandard("backend-developer", "backend-developer") && IsStandard("qa", "qa");
    assert IsStandard("frontend-developer", "frontend-developer");
    assert IsStandard("test-developer", "test-developer");
  }

  /** A plain string of a sequence. */
  predicate IsPlain(n: Node, value: string) {
    && n.kind.Scalar? && n.tag == "!!str" && n.value == value && n.style == 0
    && n.items == [] && n.pairs == []
  }

  /** A block sequence of these strings. */
  predicate IsBlockSequence(n: Node, values: seq<string>) {
    && n.kind.Sequence? && n.tag == "!!seq" && n.style == 0
    && |n.items| == |values| && forall j :: 0 <= j < |values| ==> IsPlain(n.items[j], values[j])
  }

  /** A standard agent may write to the paths of its role in the stack, and behind them to its lifecycle
      directories: each path once, where it is listed first. */
  lemma StackWrites(n: Node, stack: Stack, clause: string -> string, name: string, role: string, i: nat)
    returns (k: nat, paths: seq<string>, at: seq<nat>)
    requires IsAgent(n, name, role, i)
    ensures var m := PatchAgent(n, StackPlan(stack, clause));
            Holds(m, "allowed_write_paths", k) && IsBlockSequence(m.pairs[k].val, paths)
    ensures OnceInOrder((if role in stack then stack[role].writePaths else []) + LifecyclePaths(name), paths, at)
  {
    var plan := StackPlan(stack, clause);
    var m := PatchAgent(n, plan);
    AgentIs(n, name, role, i, stack, clause);
    PatchSetsPaths(n, plan);
    paths := WritePaths(plan, name, role);
    at := DedupIsInOrder(plan.listed(name, role));
    k := ValueIsHeld(m, "allowed_write_paths");
    EditedGets(n, plan.disables(role), paths, plan.block(role));
    SequenceGets(SetDisabled(n, plan.disables(role)), WRITE_PATHS, paths);
    SequenceIs(m.pairs[k].val, paths);
  }

  lemma SequenceIs(v: Node, values: seq<string>)
    requires AsSequence(v, values) == v
    ensures IsBlockSequence(v, values)
  {
    assert v.items == Map(ToItem, values);
  }

  // ----- prompts -----

  /** Every prompt of a standard agent is merged with the architecture clause of its role and, if the
      stack has any for it, the commands. */
  lemma StackPrompts(n: Node, stack: Stack, clause: string -> string, name: string, role: string, i: nat, k: nat)
    requires IsAgent(n, name, role, i) && Holds(n, "prompt_templates", k) && n.pairs[k].val.kind.Mapping?
    ensures var v := MappingValue(PatchAgent(n, StackPlan(stack, clause)), "prompt_templates");
            var before := n.pairs[k].val.pairs;
            var more := if role in stack && stack[role].commands != "" then "\n\n" + stack[role].commands else "";
            var block := GEN_START + ("\n" + clause(role) + more + "\n") + GEN_END;
            && v.Some? && |v.value.pairs| == |before|
            && forall j :: 0 <= j < |before| ==>
                 && v.value.pairs[j].key == before[j].key
                 && v.value.pairs[j].val == before[j].val.(value := MergeBlock(MARKERS, before[j].val.value, block))
  {
    var plan := StackPlan(stack, clause);
    AgentIs(n, name, role, i, stack, clause);
    HeldValue(n, "prompt_templates", k);
    EditedGets(n, plan.disables(role), WritePaths(plan, name, role), plan.block(role));
    PromptsGet(SetStringSequence(SetDisabled(n, plan.disables(role)), WRITE_PATHS, WritePaths(plan, name, role)),
               plan.block(role));
  }
}
