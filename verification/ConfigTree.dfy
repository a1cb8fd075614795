/** The in-place edits of internal/directives/config_patch.go on a tree of nodes, each proved to do to
    the tree what the function of AgentConfig does to its value. */
module ConfigTree {
  import opened Results
  import opened Text
  import opened Sorting
  import opened ManagedRegion
  import opened PromptMerge
  import opened AgentConfig

  // ----- alternating keys and values -----

  function PairsOf(ts: seq<Node>): (ps: seq<Pair>)
    ensures |ps| == |ts| / 2
  {
    seq(|ts| / 2, i requires 0 <= i < |ts| / 2 => Pair(ts[2 * i], ts[2 * i + 1]))
  }

  lemma PairsAppend(ts: seq<Node>, key: Node, val: Node)
    requires |ts| % 2 == 0
    ensures PairsOf(ts + [key, val]) == PairsOf(ts) + [Pair(key, val)]
  {
  }

  lemma PairsSet(ts: seq<Node>, i: nat, val: Node)
    requires |ts| % 2 == 0 && 2 * i + 1 < |ts|
    ensures PairsOf(ts[2 * i + 1 := val]) == PairsOf(ts)[i := PairsOf(ts)[i].(val := val)]
  {
  }

  lemma PairsRemove(ts: seq<Node>, i: nat)
    requires |ts| % 2 == 0 && 2 * i + 1 < |ts|
    ensures PairsOf(ts[..2 * i] + ts[2 * i + 2..]) == PairsOf(ts)[..i] + PairsOf(ts)[i + 1..]
  {
    var less := ts[..2 * i] + ts[2 * i + 2..];
    var ps, qs := PairsOf(less), PairsOf(ts)[..i] + PairsOf(ts)[i + 1..];
    forall k | 0 <= k < |ps|
      ensures ps[k] == qs[k]
    {
      if k >= i {
        assert less[2 * k] == ts[2 * (k + 1)] && less[2 * k + 1] == ts[2 * (k + 1) + 1];
      }
    }
  }

  /** A node and, below it, the nodes of its content; keys and values alternate in a mapping. No node
      hangs in two places. */
  class YamlNode {
    var kind: Kind
    var tag: string
    var value: string
    var style: nat
    var extra: string
    var content: seq<YamlNode>
    ghost var Repr: set<YamlNode>

    ghost predicate Valid()
      reads this, Repr
      decreases Repr
    {
      && this in Repr
      && (forall i :: 0 <= i < |content| ==>
            content[i] in Repr && content[i].Repr < Repr && this !in content[i].Repr && content[i].Valid())
      && (forall i, j :: 0 <= i < j < |content| ==> content[i].Repr !! content[j].Repr)
      && (kind.Mapping? ==> |content| % 2 == 0)
    }

    ghost function Kids(): (ts: seq<Node>)
      requires Valid()
      reads this, Repr
      ensures |ts| == |content|
      ensures forall i :: 0 <= i < |content| ==> ts[i] == content[i].Tree()
      decreases Repr, 0
    {
      seq(|content|, i requires 0 <= i < |content| && Valid() reads this, Repr => content[i].Tree())
    }

    /** The value of the tree. */
    ghost function Tree(): Node
      requires Valid()
      reads this, Repr
      decreases Repr, 1
    {
      Node(kind, tag, value, style, extra,
           if kind.Mapping? then [] else Kids(),
           if kind.Mapping? then PairsOf(Kids()) else [])
    }

    constructor Leaf(value: string, tag: string)
      ensures Valid() && fresh(Repr) && Repr == {this}
      ensures Tree() == NewScalar(value, tag)
    {
      kind, this.tag, this.value, style, extra, content := Scalar, tag, value, 0, "", [];
      Repr := {this};
    }
  }

  // ----- looking up -----

  lemma OwnFields(n: YamlNode)
    requires n.Valid()
    ensures n.Tree().kind == n.kind && n.Tree().value == n.value
  {
  }

  lemma PairAt(n: YamlNode, i: nat)
    requires n.Valid() && n.kind.Mapping? && 2 * i + 1 < |n.content|
    ensures |n.Tree().pairs| == |n.content| / 2
    ensures n.Tree().pairs[i] == Pair(n.content[2 * i].Tree(), n.content[2 * i + 1].Tree())
    ensures n.Tree().pairs[i].key.value == n.content[2 * i].value
    ensures n.Tree().pairs[i].val.value == n.content[2 * i + 1].value
    ensures n.Tree().pairs[i].val.kind == n.content[2 * i + 1].kind
  {
    var kids := n.Kids();
    assert n.Tree().pairs[i] == Pair(kids[2 * i], kids[2 * i + 1]);
    OwnFields(n.content[2 * i]);
    OwnFields(n.content[2 * i + 1]);
  }

  lemma PairKeys(n: YamlNode, ps: seq<Pair>)
    requires n.Valid() && n.kind.Mapping? && ps == n.Tree().pairs
    ensures |ps| == |n.content| / 2
    ensures forall k :: 0 <= k < |ps| ==> ps[k].key.value == n.content[2 * k].value
  {
    forall k | 0 <= k < |ps|
      ensures ps[k].key.value == n.content[2 * k].value
    {
      PairAt(n, k);
    }
  }

  /** mappingValue: the position of the first pair with the key. */
  method FindKey(n: YamlNode, key: string) returns (i: nat)
    requires n.Valid() && n.kind.Mapping?
    ensures i == KeyIndex(n.Tree(), key)
  {
    i := 0;
    ghost var t := n.Tree();
    ghost var ps := t.pairs;
    PairKeys(n, ps);
    while 2 * i + 1 < |n.content| && n.content[2 * i].value != key
      invariant i <= |ps|
      invariant forall k :: 0 <= k < i ==> ps[k].key.value != key
    {
      assert ps[i].key.value == n.content[2 * i].value;
      i := i + 1;
    }
    assert i < |ps| ==> ps[i].key.value == n.content[2 * i].value;
    FirstKey(t, key, i);
  }

  lemma FirstKey(n: Node, key: string, i: nat)
    requires i <= |n.pairs| && (i < |n.pairs| ==> n.pairs[i].key.value == key)
    requires forall k :: 0 <= k < i ==> n.pairs[k].key.value != key
    ensures i == KeyIndex(n, key)
  {
    FirstIndexIs(n.pairs, HasKey(key), i);
  }

  // ----- one edit at a time -----

  /** Appending a pair of new nodes. */
  method AppendPair(n: YamlNode, key: YamlNode, val: YamlNode)
    requires n.Valid() && n.kind.Mapping? && key.Valid() && val.Valid()
    requires n.Repr !! key.Repr && n.Repr !! val.Repr && key.Repr !! val.Repr
    modifies n
    ensures n.Valid() && n.kind.Mapping? && n.Repr == old(n.Repr) + old(key.Repr) + old(val.Repr)
    ensures n.Tree() == old(n.Tree()).(pairs := old(n.Tree()).pairs + [Pair(old(key.Tree()), old(val.Tree()))])
  {
    ghost var kids, k, v := n.Kids(), key.Tree(), val.Tree();
    MappingTree(n);
    n.content := n.content + [key, val];
    n.Repr := n.Repr + key.Repr + val.Repr;
    assert n.Valid();
    assert n.Kids() == kids + [k, v];
    PairsAppend(kids, k, v);
  }

  method RemovePair(n: YamlNode, i: nat)
    requires n.Valid() && n.kind.Mapping? && 2 * i + 1 < |n.content|
    modifies n
    ensures n.Valid() && n.Repr == old(n.Repr)
    ensures n.Tree() == old(n.Tree()).(pairs := old(n.Tree()).pairs[..i] + old(n.Tree()).pairs[i + 1..])
  {
    ghost var kids := n.Kids();
    n.content := n.content[..2 * i] + n.content[2 * i + 2..];
    assert n.Valid();
    assert n.Kids() == kids[..2 * i] + kids[2 * i + 2..];
    PairsRemove(kids, i);
  }

  // ----- the edits of an agent -----

  lemma Siblings(n: YamlNode, i: nat, c: nat)
    requires n.Valid() && i < |n.content| && c < |n.content| && i != c
    ensures n.content[i].Repr !! n.content[c].Repr && n.content[c] !in n.content[i].Repr
  {
    var lo, hi := if i < c then i else c, if i < c then c else i;
    assert n.content[lo].Repr !! n.content[hi].Repr;
    assert n.content[c].Valid();
  }

  /** Overwriting value and tag of one child. */
  method SetScalar(n: YamlNode, c: nat, value: string, tag: string)
    requires n.Valid() && c < |n.content|
    modifies n.content[c]
    ensures n.Valid() && n.Repr == old(n.Repr) && n.content == old(n.content)
    ensures n.Kids() == old(n.Kids())[c := old(n.Kids())[c].(value := value, tag := tag)]
  {
    ghost var kids := n.Kids();
    forall i | 0 <= i < |n.content| && i != c {
      Siblings(n, i, c);
    }
    var child := n.content[c];
    ghost var inner := child.Kids();
    child.value := value;
    child.tag := tag;
    assert child.Valid();
    assert child.Kids() == inner;
    assert n.Valid();
    assert n.Kids() == kids[c := kids[c].(value := value, tag := tag)];
  }

  method MakeItems(values: seq<string>) returns (nodes: seq<YamlNode>)
    ensures |nodes| == |values|
    ensures forall i :: 0 <= i < |nodes| ==> fresh(nodes[i])
    ensures forall i :: 0 <= i < |nodes| ==>
      nodes[i].Valid() && nodes[i].Repr == {nodes[i]} && nodes[i].Tree() == ToItem(values[i])
    ensures forall i, j :: 0 <= i < j < |nodes| ==> nodes[i] != nodes[j]
  {
    nodes := [];
    for k := 0 to |values|
      invariant |nodes| == k
      invariant forall i :: 0 <= i < |nodes| ==> fresh(nodes[i])
      invariant forall i :: 0 <= i < |nodes| ==>
        nodes[i].Valid() && nodes[i].Repr == {nodes[i]} && nodes[i].Tree() == ToItem(values[i])
      invariant forall i, j :: 0 <= i < j < |nodes| ==> nodes[i] != nodes[j]
    {
      var node := new YamlNode.Leaf(values[k], "!!str");
      nodes := nodes + [node];
    }
  }

  /** Leaves in place of the content. */
  method SetLeaves(node: YamlNode, leaves: seq<YamlNode>)
    requires node !in leaves && !node.kind.Mapping?
    requires forall i :: 0 <= i < |leaves| ==> leaves[i].Valid() && leaves[i].Repr == {leaves[i]}
    requires forall i, j :: 0 <= i < j < |leaves| ==> leaves[i] != leaves[j]
    modifies node`content, node`Repr
    ensures node.Valid() && node.content == leaves && node.Repr == {node} + set i | 0 <= i < |leaves| :: leaves[i]
    ensures forall i :: 0 <= i < |leaves| ==> node.Kids()[i] == old(leaves[i].Tree())
  {
    node.content := leaves;
    node.Repr := {node} + set i | 0 <= i < |leaves| :: leaves[i];
    assert node.Valid();
  }

  /** A node keeps its identity and becomes a sequence of strings. */
  method BecomeSequence(node: YamlNode, values: seq<string>)
    requires node.Valid()
    modifies node
    ensures node.Valid() && fresh(node.Repr - old(node.Repr))
    ensures node.Tree() == AsSequence(old(node.Tree()), values)
  {
    var nodes := MakeItems(values);
    node.kind := Sequence;
    node.tag := "!!seq";
    node.style := 0;
    SetLeaves(node, nodes);
    assert node.Kids() == Map(ToItem, values);
  }

  /** A child's subtree changed and may have new nodes; n takes them in. */
  ghost method Adopt(n: YamlNode, c: nat, kids: seq<Node>)
    requires n in n.Repr && c < |n.content| == |kids|
    requires forall i :: 0 <= i < |n.content| ==>
      && n.content[i].Valid() && n !in n.content[i].Repr
      && (i != c ==> n.content[i].Repr < n.Repr && n.content[i].Tree() == kids[i])
    requires forall i, j :: 0 <= i < j < |n.content| ==> n.content[i].Repr !! n.content[j].Repr
    requires n.kind.Mapping? ==> |n.content| % 2 == 0
    modifies n`Repr
    ensures n.Valid() && n.Repr == old(n.Repr) + old(n.content[c].Repr)
    ensures n.Kids() == kids[c := old(n.content[c].Tree())]
  {
    n.Repr := n.Repr + n.content[c].Repr;
    assert n.Valid();
    assert n.Kids() == kids[c := n.content[c].Tree()];
  }

  method SetChildSequence(n: YamlNode, c: nat, values: seq<string>)
    requires n.Valid() && c < |n.content|
    modifies n`Repr, n.content[c]
    ensures n.Valid() && fresh(n.Repr - old(n.Repr)) && n.content == old(n.content)
    ensures n.Kids() == old(n.Kids())[c := AsSequence(old(n.Kids())[c], values)]
  {
    ghost var kids := n.Kids();
    forall i | 0 <= i < |n.content| && i != c {
      Siblings(n, i, c);
    }
    BecomeSequence(n.content[c], values);
    Adopt(n, c, kids);
  }

  // ----- the values of a mapping -----

  /** A mapping's value, from its own fields and its children. */
  lemma MappingTree(n: YamlNode)
    requires n.Valid() && n.kind.Mapping?
    ensures n.Tree() == Node(n.kind, n.tag, n.value, n.style, n.extra, [], PairsOf(n.Kids()))
  {
  }

  /** A mapping that differs from what it was in one child differs in one value. */
  lemma ValueReplaced(n: YamlNode, before: Node, kids: seq<Node>, i: nat, v: Node)
    requires n.Valid() && n.kind.Mapping? && |kids| % 2 == 0 && 2 * i + 1 < |kids|
    requires before == Node(n.kind, n.tag, n.value, n.style, n.extra, [], PairsOf(kids))
    requires n.Kids() == kids[2 * i + 1 := v]
    ensures n.Tree() == WithValue(before, i, v) && before.pairs[i].val == kids[2 * i + 1]
  {
    MappingTree(n);
    PairsSet(kids, i, v);
  }

  lemma ValueReplacedBy(n: YamlNode, before: Node, kids: seq<Node>, i: nat, edit: Node -> Node)
    requires n.Valid() && n.kind.Mapping? && |kids| % 2 == 0 && 2 * i + 1 < |kids|
    requires before == Node(n.kind, n.tag, n.value, n.style, n.extra, [], PairsOf(kids))
    requires n.Kids() == kids[2 * i + 1 := edit(kids[2 * i + 1])]
    ensures n.Tree() == WithValue(before, i, edit(before.pairs[i].val))
  {
    ValueReplaced(n, before, kids, i, edit(kids[2 * i + 1]));
  }

  method SetValueScalar(n: YamlNode, i: nat, value: string, tag: string)
    requires n.Valid() && n.kind.Mapping? && 2 * i + 1 < |n.content|
    modifies n.Repr
    ensures n.Valid() && n.kind.Mapping? && n.Repr == old(n.Repr)
    ensures n.Tree() == WithValue(old(n.Tree()), i, old(n.Tree()).pairs[i].val.(value := value, tag := tag))
  {
    ghost var before, kids := n.Tree(), n.Kids();
    MappingTree(n);
    SetScalar(n, 2 * i + 1, value, tag);
    ValueReplaced(n, before, kids, i, kids[2 * i + 1].(value := value, tag := tag));
  }

  method SetValueSequence(n: YamlNode, i: nat, values: seq<string>)
    requires n.Valid() && n.kind.Mapping? && 2 * i + 1 < |n.content|
    modifies n.Repr
    ensures n.Valid() && n.kind.Mapping? && fresh(n.Repr - old(n.Repr))
    ensures n.Tree() == WithValue(old(n.Tree()), i, AsSequence(old(n.Tree()).pairs[i].val, values))
  {
    ghost var before, kids := n.Tree(), n.Kids();
    MappingTree(n);
    SetChildSequence(n, 2 * i + 1, values);
    ValueReplaced(n, before, kids, i, AsSequence(kids[2 * i + 1], values));
  }

  method AppendScalar(n: YamlNode, key: string, value: string, tag: string)
    requires n.Valid() && n.kind.Mapping?
    modifies n
    ensures n.Valid() && n.kind.Mapping? && fresh(n.Repr - old(n.Repr))
    ensures n.Tree() == WithPair(old(n.Tree()), key, NewScalar(value, tag))
  {
    var name := new YamlNode.Leaf(key, "");
    var val := new YamlNode.Leaf(value, tag);
    AppendPair(n, name, val);
  }

  method AppendSequence(n: YamlNode, key: string, values: seq<string>)
    requires n.Valid() && n.kind.Mapping?
    modifies n
    ensures n.Valid() && n.kind.Mapping? && fresh(n.Repr - old(n.Repr))
    ensures n.Tree() == WithPair(old(n.Tree()), key, AsSequence(BLANK, values))
  {
    var val := NewSequence(values);
    var name := new YamlNode.Leaf(key, "");
    AppendPair(n, name, val);
  }

  method NewSequence(values: seq<string>) returns (val: YamlNode)
    ensures val.Valid() && fresh(val.Repr) && val.Tree() == AsSequence(BLANK, values)
  {
    val := new YamlNode.Leaf("", "");
    BecomeSequence(val, values);
    BlankSequence(values);
  }

  lemma BlankSequence(values: seq<string>)
    ensures AsSequence(NewScalar("", ""), values) == AsSequence(BLANK, values)
  {
  }

  // ----- the edits of an agent -----

  lemma DisableCases(n: Node, i: nat)
    requires n.kind.Mapping? && i == KeyIndex(n, ENABLED)
    ensures i < |n.pairs| ==>
      && SetDisabled(n, true) == WithValue(n, i, n.pairs[i].val.(value := "false", tag := "!!bool"))
      && SetDisabled(n, false) == n.(pairs := n.pairs[..i] + n.pairs[i + 1..])
    ensures i == |n.pairs| ==>
      SetDisabled(n, true) == WithPair(n, ENABLED, NewScalar("false", "!!bool")) && SetDisabled(n, false) == n
  {
  }

  method SetDisabledIn(agent: YamlNode, disabled: bool)
    requires agent.Valid() && agent.kind.Mapping?
    modifies agent.Repr
    ensures agent.Valid() && agent.kind.Mapping? && fresh(agent.Repr - old(agent.Repr))
    ensures agent.Tree() == SetDisabled(old(agent.Tree()), disabled)
  {
    var i := FindKey(agent, ENABLED);
    assert agent.Tree() == old(agent.Tree()) && agent.Repr == old(agent.Repr);
    DisableCases(agent.Tree(), i);
    if 2 * i + 1 < |agent.content| {
      if disabled {
        SetValueScalar(agent, i, "false", "!!bool");
      } else {
        RemovePair(agent, i);
      }
    } else if disabled {
      AppendScalar(agent, ENABLED, "false", "!!bool");
    }
  }

  lemma SequenceCases(n: Node, key: string, values: seq<string>, i: nat)
    requires n.kind.Mapping? && i == KeyIndex(n, key)
    ensures i < |n.pairs| ==> SetStringSequence(n, key, values) == WithValue(n, i, AsSequence(n.pairs[i].val, values))
    ensures i == |n.pairs| ==> SetStringSequence(n, key, values) == WithPair(n, key, AsSequence(BLANK, values))
  {
  }

  method SetStringSequenceIn(mapping: YamlNode, key: string, values: seq<string>)
    requires mapping.Valid() && mapping.kind.Mapping?
    modifies mapping.Repr
    ensures mapping.Valid() && mapping.kind.Mapping? && fresh(mapping.Repr - old(mapping.Repr))
    ensures mapping.Tree() == SetStringSequence(old(mapping.Tree()), key, values)
  {
    var i := FindKey(mapping, key);
    assert mapping.Tree() == old(mapping.Tree()) && mapping.Repr == old(mapping.Repr);
    SequenceCases(mapping.Tree(), key, values, i);
    if 2 * i + 1 < |mapping.content| {
      SetValueSequence(mapping, i, values);
    } else {
      AppendSequence(mapping, key, values);
    }
  }

  // ----- prompts -----

  function Rewritten(n: Node, f: string -> string): Node {
    n.(value := f(n.value))
  }

  function RewritePair(f: string -> string): Pair -> Pair {
    (p: Pair) => p.(val := Rewritten(p.val, f))
  }

  /** The values below i are rewritten, the others and the keys are as they were. */
  predicate RewrittenTo(kids: seq<Node>, now: seq<Node>, f: string -> string, i: nat) {
    && |now| == |kids|
    && forall k :: 0 <= k < |kids| ==> now[k] == if k % 2 == 1 && k < i then Rewritten(kids[k], f) else kids[k]
  }

  lemma RewrittenStep(kids: seq<Node>, now: seq<Node>, f: string -> string, i: nat)
    requires RewrittenTo(kids, now, f, i) && i % 2 == 1 && i < |kids|
    ensures now[i] == kids[i]
    ensures RewrittenTo(kids, now[i := Rewritten(now[i], f)], f, i + 2)
    ensures f(kids[i].value) == kids[i].value ==> RewrittenTo(kids, now, f, i + 2)
  {
  }

  lemma AllRewritten(kids: seq<Node>, now: seq<Node>, f: string -> string, i: nat)
    requires RewrittenTo(kids, now, f, i) && i >= |kids|
    ensures PairsOf(now) == Map(RewritePair(f), PairsOf(kids))
  {
  }

  method RewriteKids(pt: YamlNode, f: string -> string) returns (i: nat)
    requires pt.Valid() && pt.kind.Mapping?
    modifies pt.Repr
    ensures pt.Valid() && unchanged(pt)
    ensures i >= |pt.content| && RewrittenTo(old(pt.Kids()), pt.Kids(), f, i)
  {
    ghost var kids := pt.Kids();
    i := 1;
    while i < |pt.content|
      invariant i % 2 == 1 && pt.Valid() && unchanged(pt)
      invariant RewrittenTo(kids, pt.Kids(), f, i)
    {
      i := RewriteOne(pt, f, i, kids);
    }
  }

  /** Every value of a mapping, rewritten where it changes. */
  method RewriteValues(pt: YamlNode, f: string -> string)
    requires pt.Valid() && pt.kind.Mapping?
    modifies pt.Repr
    ensures pt.Valid() && pt.Repr == old(pt.Repr)
    ensures pt.Tree() == old(pt.Tree()).(pairs := Map(RewritePair(f), old(pt.Tree()).pairs))
  {
    ghost var kids := pt.Kids();
    var i := RewriteKids(pt, f);
    AllRewritten(kids, pt.Kids(), f, i);
  }

  method RewriteOne(pt: YamlNode, f: string -> string, i: nat, ghost kids: seq<Node>) returns (next: nat)
    requires pt.Valid() && pt.kind.Mapping? && i % 2 == 1 && i < |pt.content| && RewrittenTo(kids, pt.Kids(), f, i)
    modifies pt.content[i]
    ensures pt.Valid() && unchanged(pt) && next == i + 2 && next % 2 == 1
    ensures RewrittenTo(kids, pt.Kids(), f, next)
  {
    RewrittenStep(kids, pt.Kids(), f, i);
    var valNode := pt.content[i];
    var merged := f(valNode.value);
    if merged != valNode.value {
      SetScalar(pt, i, merged, valNode.tag);
    }
    next := i + 2;
  }

  function Merger(block: string): string -> string {
    (prompt: string) => MergeBlock(MARKERS, prompt, block)
  }

  lemma MergeIsRewrite(pt: Node, block: string)
    ensures MergePrompts(pt, block) == RewrittenMapping(pt, Merger(block))
  {
    forall i | 0 <= i < |pt.pairs|
      ensures MergePrompt(block)(pt.pairs[i]) == RewritePair(Merger(block))(pt.pairs[i])
    {
    }
  }

  method RewriteChild(n: YamlNode, c: nat, f: string -> string)
    requires n.Valid() && c < |n.content| && n.content[c].kind.Mapping?
    modifies n.Repr
    ensures n.Valid() && n.Repr == old(n.Repr) && SameNode(n)
    ensures n.Kids() == old(n.Kids())[c := Rewriter(f)(old(n.Kids())[c])]
  {
    ghost var kids := n.Kids();
    forall k | 0 <= k < |n.content| && k != c {
      Siblings(n, k, c);
    }
    RewriteValues(n.content[c], f);
    Adopt(n, c, kids);
  }

  function RewrittenMapping(n: Node, f: string -> string): Node {
    n.(pairs := Map(RewritePair(f), n.pairs))
  }

  function Rewriter(f: string -> string): Node -> Node {
    (n: Node) => RewrittenMapping(n, f)
  }

  method RewriteValueAt(n: YamlNode, i: nat, c: nat, f: string -> string)
    requires n.Valid() && n.kind.Mapping? && c == 2 * i + 1 && c < |n.content| && n.content[c].kind.Mapping?
    modifies n.Repr
    ensures n.Valid() && SameNode(n) && n.Repr == old(n.Repr)
    ensures n.Tree() == WithValue(old(n.Tree()), i, Rewriter(f)(old(n.Tree()).pairs[i].val))
  {
    ghost var before, kids := n.Tree(), n.Kids();
    MappingTree(n);
    RewriteChild(n, c, f);
    ValueReplacedBy(n, before, kids, i, Rewriter(f));
  }

  method SetValueRewritten(n: YamlNode, i: nat, f: string -> string)
    requires n.Valid() && n.kind.Mapping? && 2 * i + 1 < |n.content| && n.content[2 * i + 1].kind.Mapping?
    modifies n.Repr
    ensures n.Valid() && n.kind.Mapping? && n.Repr == old(n.Repr)
    ensures n.Tree() == WithValue(old(n.Tree()), i, Rewriter(f)(old(n.Tree()).pairs[i].val))
  {
    RewriteValueAt(n, i, 2 * i + 1, f);
  }

  lemma PromptCases(n: Node, block: string, i: nat)
    requires n.kind.Mapping? && i == KeyIndex(n, PROMPTS)
    ensures i < |n.pairs| && n.pairs[i].val.kind.Mapping? ==>
      PatchPrompts(n, block) == WithValue(n, i, Rewriter(Merger(block))(n.pairs[i].val))
    ensures i == |n.pairs| || !n.pairs[i].val.kind.Mapping? ==> PatchPrompts(n, block) == n
  {
    if i < |n.pairs| {
      MergeIsRewrite(n.pairs[i].val, block);
    }
  }

  method PatchPromptsIn(agent: YamlNode, block: string)
    requires agent.Valid() && agent.kind.Mapping?
    modifies agent.Repr
    ensures agent.Valid() && agent.kind.Mapping? && agent.Repr == old(agent.Repr)
    ensures agent.Tree() == PatchPrompts(old(agent.Tree()), block)
  {
    var i := FindKey(agent, PROMPTS);
    assert agent.Tree() == old(agent.Tree()) && agent.Repr == old(agent.Repr);
    PromptCases(agent.Tree(), block, i);
    if 2 * i + 1 < |agent.content| {
      PairAt(agent, i);
      if agent.content[2 * i + 1].kind.Mapping? {
        SetValueRewritten(agent, i, Merger(block));
      }
    }
  }

  // ----- the agents -----

  method EditIn(agent: YamlNode, disabled: bool, paths: seq<string>, block: string)
    requires agent.Valid() && agent.kind.Mapping?
    modifies agent.Repr
    ensures agent.Valid() && fresh(agent.Repr - old(agent.Repr))
    ensures agent.Tree() == Edited(old(agent.Tree()), disabled, paths, block)
  {
    SetDisabledIn(agent, disabled);
    SetStringSequenceIn(agent, WRITE_PATHS, paths);
    PatchPromptsIn(agent, block);
  }

  /** The name and role of a standard agent, none for every other node. */
  method ReadStandard(agent: YamlNode, plan: Plan) returns (s: Option<(string, string)>)
    requires agent.Valid()
    ensures s == Standard(agent.Tree(), plan)
  {
    if !agent.kind.Mapping? {
      return None;
    }
    var i := FindKey(agent, NAME);
    if 2 * i + 1 >= |agent.content| {
      return None;
    }
    PairAt(agent, i);
    var name := agent.content[2 * i + 1].value;
    var role := plan.roleOf(name);
    s := if role.Some? then Some((name, role.value)) else None;
  }

  method Dedup(items: seq<string>) returns (out: seq<string>)
    ensures out == DedupStrings(items)
  {
    var seen: set<string> := {};
    out := [];
    for i := 0 to |items|
      invariant out == DedupStrings(items[..i])
      invariant forall x :: x in seen <==> x in items[..i] && x != ""
    {
      assert items[..i + 1][..i] == items[..i];
      assert items[..i + 1] == items[..i] + [items[i]];
      var it := items[i];
      if it == "" || it in seen {
        continue;
      }
      seen := seen + {it};
      out := out + [it];
    }
    assert items[..|items|] == items;
  }

  /** The name of an agent that is disabled for the stack. */
  function DisabledName(n: Node, plan: Plan): seq<string> {
    match Standard(n, plan)
    case None => []
    case Some((name, role)) => if plan.disables(role) then [name] else []
  }

  /** The names of the disabled agents, in the order of the list. */
  function DisabledNames(agents: seq<Node>, plan: Plan): seq<string> {
    if agents == [] then []
    else DisabledNames(agents[..|agents| - 1], plan) + DisabledName(agents[|agents| - 1], plan)
  }

  method WritePathsFor(plan: Plan, name: string, role: string) returns (paths: seq<string>)
    ensures paths == WritePaths(plan, name, role)
  {
    paths := Dedup(plan.listed(name, role));
  }

  lemma AgentCases(n: Node, plan: Plan)
    ensures Standard(n, plan) == None ==> PatchAgent(n, plan) == n && DisabledName(n, plan) == []
    ensures Standard(n, plan).Some? ==>
      var (name, role) := Standard(n, plan).value;
      && n.kind.Mapping?
      && PatchAgent(n, plan) == Edited(n, plan.disables(role), WritePaths(plan, name, role), plan.block(role))
      && DisabledName(n, plan) == if plan.disables(role) then [name] else []
  {
  }

  method EditStandardIn(agent: YamlNode, plan: Plan, name: string, role: string)
    requires agent.Valid() && agent.kind.Mapping?
    modifies agent.Repr
    ensures agent.Valid() && fresh(agent.Repr - old(agent.Repr))
    ensures agent.Tree() ==
            Edited(old(agent.Tree()), plan.disables(role), WritePaths(plan, name, role), plan.block(role))
  {
    var paths := WritePathsFor(plan, name, role);
    assert agent.Repr == old(agent.Repr) && agent.Tree() == old(agent.Tree());
    EditIn(agent, plan.disables(role), paths, plan.block(role));
  }

  method PatchAgentIn(agent: YamlNode, plan: Plan) returns (disabled: seq<string>)
    requires agent.Valid()
    modifies agent.Repr
    ensures agent.Valid() && fresh(agent.Repr - old(agent.Repr))
    ensures agent.Tree() == PatchAgent(old(agent.Tree()), plan)
    ensures disabled == DisabledName(old(agent.Tree()), plan)
  {
    disabled := [];
    var s := ReadStandard(agent, plan);
    assert agent.Tree() == old(agent.Tree()) && agent.Repr == old(agent.Repr);
    AgentCases(agent.Tree(), plan);
    if s.Some? {
      var name, role := s.value.0, s.value.1;
      OwnFields(agent);
      EditStandardIn(agent, plan, name, role);
      disabled := if plan.disables(role) then [name] else [];
    }
  }

  function PatchedList(list: Node, plan: Plan): Node {
    list.(items := Map(Patcher(plan), list.items))
  }

  lemma NamesStep(agents: seq<Node>, plan: Plan, i: nat)
    requires i < |agents|
    ensures DisabledNames(agents[..i + 1], plan) == DisabledNames(agents[..i], plan) + DisabledName(agents[i], plan)
  {
    assert agents[..i + 1][..i] == agents[..i];
  }

  /** The names of the agents of a list that are disabled, sorted. */
  function SortedNames(list: Node, plan: Plan): seq<string> {
    Sort(DisabledNames(list.items, plan), Below)
  }

  method PatchKids(list: YamlNode, plan: Plan) returns (disabled: seq<string>)
    requires list.Valid()
    modifies list.Repr
    ensures list.Valid() && fresh(list.Repr - old(list.Repr)) && SameNode(list)
    ensures PatchedTo(old(list.Kids()), list.Kids(), Patcher(plan), |list.content|)
    ensures disabled == DisabledNames(old(list.Kids()), plan)
  {
    disabled := [];
    ghost var kids := list.Kids();
    for i := 0 to |list.content|
      invariant list.Valid() && fresh(list.Repr - old(list.Repr)) && SameNode(list)
      invariant PatchedTo(kids, list.Kids(), Patcher(plan), i)
      invariant disabled == DisabledNames(kids[..i], plan)
    {
      NamesStep(kids, plan, i);
      var name := PatchChild(list, i, plan, kids);
      disabled := disabled + name;
    }
    assert kids[..|kids|] == kids;
  }

  /** The node's own fields are as they were. */
  twostate predicate SameNode(n: YamlNode)
    reads n
  {
    && n.content == old(n.content) && n.kind == old(n.kind) && n.tag == old(n.tag)
    && n.value == old(n.value) && n.style == old(n.style) && n.extra == old(n.extra)
  }

  /** The agent loop: the nodes of the agents list, each patched in its place. */
  method PatchAgentsIn(list: YamlNode, plan: Plan) returns (disabled: seq<string>)
    requires list.Valid() && list.kind.Sequence?
    modifies list.Repr
    ensures list.Valid() && list.kind.Sequence? && fresh(list.Repr - old(list.Repr))
    ensures list.Tree() == PatchedList(old(list.Tree()), plan)
    ensures disabled == SortedNames(old(list.Tree()), plan)
  {
    ghost var kids := list.Kids();
    disabled := PatchKids(list, plan);
    assert list.Kids() == Map(Patcher(plan), kids);
    disabled := Sort(disabled, Below);
  }

  predicate PatchedTo(kids: seq<Node>, now: seq<Node>, f: Node -> Node, i: nat) {
    |now| == |kids| && forall k :: 0 <= k < |kids| ==> now[k] == if k < i then f(kids[k]) else kids[k]
  }

  method PatchChild(list: YamlNode, i: nat, plan: Plan, ghost kids: seq<Node>)
    returns (disabled: seq<string>)
    requires list.Valid() && i < |list.content| && PatchedTo(kids, list.Kids(), Patcher(plan), i)
    modifies list.Repr
    ensures list.Valid() && fresh(list.Repr - old(list.Repr)) && SameNode(list)
    ensures PatchedTo(kids, list.Kids(), Patcher(plan), i + 1)
    ensures disabled == DisabledName(kids[i], plan)
  {
    ghost var before := list.Kids();
    forall k | 0 <= k < |list.content| && k != i {
      Siblings(list, k, i);
    }
    disabled := PatchAgentIn(list.content[i], plan);
    Adopt(list, i, before);
  }

  /** The names of the disabled agents of a document, sorted. */
  function DocumentNames(root: Node, plan: Plan): seq<string> {
    match AgentItems(root)
    case None => []
    case Some(agents) => Sort(DisabledNames(agents, plan), Below)
  }

  /** Where the agents list is, if there is one. */
  method FindAgents(root: YamlNode) returns (i: nat, found: bool)
    requires root.Valid() && root.kind.Mapping?
    ensures i == KeyIndex(root.Tree(), AGENTS)
    ensures found <==> i < |root.Tree().pairs| && root.Tree().pairs[i].val.kind.Sequence?
    ensures found ==> 2 * i + 1 < |root.content| && root.content[2 * i + 1].kind.Sequence?
  {
    i := FindKey(root, AGENTS);
    found := false;
    if 2 * i + 1 < |root.content| {
      PairAt(root, i);
      found := root.content[2 * i + 1].kind.Sequence?;
    }
  }

  /** Patches the agents list of a document that is a mapping, if it has one. */
  method PatchRootIn(root: YamlNode, plan: Plan) returns (disabled: seq<string>)
    requires root.Valid() && root.kind.Mapping?
    modifies root.Repr
    ensures root.Valid() && fresh(root.Repr - old(root.Repr))
    ensures PatchConfig(old(root.Tree()), plan) == Ok(root.Tree())
    ensures disabled == DocumentNames(old(root.Tree()), plan)
  {
    disabled := [];
    var i, found := FindAgents(root);
    assert root.Tree() == old(root.Tree()) && root.Repr == old(root.Repr);
    DocumentCases(root.Tree(), i, plan);
    if found {
      disabled := SetValuePatched(root, i, plan);
    }
  }

  method PatchDocumentIn(root: YamlNode, plan: Plan)
    returns (r: Result<seq<string>, ConfigError>)
    requires root.Valid()
    modifies root.Repr
    ensures root.Valid() && fresh(root.Repr - old(root.Repr))
    ensures match PatchConfig(old(root.Tree()), plan)
            case Err(e) => r == Err(e) && root.Tree() == old(root.Tree())
            case Ok(patched) => r == Ok(DocumentNames(old(root.Tree()), plan)) && root.Tree() == patched
  {
    if !root.kind.Mapping? {
      return Err(NotAMapping);
    }
    var disabled := PatchRootIn(root, plan);
    r := Ok(disabled);
  }

  lemma DocumentCases(root: Node, i: nat, plan: Plan)
    requires root.kind.Mapping? && i == KeyIndex(root, AGENTS)
    ensures i < |root.pairs| && root.pairs[i].val.kind.Sequence? ==>
      var v := root.pairs[i].val;
      && DocumentNames(root, plan) == SortedNames(v, plan)
      && PatchConfig(root, plan) == Ok(WithValue(root, i, PatchedList(v, plan)))
    ensures i == |root.pairs| || !root.pairs[i].val.kind.Sequence? ==>
      DocumentNames(root, plan) == [] && PatchConfig(root, plan) == Ok(root)
  {
  }

  method PatchChildList(n: YamlNode, c: nat, plan: Plan) returns (disabled: seq<string>)
    requires n.Valid() && c < |n.content| && n.content[c].kind.Sequence?
    modifies n.Repr
    ensures n.Valid() && fresh(n.Repr - old(n.Repr)) && SameNode(n)
    ensures n.Kids() == old(n.Kids())[c := PatchedList(old(n.Kids())[c], plan)]
    ensures disabled == SortedNames(old(n.Kids())[c], plan)
  {
    ghost var kids := n.Kids();
    forall k | 0 <= k < |n.content| && k != c {
      Siblings(n, k, c);
    }
    disabled := PatchAgentsIn(n.content[c], plan);
    Adopt(n, c, kids);
  }

  method PatchValueAt(n: YamlNode, i: nat, c: nat, plan: Plan) returns (disabled: seq<string>)
    requires n.Valid() && n.kind.Mapping? && c == 2 * i + 1 && c < |n.content| && n.content[c].kind.Sequence?
    modifies n.Repr
    ensures n.Valid() && SameNode(n) && fresh(n.Repr - old(n.Repr))
    ensures n.Tree() == WithValue(old(n.Tree()), i, PatchedList(old(n.Tree()).pairs[i].val, plan))
    ensures disabled == SortedNames(old(n.Tree()).pairs[i].val, plan)
  {
    ghost var before, kids := n.Tree(), n.Kids();
    MappingTree(n);
    disabled := PatchChildList(n, c, plan);
    ValueReplaced(n, before, kids, i, PatchedList(kids[c], plan));
  }

  method SetValuePatched(n: YamlNode, i: nat, plan: Plan) returns (disabled: seq<string>)
    requires n.Valid() && n.kind.Mapping? && 2 * i + 1 < |n.content| && n.content[2 * i + 1].kind.Sequence?
    modifies n.Repr
    ensures n.Valid() && n.kind.Mapping? && fresh(n.Repr - old(n.Repr))
    ensures n.Tree() == WithValue(old(n.Tree()), i, PatchedList(old(n.Tree()).pairs[i].val, plan))
    ensures disabled == SortedNames(old(n.Tree()).pairs[i].val, plan)
  {
    disabled := PatchValueAt(n, i, 2 * i + 1, plan);
  }
}
