/**
 * CRUSH_RULE_OSDS: the OSD ids a CRUSH rule selects, found by walking the OSD map
 * tree from every `take` step. The walk is bounded by `fuel` (one unit per level of
 * the tree); a result of None stands for the source raising: a missing node id
 * (KeyError), a bucket without a children list, a bucket reached with no step
 * left (IndexError), or a tree deeper than the fuel.
 */
module Crush {
  import opened Wrappers

  /** A node of the OSD map tree: an OSD when id >= 0, a bucket otherwise (OSDs carry no children). */
  datatype Node = Node(id: int, kind: string, children: Option<seq<int>>)

  /** A step of a CRUSH rule: its op, the bucket type it chooses, and the item a `take` starts from. */
  datatype Step = Step(op: string, kind: string, item: int)

  datatype Rule = Rule(steps: seq<Step>)

  type NodeMap = map<int, Node>

  /** Every node is filed under its own id. */
  predicate Consistent(byId: NodeMap) {
    forall k :: k in byId ==> byId[k].id == k
  }

  /** No node after position i has the id of nodes[i]. */
  predicate LastWithId(nodes: seq<Node>, i: nat)
    requires i < |nodes|
  {
    forall j :: i < j < |nodes| ==> nodes[j].id != nodes[i].id
  }

  /** nodes_by_id: each node filed under its id, a later node replacing an earlier one with the same id. */
  function NodesById(nodes: seq<Node>): (byId: NodeMap)
    ensures Consistent(byId)
    ensures forall k :: k in byId <==> exists i :: 0 <= i < |nodes| && nodes[i].id == k
    ensures forall k :: k in byId ==> byId[k] in nodes
  {
    if nodes == [] then map[]
    else
      var init, last := nodes[..|nodes| - 1], nodes[|nodes| - 1];
      var byId := NodesById(init)[last.id := last];
      assert forall i :: 0 <= i < |init| ==> init[i] == nodes[i];
      byId
  }

  /** Like Python's dict(), nodes_by_id keeps the last node listed with an id. */
  lemma {:induction false} NodesByIdLastWins(nodes: seq<Node>, i: nat)
    requires i < |nodes| && LastWithId(nodes, i)
    ensures nodes[i].id in NodesById(nodes) && NodesById(nodes)[nodes[i].id] == nodes[i]
  {
    var last := |nodes| - 1;
    if i < last {
      var init := nodes[..last];
      assert init[i] == nodes[i];
      assert LastWithId(init, i);
      NodesByIdLastWins(init, i);
      assert nodes[last].id != nodes[i].id;
    }
  }

  /** Both parts succeeded: their union; otherwise the error. */
  function Union(a: Option<set<int>>, b: Option<set<int>>): Option<set<int>> {
    if a.Some? && b.Some? then Some(a.value + b.value) else None
  }

  /** A successful result holds only OSD ids. */
  predicate NonNegative(r: Option<set<int>>) {
    r.Some? ==> forall i :: i in r.value ==> i >= 0
  }

  /** _gather_leaf_ids(node): the OSDs below a node, or the node itself when it is an OSD. */
  function LeafIds(byId: NodeMap, node: Node, fuel: nat): (r: Option<set<int>>)
    ensures NonNegative(r)
    decreases fuel, 1
  {
    if node.id >= 0 then Some({node.id})
    else
      match node.children
      case None => None
      case Some(cs) => LeafIdsOf(byId, cs, fuel)
  }

  /** The loop of _gather_leaf_ids over a bucket's children. */
  function LeafIdsOf(byId: NodeMap, cs: seq<int>, fuel: nat): (r: Option<set<int>>)
    ensures NonNegative(r)
    decreases fuel, 0, |cs|
  {
    if cs == [] then Some({})
    else
      var c := cs[0];
      var head :=
        if c >= 0 then Some({c})
        else if c !in byId || fuel == 0 then None
        else LeafIds(byId, byId[c], fuel - 1);
      Union(head, LeafIdsOf(byId, cs[1..], fuel))
  }

  lemma LeafOfOsd(byId: NodeMap, node: Node, fuel: nat)
    requires node.id >= 0
    ensures LeafIds(byId, node, fuel) == Some({node.id})
  {
  }

  /** _gather_descendent_ids(node, kind): the nearest nodes of that type below node. */
  function DescendantIds(byId: NodeMap, node: Node, kind: string, fuel: nat): (r: Option<set<int>>)
    ensures r.Some? && Consistent(byId) ==> forall i :: i in r.value ==> i in byId && byId[i].kind == kind
    decreases fuel, 1
  {
    match node.children
    case None => None
    case Some(cs) => DescendantsOf(byId, cs, kind, fuel)
  }

  /** The loop of _gather_descendent_ids over node's children. */
  function DescendantsOf(byId: NodeMap, cs: seq<int>, kind: string, fuel: nat): (r: Option<set<int>>)
    ensures r.Some? && Consistent(byId) ==> forall i :: i in r.value ==> i in byId && byId[i].kind == kind
    decreases fuel, 0, |cs|
  {
    if cs == [] then Some({})
    else if cs[0] !in byId then None
    else
      var child := byId[cs[0]];
      var head :=
        if child.kind == kind then Some({child.id})
        else if child.children.None? then Some({})
        else if fuel == 0 then None
        else DescendantIds(byId, child, kind, fuel - 1);
      assert Consistent(byId) ==> child.id == cs[0];
      Union(head, DescendantsOf(byId, cs[1..], kind, fuel))
  }

  /**
   * The walk stops at a node of the requested type: what lies below such a node
   * (its children list) does not change the result.
   */
  lemma {:induction false} DescendantsStopAtMatch(byId: NodeMap, node: Node, kind: string, fuel: nat,
                                                   k: int, below: Option<seq<int>>)
    requires k in byId && byId[k].kind == kind
    ensures DescendantIds(byId[k := byId[k].(children := below)], node, kind, fuel) ==
            DescendantIds(byId, node, kind, fuel)
    decreases fuel, 1
  {
    if node.children.Some? {
      DescendantsOfStopAtMatch(byId, node.children.value, kind, fuel, k, below);
    }
  }

  lemma {:induction false} DescendantsOfStopAtMatch(byId: NodeMap, cs: seq<int>, kind: string, fuel: nat,
                                                     k: int, below: Option<seq<int>>)
    requires k in byId && byId[k].kind == kind
    ensures DescendantsOf(byId[k := byId[k].(children := below)], cs, kind, fuel) ==
            DescendantsOf(byId, cs, kind, fuel)
    decreases fuel, 0, |cs|
  {
    var changed := byId[k := byId[k].(children := below)];
    if cs != [] && cs[0] in byId {
      DescendantsOfStopAtMatch(byId, cs[1..], kind, fuel, k, below);
      var child := byId[cs[0]];
      if cs[0] != k && child.kind != kind && child.children.Some? && fuel > 0 {
        DescendantsStopAtMatch(byId, child, kind, fuel - 1, k, below);
      }
    }
  }

  /** _gather_osds(root, steps): the OSDs the steps after a `take` select below root. */
  function GatherOsds(byId: NodeMap, root: Node, steps: seq<Step>, fuel: nat): (r: Option<set<int>>)
    ensures NonNegative(r)
    decreases fuel, 0
  {
    if root.id >= 0 then Some({root.id})
    else if steps == [] then None
    else if steps[0].op == "choose_firstn" then
      match DescendantIds(byId, root, steps[0].kind, fuel)
      case None => None
      case Some(d) => if fuel == 0 then None else GatherEach(byId, d, steps[1..], fuel - 1)
    else if steps[0].op == "chooseleaf_firstn" then
      match DescendantIds(byId, root, steps[0].kind, fuel)
      case None => None
      case Some(d) => LeafIdsEach(byId, d, fuel)
    else
      // 'emit' adds nothing here: its body tests root.id >= 0, which the first branch already returned on
      Some({})
  }

  /** The union of _gather_osds over the chosen descendants d. */
  function GatherEach(byId: NodeMap, d: set<int>, steps: seq<Step>, fuel: nat): (r: Option<set<int>>)
    ensures NonNegative(r)
    decreases fuel, 1
  {
    if forall i | i in d :: i in byId && GatherOsds(byId, byId[i], steps, fuel).Some? then
      Some(set i, o | i in d && i in byId && GatherOsds(byId, byId[i], steps, fuel).Some?
                      && o in GatherOsds(byId, byId[i], steps, fuel).value :: o)
    else None
  }

  /** The union of _gather_leaf_ids over the chosen descendants d. */
  function LeafIdsEach(byId: NodeMap, d: set<int>, fuel: nat): (r: Option<set<int>>)
    ensures NonNegative(r)
  {
    if forall i | i in d :: i in byId && LeafIds(byId, byId[i], fuel).Some? then
      Some(set i, o | i in d && i in byId && LeafIds(byId, byId[i], fuel).Some?
                      && o in LeafIds(byId, byId[i], fuel).value :: o)
    else None
  }

  lemma EmitAddsNothing(byId: NodeMap, root: Node, steps: seq<Step>, fuel: nat)
    requires root.id < 0 && steps != [] && steps[0].op == "emit"
    ensures GatherOsds(byId, root, steps, fuel) == Some({})
  {
  }

  /** What step i of a rule contributes: for a `take`, the OSDs gathered below its item. */
  function TakeAt(byId: NodeMap, steps: seq<Step>, i: nat, fuel: nat): Option<set<int>>
    requires i < |steps|
  {
    if steps[i].op != "take" then Some({})
    else if steps[i].item !in byId then None
    else GatherOsds(byId, byId[steps[i].item], steps[i + 1..], fuel)
  }

  /** The union of what the first n steps contribute. */
  function RuleOsdsUpTo(byId: NodeMap, steps: seq<Step>, n: nat, fuel: nat): (r: Option<set<int>>)
    requires n <= |steps|
    ensures NonNegative(r)
  {
    if n == 0 then Some({})
    else Union(RuleOsdsUpTo(byId, steps, n - 1, fuel), TakeAt(byId, steps, n - 1, fuel))
  }

  /** What CRUSH_RULE_OSDS(nodes, rule) returns. */
  function RuleOsds(nodes: seq<Node>, rule: Rule, fuel: nat): Option<set<int>> {
    RuleOsdsUpTo(NodesById(nodes), rule.steps, |rule.steps|, fuel)
  }

  /** Once a step fails, the whole rule fails. */
  lemma {:induction false} FailureSticks(byId: NodeMap, steps: seq<Step>, k: nat, n: nat, fuel: nat)
    requires k <= n <= |steps|
    requires RuleOsdsUpTo(byId, steps, k, fuel).None?
    ensures RuleOsdsUpTo(byId, steps, n, fuel).None?
    decreases n
  {
    if n > k {
      FailureSticks(byId, steps, k, n - 1, fuel);
    }
  }

  /** A rule without a `take` step selects no OSD. */
  lemma {:induction false} NoTakeNoOsds(byId: NodeMap, steps: seq<Step>, n: nat, fuel: nat)
    requires n <= |steps|
    requires forall i :: 0 <= i < |steps| ==> steps[i].op != "take"
    ensures RuleOsdsUpTo(byId, steps, n, fuel) == Some({})
  {
    if n > 0 {
      NoTakeNoOsds(byId, steps, n - 1, fuel);
      assert TakeAt(byId, steps, n - 1, fuel) == Some({});
      var none: set<int> := {};
      assert none + none == none;
    }
  }

  /** A rule's selection, when it succeeds, holds only OSD ids. */
  lemma RuleOsdsAreOsds(nodes: seq<Node>, rule: Rule, fuel: nat)
    ensures NonNegative(RuleOsds(nodes, rule, fuel))
    ensures (forall i :: 0 <= i < |rule.steps| ==> rule.steps[i].op != "take") ==> RuleOsds(nodes, rule, fuel) == Some({})
  {
    if forall i :: 0 <= i < |rule.steps| ==> rule.steps[i].op != "take" {
      NoTakeNoOsds(NodesById(nodes), rule.steps, |rule.steps|, fuel);
    }
  }

  /** CRUSH_RULE_OSDS(nodes, rule) */
  method CrushRuleOsds(nodes: seq<Node>, rule: Rule, fuel: nat) returns (osds: Option<set<int>>)
    ensures osds == RuleOsds(nodes, rule, fuel)
  {
    var byId := NodesById(nodes);
    var acc: set<int> := {};
    for i := 0 to |rule.steps|
      invariant RuleOsdsUpTo(byId, rule.steps, i, fuel) == Some(acc)
    {
      var step := rule.steps[i];
      if step.op == "take" {
        var gathered := if step.item in byId then GatherOsds(byId, byId[step.item], rule.steps[i + 1..], fuel) else None;
        assert TakeAt(byId, rule.steps, i, fuel) == gathered;
        assert RuleOsdsUpTo(byId, rule.steps, i + 1, fuel) == Union(Some(acc), gathered);
        if gathered.None? {
          FailureSticks(byId, rule.steps, i + 1, |rule.steps|, fuel);
          return None;
        }
        acc := acc + gathered.value;
      } else {
        assert TakeAt(byId, rule.steps, i, fuel) == Some({});
        assert acc + {} == acc;
      }
    }
    osds := Some(acc);
  }
}
