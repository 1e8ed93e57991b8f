/** Tree plans (the abstract shape of an evaluation tree before its nodes are
    built) and the plan-building helpers every concrete builder shares:
    wrapping a topology into a plan, choosing the operator of a binary plan
    node, and hanging the negative events on top of the positive part as a
    left-deep chain. */
module TreePlanBuilder {
  import opened Wrappers
  import opened Patterns

  datatype OperatorType = AND | SEQ | NAND | NSEQ {
    /** The operators of binary nodes that check a negative event. */
    predicate IsNegative() {
      NAND? || NSEQ?
    }
  }

  datatype TreePlanNode =
    | TreePlanLeafNode(eventIndex: nat)
    | TreePlanBinaryNode(operator: OperatorType, leftChild: TreePlanNode, rightChild: TreePlanNode)

  datatype TreePlan = TreePlan(root: TreePlanNode)

  /** The event indices of a plan's leaves, left to right. */
  function Leaves(t: TreePlanNode): seq<nat> {
    match t
    case TreePlanLeafNode(i) => [i]
    case TreePlanBinaryNode(_, l, r) => Leaves(l) + Leaves(r)
  }

  function BinaryNodeCount(t: TreePlanNode): nat {
    match t
    case TreePlanLeafNode(_) => 0
    case TreePlanBinaryNode(_, l, r) => 1 + BinaryNodeCount(l) + BinaryNodeCount(r)
  }

  function Height(t: TreePlanNode): nat {
    match t
    case TreePlanLeafNode(_) => 0
    case TreePlanBinaryNode(_, l, r) => 1 + (if Height(l) >= Height(r) then Height(l) else Height(r))
  }

  /** The indices lo, lo + 1, ..., hi - 1. */
  function Range(lo: nat, hi: nat): (r: seq<nat>)
    decreases hi - lo
    ensures |r| == if lo <= hi then hi - lo else 0
    ensures forall k :: 0 <= k < |r| ==> r[k] == lo + k
  {
    if hi <= lo then [] else [lo] + Range(lo + 1, hi)
  }

  /** `build_tree_plan`: the plan is the topology the concrete builder
      creates, wrapped and otherwise untouched. */
  function BuildTreePlan(createTreeTopology: Pattern -> TreePlanNode, pattern: Pattern): (plan: TreePlan)
    ensures plan.root == createTreeTopology(pattern)
  {
    TreePlan(createTreeTopology(pattern))
  }

  /** `_instantiate_binary_node`: AND for an AND pattern, SEQ for a SEQ
      pattern, their negative forms when the pattern has negative events and
      the right subtree is the leaf of a negative event. */
  function InstantiateBinaryNode(pattern: Pattern, leftSubtree: TreePlanNode, rightSubtree: TreePlanNode)
    : (r: Result<TreePlanNode, CepError>)
    ensures r.Err? <==>
      !pattern.positiveStructure.IsComposite()
      || (pattern.negativeStructure.Some? && rightSubtree.TreePlanBinaryNode?)
    ensures r.Err? ==> r.error == (if !pattern.positiveStructure.IsComposite()
                                   then UnsupportedBinaryOperator else PlanNodeWithoutEventIndex)
    ensures r.Ok? ==> (r.value.TreePlanBinaryNode?
      && r.value.leftChild == leftSubtree && r.value.rightChild == rightSubtree)
    ensures r.Ok? ==> ((r.value.operator in {AND, NAND}) <==> pattern.positiveStructure.AndOperator?)
    ensures r.Ok? ==> (r.value.operator.IsNegative() <==>
      pattern.negativeStructure.Some? && rightSubtree.eventIndex >= |pattern.positiveStructure.args|)
  {
    var structure := pattern.positiveStructure;
    if !structure.IsComposite() then Err(UnsupportedBinaryOperator)
    else
      var operatorType := if structure.AndOperator? then AND else SEQ;
      if pattern.negativeStructure.None? then
        Ok(TreePlanBinaryNode(operatorType, leftSubtree, rightSubtree))
      else if rightSubtree.TreePlanBinaryNode? then
        Err(PlanNodeWithoutEventIndex)
      else if rightSubtree.eventIndex >= |structure.args| then
        Ok(TreePlanBinaryNode(if structure.AndOperator? then NAND else NSEQ, leftSubtree, rightSubtree))
      else
        Ok(TreePlanBinaryNode(operatorType, leftSubtree, rightSubtree))
  }

  /** The left-deep chain that puts one `op` node per index lo .. hi - 1 on
      top of `base`, the leaf of index lo lowest. */
  function LeftDeepChain(op: OperatorType, base: TreePlanNode, lo: nat, hi: nat): TreePlanNode
    decreases hi
  {
    if hi <= lo then base
    else TreePlanBinaryNode(op, LeftDeepChain(op, base, lo, hi - 1), TreePlanLeafNode(hi - 1))
  }

  /** The chain keeps the leaves of its base and appends lo .. hi - 1 in
      increasing order, adds one binary node and one level per index. */
  lemma {:induction false} LeftDeepChainShape(op: OperatorType, base: TreePlanNode, lo: nat, hi: nat)
    requires lo <= hi
    ensures Leaves(LeftDeepChain(op, base, lo, hi)) == Leaves(base) + Range(lo, hi)
    ensures BinaryNodeCount(LeftDeepChain(op, base, lo, hi)) == BinaryNodeCount(base) + (hi - lo)
    ensures Height(LeftDeepChain(op, base, lo, hi)) == Height(base) + (hi - lo)
    decreases hi
  {
    if lo < hi {
      LeftDeepChainShape(op, base, lo, hi - 1);
      assert Range(lo, hi) == Range(lo, hi - 1) + [hi - 1];
    }
  }

  /** The operator `_instantiate_binary_node` gives a node whose right leaf is
      a negative event. */
  function NegativeOperator(structure: PatternStructure): OperatorType {
    if structure.AndOperator? then NAND else NSEQ
  }

  /** What `_add_negative_part` computes. */
  function NegativePart(positiveSubtree: TreePlanNode, pattern: Pattern): Result<TreePlanNode, CepError> {
    if pattern.negativeStructure.None? then Ok(positiveSubtree)
    else
      var positiveArgs :- GetArgs(pattern.positiveStructure);
      var fullArgs :- GetArgs(pattern.fullStructure);
      Ok(LeftDeepChain(NegativeOperator(pattern.positiveStructure), positiveSubtree, |positiveArgs|, |fullArgs|))
  }

  /** `_add_negative_part`: rebinds the topology once per negative argument. */
  method AddNegativePart(positiveSubtree: TreePlanNode, pattern: Pattern) returns (r: Result<TreePlanNode, CepError>)
    ensures r == NegativePart(positiveSubtree, pattern)
    ensures pattern.negativeStructure.None? ==> r == Ok(positiveSubtree)
  {
    var treeTopology := positiveSubtree;
    if pattern.negativeStructure.Some? {
      var positiveArgs :- GetArgs(pattern.positiveStructure);
      var fullArgs :- GetArgs(pattern.fullStructure);
      var op := NegativeOperator(pattern.positiveStructure);
      var i := |positiveArgs|;
      while i < |fullArgs|
        invariant |positiveArgs| <= i && (i <= |fullArgs| || i == |positiveArgs|)
        invariant treeTopology == LeftDeepChain(op, positiveSubtree, |positiveArgs|, i)
      {
        // cannot fail: the positive structure is composite and the right subtree a leaf
        treeTopology := InstantiateBinaryNode(pattern, treeTopology, TreePlanLeafNode(i)).value;
        i := i + 1;
      }
    }
    return Ok(treeTopology);
  }

  /** With negative events, the result is the positive subtree under one
      negative node per negative argument, their right leaves numbered from
      the positive-argument count up to the full-argument count minus one. */
  lemma NegativePartShape(positiveSubtree: TreePlanNode, pattern: Pattern)
    requires pattern.negativeStructure.Some?
    requires pattern.positiveStructure.IsComposite() && pattern.fullStructure.IsComposite()
    requires |pattern.positiveStructure.args| <= |pattern.fullStructure.args|
    ensures NegativePart(positiveSubtree, pattern).Ok?
    ensures var t := NegativePart(positiveSubtree, pattern).value;
      && Leaves(t) == Leaves(positiveSubtree)
                      + Range(|pattern.positiveStructure.args|, |pattern.fullStructure.args|)
      && BinaryNodeCount(t) == BinaryNodeCount(positiveSubtree)
                               + (|pattern.fullStructure.args| - |pattern.positiveStructure.args|)
      && Height(t) == Height(positiveSubtree)
                      + (|pattern.fullStructure.args| - |pattern.positiveStructure.args|)
  {
    LeftDeepChainShape(NegativeOperator(pattern.positiveStructure), positiveSubtree,
                       |pattern.positiveStructure.args|, |pattern.fullStructure.args|);
  }

  /** Every node the negative part adds is a negative node. */
  lemma {:induction false} LeftDeepChainOperators(op: OperatorType, base: TreePlanNode, lo: nat, hi: nat, k: nat)
    requires lo + k < hi
    ensures var t := PeelLeft(LeftDeepChain(op, base, lo, hi), k);
      t.TreePlanBinaryNode? && t.operator == op && t.rightChild == TreePlanLeafNode(hi - 1 - k)
    ensures PeelLeft(LeftDeepChain(op, base, lo, hi), hi - lo) == base
    decreases hi
  {
    if k > 0 {
      LeftDeepChainOperators(op, base, lo, hi - 1, k - 1);
    } else if lo + 1 < hi {
      LeftDeepChainOperators(op, base, lo, hi - 1, 0);
    }
  }

  /** The node reached by following the left child k times. */
  function PeelLeft(t: TreePlanNode, k: nat): TreePlanNode {
    if k == 0 || t.TreePlanLeafNode? then t else PeelLeft(t.leftChild, k - 1)
  }
}
