/** Building an evaluation tree from a tree plan: the plan's binary nodes
    become internal nodes of the pattern's top operator (their negative forms
    where the plan says NSEQ or NAND), its leaves become leaf nodes of the
    pattern's arguments, and an argument that hides a nested structure (a
    Kleene closure or a nested AND/SEQ) is expanded through a left-deep plan
    of its own. Also the check that the pattern's condition is used up, the
    unbounded-negative-event rule and the retrieval of pending matches. */
module Trees {
  import opened Wrappers
  import opened Patterns
  import opened TreePlanBuilder

  /** The kinds of internal nodes the tree is built from. */
  datatype NodeKind =
    | SeqNode
    | NegativeSeqNode
    | AndNode
    | NegativeAndNode
    | KleeneClosureNode(minSize: int, maxSize: Option<int>)
  {
    predicate IsNegation() {
      NegativeSeqNode? || NegativeAndNode?
    }

    predicate IsSeq() {
      SeqNode? || NegativeSeqNode?
    }

    predicate IsAnd() {
      AndNode? || NegativeAndNode?
    }
  }

  /** An evaluation tree: a leaf holds its leaf index and its primitive
      event; a Kleene-closure node has one subtree, the other internal nodes
      two. */
  datatype EvalTree =
    | LeafNode(leafIndex: nat, event: PatternStructure)
    | UnaryNode(kind: NodeKind, child: EvalTree)
    | BinaryNode(kind: NodeKind, left: EvalTree, right: EvalTree)

  // ---------------------------------------------------------------------
  // Nested structures
  // ---------------------------------------------------------------------

  /** Nesting depth of a pattern structure. */
  function Depth(s: PatternStructure): nat
    decreases s
  {
    match s
    case PrimitiveEventStructure(_, _) => 0
    case AndOperator(args) => 1 + MaxDepth(args)
    case SeqOperator(args) => 1 + MaxDepth(args)
    case KleeneClosureOperator(arg, _, _) => 1 + Depth(arg)
    case NegationOperator(arg) => 1 + Depth(arg)
  }

  function MaxDepth(args: seq<PatternStructure>): (m: nat)
    decreases args
    ensures forall i :: 0 <= i < |args| ==> Depth(args[i]) <= m
  {
    if args == [] then 0
    else
      var first := Depth(args[0]);
      var rest := MaxDepth(args[1..]);
      assert forall i :: 1 <= i < |args| ==> args[i] == args[1..][i - 1];
      if first >= rest then first else rest
  }

  /** `__get_operator_arg_list`: the operands of a composite structure, the
      operand of a unary one, the primitive event itself otherwise. */
  function GetOperatorArgList(operator: PatternStructure): (r: seq<PatternStructure>)
    ensures operator.IsComposite() ==> r == operator.args
    ensures operator.IsUnary() ==> r == [operator.arg]
    ensures operator.PrimitiveEventStructure? ==> r == [operator]
    ensures MaxDepth(r) <= Depth(operator)
  {
    if operator.IsComposite() then operator.args
    else if operator.IsUnary() then [operator.arg]
    else [operator]
  }

  /** The plan operator of a nested AND or SEQ. */
  function NestedOperatorType(nestedOperator: PatternStructure): OperatorType {
    if nestedOperator.AndOperator? then AND else SEQ
  }

  /** What `__create_nested_structure` returns: for a composite structure,
      the left-deep plan over its operands in order under its own operator;
      for anything else, the single leaf 0. A composite structure without
      operands has no first index and fails. */
  function NestedStructure(nestedOperator: PatternStructure): Result<TreePlanNode, CepError> {
    if nestedOperator.IsComposite() then
      if |nestedOperator.args| == 0 then Err(EmptyCompositeStructure)
      else Ok(LeftDeepChain(NestedOperatorType(nestedOperator), TreePlanLeafNode(0), 1, |nestedOperator.args|))
    else
      Ok(TreePlanLeafNode(0))
  }

  /** `__create_nested_structure`: starts from the leaf of the first index
      and puts one binary node per further index on top. */
  method CreateNestedStructure(nestedOperator: PatternStructure) returns (r: Result<TreePlanNode, CepError>)
    ensures r == NestedStructure(nestedOperator)
  {
    var order: seq<nat> := if nestedOperator.IsComposite() then Range(0, |nestedOperator.args|) else [0];
    var operatorType: Option<OperatorType> := None;
    if nestedOperator.AndOperator? {
      operatorType := Some(AND);
    } else if nestedOperator.SeqOperator? {
      operatorType := Some(SEQ);
    }
    if |order| == 0 {
      return Err(EmptyCompositeStructure);
    }
    var ret := TreePlanLeafNode(order[0]);
    var i := 1;
    while i < |order|
      invariant 1 <= i <= |order|
      invariant nestedOperator.IsComposite() ==> operatorType == Some(NestedOperatorType(nestedOperator))
      invariant ret == LeftDeepChain(NestedOperatorType(nestedOperator), TreePlanLeafNode(0), 1, i)
    {
      ret := TreePlanBinaryNode(operatorType.value, ret, TreePlanLeafNode(order[i]));
      i := i + 1;
    }
    return Ok(ret);
  }

  /** Every binary node of the plan has operator `op`. */
  predicate AllOperators(t: TreePlanNode, op: OperatorType) {
    match t
    case TreePlanLeafNode(_) => true
    case TreePlanBinaryNode(o, l, r) => o == op && AllOperators(l, op) && AllOperators(r, op)
  }

  lemma {:induction false} LeftDeepChainAllOperators(op: OperatorType, base: TreePlanNode, lo: nat, hi: nat)
    requires AllOperators(base, op)
    ensures AllOperators(LeftDeepChain(op, base, lo, hi), op)
    decreases hi
  {
    if lo < hi {
      LeftDeepChainAllOperators(op, base, lo, hi - 1);
    }
  }

  /** The nested plan fails only for a composite structure without operands;
      otherwise its leaves index the operator's argument list exactly, in
      order, it has one binary node fewer than leaves, and all of them carry
      the nested structure's own operator. */
  lemma NestedStructureShape(nestedOperator: PatternStructure)
    ensures NestedStructure(nestedOperator).Err? <==> nestedOperator.IsComposite() && |nestedOperator.args| == 0
    ensures NestedStructure(nestedOperator).Ok? ==>
      var t := NestedStructure(nestedOperator).value;
      var n := |GetOperatorArgList(nestedOperator)|;
      && Leaves(t) == Range(0, n)
      && BinaryNodeCount(t) == n - 1
      && AllOperators(t, NestedOperatorType(nestedOperator))
  {
    if nestedOperator.IsComposite() && |nestedOperator.args| > 0 {
      var n := |nestedOperator.args|;
      var op := NestedOperatorType(nestedOperator);
      LeftDeepChainShape(op, TreePlanLeafNode(0), 1, n);
      LeftDeepChainAllOperators(op, TreePlanLeafNode(0), 1, n);
      assert Range(0, n) == [0] + Range(1, n);
    } else if !nestedOperator.IsComposite() {
      assert Range(0, 1) == [0];
    }
  }

  // ---------------------------------------------------------------------
  // Internal nodes
  // ---------------------------------------------------------------------

  /** `__create_internal_node_by_operator`: a SEQ, AND or Kleene-closure node
      by the operator's top operator; with the flag set, SEQ and AND give
      their negative forms. Any other operator fails. */
  function CreateInternalNodeByOperator(operator: PatternStructure, flag: bool): (r: Result<NodeKind, CepError>)
    ensures r.Ok? <==> operator.IsComposite() || operator.KleeneClosureOperator?
    ensures r.Err? ==> r.error == UnknownOrUnsupportedOperator
    ensures r.Ok? ==> (r.value.IsNegation() <==> flag && operator.IsComposite())
    ensures r.Ok? ==> (r.value.IsSeq() <==> operator.SeqOperator?) && (r.value.IsAnd() <==> operator.AndOperator?)
    ensures r.Ok? && operator.KleeneClosureOperator? ==>
      r.value == KleeneClosureNode(operator.minSize, operator.maxSize)
  {
    match operator
    case SeqOperator(_) => Ok(if flag then NegativeSeqNode else SeqNode)
    case AndOperator(_) => Ok(if flag then NegativeAndNode else AndNode)
    case KleeneClosureOperator(_, minSize, maxSize) => Ok(KleeneClosureNode(minSize, maxSize))
    case _ => Err(UnknownOrUnsupportedOperator)
  }

  // ---------------------------------------------------------------------
  // Tree construction
  // ---------------------------------------------------------------------

  /** A negated argument stands for its operand. */
  function Unwrapped(operator: PatternStructure): PatternStructure {
    if operator.NegationOperator? then operator.arg else operator
  }

  /** The tree `t` mirrors the plan: each binary plan node became an
      internal node of the top operator's kind, negative exactly when the
      plan operator is NSEQ or NAND, over the trees of the plan node's left
      and right children; each plan leaf became the tree of the argument it
      indexes. */
  ghost predicate Mirrors(t: EvalTree, plan: TreePlanNode, rootOperator: PatternStructure,
                          args: seq<PatternStructure>)
    decreases t, MaxDepth(args), 1
  {
    match plan
    case TreePlanLeafNode(i) => i < |args| && Binds(t, plan, args[i])
    case TreePlanBinaryNode(op, l, r) =>
      && t.BinaryNode?
      && (t.kind.IsNegation() <==> op.IsNegative())
      && (t.kind.IsSeq() <==> rootOperator.SeqOperator?)
      && (t.kind.IsAnd() <==> rootOperator.AndOperator?)
      && Mirrors(t.left, l, rootOperator, args)
      && Mirrors(t.right, r, rootOperator, args)
  }

  /** The tree `t` is what a plan leaf becomes for `operator` (negated or
      not): a leaf node holding the plan leaf's index and the primitive
      event; a Kleene-closure node with the operator's bounds over the tree
      of its operand's nested plan; or the tree of a nested AND/SEQ's own
      plan. */
  ghost predicate Binds(t: EvalTree, planLeaf: TreePlanNode, operator: PatternStructure)
    decreases t, Depth(operator), 0
  {
    var op := Unwrapped(operator);
    assert Depth(op) <= Depth(operator);
    match op
    case PrimitiveEventStructure(_, _) =>
      planLeaf.TreePlanLeafNode? && t == LeafNode(planLeaf.eventIndex, op)
    case KleeneClosureOperator(nested, minSize, maxSize) =>
      && t.UnaryNode? && t.kind == KleeneClosureNode(minSize, maxSize)
      && NestedStructure(nested).Ok?
      && Mirrors(t.child, NestedStructure(nested).value, nested, GetOperatorArgList(nested))
    case AndOperator(args) =>
      NestedStructure(op).Ok? && Mirrors(t, NestedStructure(op).value, op, args)
    case SeqOperator(args) =>
      NestedStructure(op).Ok? && Mirrors(t, NestedStructure(op).value, op, args)
    case NegationOperator(_) => false
  }

  /** The termination measure of the construction: the depth of the
      arguments, and of the top operator where it is handled as an argument
      (a unary top operator of the whole pattern). */
  function ConstructionDepth(rootOperator: PatternStructure, args: seq<PatternStructure>, atRoot: bool): nat {
    if atRoot && rootOperator.IsUnary() && Depth(rootOperator) > MaxDepth(args) then Depth(rootOperator)
    else MaxDepth(args)
  }

  /** When construction from a plan succeeds: a plan leaf must index an
      argument that can be built at a leaf, and a binary plan node needs an
      AND or SEQ top operator (a Kleene closure cannot take two subtrees,
      other operators have no node kind) and children that can be built. A
      unary top operator of the whole pattern is handled as an argument. */
  ghost predicate PlanBuildable(rootOperator: PatternStructure, plan: TreePlanNode, args: seq<PatternStructure>,
                                atRoot: bool)
    decreases ConstructionDepth(rootOperator, args, atRoot), 1, plan
  {
    if atRoot && rootOperator.IsUnary() then OperandBuildable(plan, rootOperator, atRoot)
    else
      match plan
      case TreePlanLeafNode(i) => i < |args| && OperandBuildable(plan, args[i], false)
      case TreePlanBinaryNode(_, l, r) =>
        rootOperator.IsComposite() && PlanBuildable(rootOperator, l, args, false)
        && PlanBuildable(rootOperator, r, args, false)
  }

  /** When an argument can be built at a plan leaf: a primitive event
      (negated or not) needs a plan leaf, not a binary plan node; a Kleene
      closure needs an operand that is not an empty composite and whose
      nested plan can be built; a nested AND/SEQ needs operands and a nested
      plan that can be built; a negation of a negation cannot be built. */
  ghost predicate OperandBuildable(planLeaf: TreePlanNode, operator: PatternStructure, atRoot: bool)
    decreases Depth(operator), 0, planLeaf
  {
    var op := Unwrapped(operator);
    assert Depth(op) <= Depth(operator);
    match op
    case PrimitiveEventStructure(_, _) => planLeaf.TreePlanLeafNode?
    case KleeneClosureOperator(nested, _, _) =>
      && !(nested.IsComposite() && |nested.args| == 0)
      && PlanBuildable(nested, NestedStructure(nested).value, GetOperatorArgList(nested), false)
    case AndOperator(args) =>
      |args| > 0 && PlanBuildable(op, NestedStructure(op).value, args, atRoot)
    case SeqOperator(args) =>
      |args| > 0 && PlanBuildable(op, NestedStructure(op).value, args, atRoot)
    case NegationOperator(_) => false
  }

  /** `__construct_tree`; `atRoot` stands for "no parent node". A unary top
      operator of the whole pattern is handled as an argument. Otherwise a
      plan leaf becomes the tree of the argument it indexes, and a binary
      plan node an internal node of the top operator over the trees of its
      children; a Kleene closure cannot take two subtrees. */
  function ConstructTree(rootOperator: PatternStructure, treePlan: TreePlanNode, args: seq<PatternStructure>,
                         atRoot: bool): (r: Result<EvalTree, CepError>)
    decreases ConstructionDepth(rootOperator, args, atRoot), 1, treePlan
    ensures atRoot && rootOperator.IsUnary() && r.Ok? ==> Binds(r.value, treePlan, rootOperator)
    ensures !(atRoot && rootOperator.IsUnary()) && r.Ok? ==> Mirrors(r.value, treePlan, rootOperator, args)
    ensures r.Ok? <==> PlanBuildable(rootOperator, treePlan, args, atRoot)
    ensures !(atRoot && rootOperator.IsUnary()) && treePlan.TreePlanLeafNode? && treePlan.eventIndex >= |args| ==>
      r == Err(ArgumentIndexOutOfRange(treePlan.eventIndex))
    ensures !(atRoot && rootOperator.IsUnary()) && treePlan.TreePlanBinaryNode?
            && !rootOperator.IsComposite() && !rootOperator.KleeneClosureOperator? ==>
      r == Err(UnknownOrUnsupportedOperator)
    ensures !(atRoot && rootOperator.IsUnary()) && treePlan.TreePlanBinaryNode? && rootOperator.KleeneClosureOperator? ==>
      r.Err?
  {
    if atRoot && rootOperator.IsUnary() then
      HandlePrimitiveEventOrNestedStructure(treePlan, rootOperator, atRoot)
    else
      match treePlan
      case TreePlanLeafNode(i) =>
        if i >= |args| then Err(ArgumentIndexOutOfRange(i))
        else HandlePrimitiveEventOrNestedStructure(treePlan, args[i], false)
      case TreePlanBinaryNode(operator, leftChild, rightChild) =>
        var current :- CreateInternalNodeByOperator(rootOperator, operator.IsNegative());
        var leftSubtree :- ConstructTree(rootOperator, leftChild, args, false);
        var rightSubtree :- ConstructTree(rootOperator, rightChild, args, false);
        if current.KleeneClosureNode? then Err(UnaryNodeGivenTwoSubtrees)
        else Ok(BinaryNode(current, leftSubtree, rightSubtree))
  }

  /** `__handle_primitive_event_or_nested_structure`: a primitive event
      (negated or not) becomes a leaf, which needs a plan leaf; a Kleene
      closure becomes its node over the tree of its operand's nested plan; a
      nested AND/SEQ becomes the tree of its own nested plan. A negation of a
      negation has no node kind. */
  function HandlePrimitiveEventOrNestedStructure(treePlanLeaf: TreePlanNode, currentOperator: PatternStructure,
                                                 atRoot: bool): (r: Result<EvalTree, CepError>)
    decreases Depth(currentOperator), 0, treePlanLeaf
    ensures r.Ok? ==> Binds(r.value, treePlanLeaf, currentOperator)
    ensures r.Ok? <==> OperandBuildable(treePlanLeaf, currentOperator, atRoot)
    ensures Unwrapped(currentOperator).PrimitiveEventStructure? ==>
      (r.Err? <==> treePlanLeaf.TreePlanBinaryNode?) && (r.Err? ==> r.error == PlanNodeWithoutEventIndex)
    ensures Unwrapped(currentOperator).NegationOperator? ==> r == Err(UnknownOrUnsupportedOperator)
    ensures Unwrapped(currentOperator).IsComposite() && |Unwrapped(currentOperator).args| == 0 ==>
      r == Err(EmptyCompositeStructure)
  {
    var operator := Unwrapped(currentOperator);
    assert Depth(operator) <= Depth(currentOperator);
    match operator
    case PrimitiveEventStructure(_, _) =>
      if treePlanLeaf.TreePlanBinaryNode? then Err(PlanNodeWithoutEventIndex)
      else Ok(LeafNode(treePlanLeaf.eventIndex, operator))
    case KleeneClosureOperator(nestedOperator, _, _) =>
      // a Kleene closure always has a node kind
      var unaryNode := CreateInternalNodeByOperator(operator, false).value;
      var nestedPlan :- NestedStructure(nestedOperator);
      var child :- ConstructTree(nestedOperator, nestedPlan, GetOperatorArgList(nestedOperator), false);
      Ok(UnaryNode(unaryNode, child))
    case NegationOperator(_) =>
      Err(UnknownOrUnsupportedOperator)
    case AndOperator(args) =>
      var nestedPlan :- NestedStructure(operator);
      ConstructTree(operator, nestedPlan, args, atRoot)
    case SeqOperator(args) =>
      var nestedPlan :- NestedStructure(operator);
      ConstructTree(operator, nestedPlan, args, atRoot)
  }

  /** Under an AND or SEQ top operator, a plan whose leaves all index
      primitive arguments (negated or not) is always built. */
  lemma {:induction false} PrimitiveArgumentsBuild(rootOperator: PatternStructure, plan: TreePlanNode,
                                                   args: seq<PatternStructure>)
    requires rootOperator.IsComposite()
    requires forall i :: 0 <= i < |args| ==> Unwrapped(args[i]).PrimitiveEventStructure?
    requires forall k :: 0 <= k < |Leaves(plan)| ==> Leaves(plan)[k] < |args|
    ensures ConstructTree(rootOperator, plan, args, false).Ok?
    decreases plan
  {
    match plan
    case TreePlanLeafNode(i) =>
      assert Leaves(plan)[0] == i;
    case TreePlanBinaryNode(_, l, r) =>
      forall k | 0 <= k < |Leaves(l)| ensures Leaves(l)[k] < |args| {
        assert Leaves(plan)[k] == Leaves(l)[k];
      }
      forall k | 0 <= k < |Leaves(r)| ensures Leaves(r)[k] < |args| {
        assert Leaves(plan)[|Leaves(l)| + k] == Leaves(r)[k];
      }
      PrimitiveArgumentsBuild(rootOperator, l, args);
      PrimitiveArgumentsBuild(rootOperator, r, args);
  }

  /** A non-empty AND or SEQ of primitive events (negated or not) is always
      built from its own nested plan. */
  lemma FlatNestedStructureBuilds(operator: PatternStructure)
    requires operator.IsComposite() && |operator.args| > 0
    requires forall i :: 0 <= i < |operator.args| ==> Unwrapped(operator.args[i]).PrimitiveEventStructure?
    ensures NestedStructure(operator).Ok?
    ensures ConstructTree(operator, NestedStructure(operator).value, operator.args, false).Ok?
  {
    NestedStructureShape(operator);
    PrimitiveArgumentsBuild(operator, NestedStructure(operator).value, operator.args);
  }

  predicate IsNegationNode(t: EvalTree) {
    t.BinaryNode? && t.kind.IsNegation()
  }

  /** The root of a tree built from a binary plan node is a negation node
      exactly when the plan's root operator is NSEQ or NAND. */
  lemma RootNegationFollowsPlan(rootOperator: PatternStructure, treePlan: TreePlanNode,
                                args: seq<PatternStructure>, atRoot: bool)
    requires !(atRoot && rootOperator.IsUnary()) && treePlan.TreePlanBinaryNode?
    requires ConstructTree(rootOperator, treePlan, args, atRoot).Ok?
    ensures IsNegationNode(ConstructTree(rootOperator, treePlan, args, atRoot).value) <==>
      treePlan.operator.IsNegative()
  {
    assert Mirrors(ConstructTree(rootOperator, treePlan, args, atRoot).value, treePlan, rootOperator, args);
  }

  // ---------------------------------------------------------------------
  // Negative events, conditions, pending matches
  // ---------------------------------------------------------------------

  /** `__is_unbounded_negative_event`: a negative event can invalidate a
      finished match unless the pattern is a sequence in which a primitive
      event follows the negative event's position. */
  method IsUnboundedNegativeEvent(pattern: Pattern, negationOperatorIndex: nat) returns (unbounded: bool)
    ensures unbounded <==>
      || !pattern.fullStructure.SeqOperator?
      || forall i :: negationOperatorIndex < i < |pattern.fullStructure.args| ==>
           !pattern.fullStructure.args[i].PrimitiveEventStructure?
  {
    if !pattern.fullStructure.SeqOperator? {
      return true;
    }
    var sequenceElements := pattern.fullStructure.args;
    var i := negationOperatorIndex + 1;
    while i < |sequenceElements|
      invariant negationOperatorIndex < i
      invariant forall j :: negationOperatorIndex < j < i && j < |sequenceElements| ==>
        !sequenceElements[j].PrimitiveEventStructure?
    {
      if sequenceElements[i].PrimitiveEventStructure? {
        return false;
      }
      i := i + 1;
    }
    return true;
  }

  /** `__apply_condition`: the root consumes from a copy of the pattern's
      condition what its nodes use (`applyConditionOnRoot` gives what is
      left); anything left over is an error. The pattern's own condition is
      a value and is not touched. */
  method ApplyCondition(pattern: Pattern, applyConditionOnRoot: Formula -> Formula) returns (r: Result<(), CepError>)
    ensures r.Ok? <==> applyConditionOnRoot(pattern.condition).conditions == []
    ensures r.Err? ==> r.error == UnusedConditions(applyConditionOnRoot(pattern.condition).conditions)
  {
    var conditionCopy := pattern.condition;
    conditionCopy := applyConditionOnRoot(conditionCopy);
    if |conditionCopy.conditions| > 0 {
      return Err(UnusedConditions(conditionCopy.conditions));
    }
    return Ok(());
  }

  /** For a root that keeps the conditions over exactly its event names and
      passes the rest on (as a Kleene-closure node does), nothing is left
      over exactly when every condition is over exactly those names. */
  lemma {:induction false} NothingLeftOverForOneNode(formula: Formula, names: set<EventName>)
    ensures ConsumeFormulaOf(formula, names).conditions == [] <==>
      forall c :: c in formula.conditions ==> c.names == names
  {
    var left := ConsumeFormulaOf(formula, names).conditions;
    if left != [] {
      assert left[0] in left;
    }
  }

  /** `get_last_matches`: pending matches exist only below a negation root
      that has an unbounded negative node (found by
      `firstUnboundedNegativeNode`); that node's pending matches are then
      released (`releasedMatches`). */
  function GetLastMatches<M>(root: EvalTree, firstUnboundedNegativeNode: EvalTree -> Option<EvalTree>,
                             releasedMatches: EvalTree -> seq<M>): (r: seq<M>)
    ensures r != [] ==> IsNegationNode(root) && firstUnboundedNegativeNode(root).Some?
    ensures IsNegationNode(root) && firstUnboundedNegativeNode(root).Some? ==>
      r == releasedMatches(firstUnboundedNegativeNode(root).value)
  {
    if !IsNegationNode(root) then []
    else
      var node := firstUnboundedNegativeNode(root);
      if node.None? then [] else releasedMatches(node.value)
  }

  /** A tree built from a plan whose root operator is AND or SEQ has no
      pending matches to retrieve. */
  lemma NoLastMatchesUnderPositiveRoot<M>(rootOperator: PatternStructure, treePlan: TreePlanNode,
                                          args: seq<PatternStructure>, atRoot: bool,
                                          firstUnboundedNegativeNode: EvalTree -> Option<EvalTree>,
                                          releasedMatches: EvalTree -> seq<M>)
    requires !(atRoot && rootOperator.IsUnary()) && treePlan.TreePlanBinaryNode?
    requires !treePlan.operator.IsNegative()
    requires ConstructTree(rootOperator, treePlan, args, atRoot).Ok?
    ensures GetLastMatches(ConstructTree(rootOperator, treePlan, args, atRoot).value,
                           firstUnboundedNegativeNode, releasedMatches) == []
  {
    RootNegationFollowsPlan(rootOperator, treePlan, args, atRoot);
  }
}
