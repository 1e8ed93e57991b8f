# OpenCEP evaluation-tree core in Dafny

OpenCEP is a complex-event-processing engine. A pattern (SEQ, AND, Kleene
closure, negation over primitive events, with a condition and a time window)
is compiled into a tree plan. The plan is turned into an evaluation tree of
nodes, and matches flow up the tree. An adaptive optimizer decides from
streaming statistics when to rebuild the plan.

This project models the following parts of that core:

- **Kleene-closure node** (`kleene_closure_node.dfy`, module `KleeneClosure`).
  - A class with the node's size bounds, condition, child store and the
    event lists it propagated.
  - When a new partial match arrives it cleans the child's expired matches.
  - It then generates every set of stored matches that contains the new one
    and respects the size bounds. It flattens each set to an event list,
    validates it and propagates it.
  - The power-set generation is specified by functions. Lemmas prove it
    sound and complete with respect to subsequences of the store.
  - A sliding-window scenario (window 10, one event type, events at 0, 3,
    9 and 15, sets of at least two) is proved step by step.
- **Optimizer** (`optimizer.dfy`, module `Optimizers`).
  - One class with a variant tag: trivial, statistics-changes-aware or
    invariants-aware.
  - `IsNeedOptimize`, `BuildNewTreePlan` and `BuildInitialTreePlan`,
    including the builder swap and the non-prior builder choice.
  - The statistics-changes scan is specified by a function. Lemmas state
    exactly when it answers true, false or fails.
- **Tree-plan builder helpers** (`tree_plan_builder.dfy`, module
  `TreePlanBuilder`): plan wrapping, binary-node operator choice, and the
  negative part appended as a left-deep chain.
- **Tree construction** (`tree.dfy`, module `Trees`).
  - Recursive construction of the evaluation tree from a plan. Nested
    structures are expanded through their own left-deep plans.
  - The operator-to-node mapping, the argument lists and the nested plans.
  - The unbounded-negative-event rule, the "no unused conditions" check and
    the retrieval of pending matches.
- **Consumption policies** (`consumption_policies.dfy`, module
  `Consumption`): the records and the `contiguous` shorthand
  normalisation.

`patterns.dfy` holds the pattern vocabulary these files share. `wrappers.dfy`
holds `Option` and `Result`. Exceptions the source raises are `Err` values
of `Patterns.CepError`.

## Model

| member | source | states |
|---|---|---|
| Patterns.GetArgs | plan/TreePlanBuilder.py:43 | argument lists exist exactly for AND/SEQ structures and are their operands |
| Patterns.Lookup | optimizer/Optimizer.py:79 | a snapshot has a value for a kind iff some entry carries that kind |
| Patterns.LookupInDictionary | optimizer/Optimizer.py:79 | in a snapshot without repeated kinds, looking up an entry's kind gives that entry's value |
| Patterns.ConditionsOf | tree/KleeneClosureNode.py:79 | the extracted conditions are exactly the formula's conditions over exactly the node's names |
| Patterns.ConditionsNotOf | tree/KleeneClosureNode.py:80 | the remaining conditions are exactly the formula's conditions over other name sets |
| Patterns.ExtractConsumePartition | tree/KleeneClosureNode.py:78-80 | extraction and consumption split the formula: every condition lands on exactly one side, multiplicities kept |
| Consumption.NewSingleTypes | misc/ConsumptionPolicies.py:13-15 | both fields are stored as given, with defaults None and type1 |
| Consumption.NewConsumptionPolicies | misc/ConsumptionPolicies.py:24-31 | single and skip are stored as given; a non-empty name list becomes its only group; anything else is kept; None stays None; normalising twice changes nothing |
| Consumption.NormalizedIsGroupsOfNames | misc/ConsumptionPolicies.py:24-31 | either accepted input form comes out as a list of groups of names that mentions the same names in the same order |
| TreePlanBuilder.BuildTreePlan | plan/TreePlanBuilder.py:17-21 | the plan's root is the topology the concrete builder creates, untouched |
| TreePlanBuilder.InstantiateBinaryNode | plan/TreePlanBuilder.py:48-66 | fails iff the positive structure is not AND/SEQ, or there are negative events and the right subtree has no event index; otherwise a binary node over the given subtrees, AND-family iff the pattern is AND, negative iff there are negative events and the right leaf indexes past the positive arguments |
| TreePlanBuilder.AddNegativePart | plan/TreePlanBuilder.py:35-46 | the loop's result is the positive subtree under a left-deep chain of one node per negative argument; without negative events the subtree is returned unchanged |
| TreePlanBuilder.LeftDeepChainShape | plan/TreePlanBuilder.py:43-45 | the chain keeps its base's leaves and appends the chained indices in increasing order, adding one binary node and one level per index |
| TreePlanBuilder.NegativePartShape | plan/TreePlanBuilder.py:35-46 | with negative events, the result's leaves are the positive leaves followed by the negative argument indices, with one more node and one more level per negative argument |
| TreePlanBuilder.LeftDeepChainOperators | plan/TreePlanBuilder.py:43-45 | every node the negative part adds carries the negative operator and has the leaf of its index on the right; peeling the chain gives back the positive subtree |
| KleeneClosure.Powerset | tree/KleeneClosureNode.py:66 | the generator: nothing for a negative cap, otherwise the empty subset first; with PowersetSound, PowersetComplete and PowersetCountUncapped it yields exactly the order-preserving subsets within the cap |
| KleeneClosure.PowersetSound | tree/KleeneClosureNode.py:66 | every generated subset respects the size cap and is a subsequence of the items |
| KleeneClosure.PowersetComplete | tree/KleeneClosureNode.py:66 | every subsequence within the cap is generated |
| KleeneClosure.PowersetCountUncapped | tree/KleeneClosureNode.py:66 | without an effective cap, 2^n subsets are generated |
| KleeneClosure.KeepAtLeastMembers | tree/KleeneClosureNode.py:69-70 | the minimal-size filter keeps exactly the sets of at least the minimal size |
| KleeneClosure.ChildMatchesPowerset | tree/KleeneClosureNode.py:49-71 | an empty store gives no sets; with ChildMatchesPowersetSound and ChildMatchesPowersetComplete the sets are exactly the last stored match appended to each subsequence of the earlier matches, within both size bounds |
| KleeneClosure.ChildMatchesPowersetSound | tree/KleeneClosureNode.py:49-71 | an empty store gives no sets; every generated set ends with the last stored match, has a size between the bounds (max defaulting to the store size), and otherwise holds earlier matches in stored order |
| KleeneClosure.ChildMatchesPowersetComplete | tree/KleeneClosureNode.py:49-71 | every subsequence of the earlier matches that, extended with the last match, fits the bounds is generated |
| KleeneClosure.ThreeMatchesExample | tree/KleeneClosureNode.py:60-71 | for store m1, m2, m3 with bounds 1..2, exactly {m3}, {m2, m3}, {m1, m3} are generated, and not {m1, m2} or {m1, m2, m3} |
| KleeneClosure.FlattenContents | tree/KleeneClosureNode.py:85-100 | the flattened list has one entry per event of the set, and holds exactly the events of the set's matches |
| KleeneClosure.FlattenAppend | tree/KleeneClosureNode.py:95-98 | flattening distributes over concatenation of match sets |
| KleeneClosure.PartialMatchSetToEventList | tree/KleeneClosureNode.py:85-100 | the loop returns the events of all matches of the set, concatenated in set order; its accumulators hold the least first and greatest last timestamp seen so far, and are not returned |
| KleeneClosure.Payloads | tree/KleeneClosureNode.py:47 | one payload per event, in order |
| KleeneClosure.PropagatedContents | tree/KleeneClosureNode.py:38-41 | an event list is propagated iff it is the flattening of a generated set and passes the condition; at most one list per set |
| KleeneClosure.CleanExpired | tree/KleeneClosureNode.py:33 | cleaning never adds matches; with CleanExpiredContents it keeps exactly the unexpired matches in stored order |
| KleeneClosure.CleanExpiredContents | tree/KleeneClosureNode.py:33 | cleaning keeps the stored order and exactly the matches the expiry rule does not reject |
| KleeneClosure.CleanExpiredNoneExpired | tree/KleeneClosureNode.py:33 | when nothing has expired, cleaning changes nothing |
| KleeneClosure.WindowCleaning | tree/KleeneClosureNode.py:32-33 | window 10, events at 0, 3, 9 and 15: at 9 nothing is evicted; at 15 the matches at 0 and 3 are evicted |
| KleeneClosure.WindowPowersetAt9 | tree/KleeneClosureNode.py:60-71 | with min size 2, the arrival at 9 yields {3, 9}, {0, 9}, {0, 3, 9} |
| KleeneClosure.WindowPowersetAt15 | tree/KleeneClosureNode.py:60-71 | after eviction, the arrival at 15 yields only {9, 15} |
| KleeneClosure.KleeneClosureNode.constructor | tree/KleeneClosureNode.py:17-20 | the node stores its bounds, with no condition, no child and nothing propagated |
| KleeneClosure.KleeneClosureNode.ValidateNewMatch | tree/KleeneClosureNode.py:43-47 | a list of events is valid iff the node's condition holds on the list of their payloads, taken in event order |
| KleeneClosure.KleeneClosureNode.ValidateAndPropagatePartialMatch | tree/KleeneClosureNode.py:41-47 | the event list is appended to the propagated output exactly when the condition holds on its payloads |
| KleeneClosure.KleeneClosureNode.HandleNewPartialMatch | tree/KleeneClosureNode.py:22-41 | without a child: an error and no change; otherwise the store is cleaned relative to the new match's last timestamp, and the flattening of every generated set that passes the condition is propagated, in generation order |
| KleeneClosure.KleeneClosureNode.ApplyFormula | tree/KleeneClosureNode.py:73-80 | the node keeps exactly the conditions over its own names; the handed-back formula holds exactly the others; together they are the original formula |
| Optimizers.ChangesScanAnswers | optimizer/Optimizer.py:77-83 | when every entry can be tested, the scan succeeds and answers true iff some entry's tester reports a change |
| Optimizers.ChangesScanFails | optimizer/Optimizer.py:77-83 | the scan fails iff it reaches an untestable entry (kind missing from the previous snapshot or without a tester) before any reported change |
| Optimizers.UnchangedSnapshot | optimizer/Optimizer.py:77-83 | with testers that report no change between equal values, a snapshot compared with itself needs no re-optimization |
| Optimizers.BuildNonPriorTreePlanBuilder | optimizer/Optimizer.py:42-50 | no builder iff the pattern has statistics; an error iff it has none and the default builder kind is not the trivial left-deep one; otherwise the trivial left-deep builder with the given cost model |
| Optimizers.Optimizer.TrivialOptimizer | optimizer/Optimizer.py:16-17 | stores the builder; no previous statistics or invariants |
| Optimizers.Optimizer.StatisticsChangesAwareOptimizer | optimizer/Optimizer.py:72-75 | stores the builder and the tester map; no previous statistics |
| Optimizers.Optimizer.InvariantsAwareOptimizer | optimizer/Optimizer.py:103-105 | stores the builder; no invariants |
| Optimizers.Optimizer.IsNeedOptimize | optimizer/Optimizer.py:58-108 | trivial: always true; changes-aware: the loop answers as the scan over the snapshot, and before any plan was built it fails iff the snapshot is non-empty; invariants-aware: true iff there are no invariants or they are violated |
| Optimizers.Optimizer.BuildNewTreePlan | optimizer/Optimizer.py:61-112 | trivial and changes-aware: the current builder's plan or its error, and changes-aware records the snapshot as the previous one before building; invariants-aware: the plan the builder returns, with its invariants recorded, or the builder's error with the invariants untouched; nothing else changes |
| Optimizers.Optimizer.BuildInitialTreePlan | optimizer/Optimizer.py:30-119 | the result is the non-prior builder's when there is one, else the optimizer's own builder's; after a success the optimizer's builder is the one it had; when the swapped-in non-prior builder raises, it stays installed; an unknown default kind fails before any change; invariants-aware builds the non-prior plan directly without recording invariants; only the changes-aware variant touches the previous statistics and only the invariants-aware one the invariants |
| Trees.GetOperatorArgList | tree/Tree.py:107-117 | the operands of an AND/SEQ, the single operand of a Kleene closure or negation, the event itself for a primitive; the list is never deeper than the structure |
| Trees.CreateNestedStructure | tree/Tree.py:218-233 | the loop builds the left-deep plan over the operands under the structure's operator, or the single leaf 0 for a non-composite |
| Trees.LeftDeepChainAllOperators | tree/Tree.py:230-232 | chaining under an operator keeps every binary node carrying that operator |
| Trees.NestedStructureShape | tree/Tree.py:218-233 | fails iff the structure is composite without operands; otherwise the leaves are 0 .. n-1 in order, with n-1 binary nodes all carrying the structure's own operator |
| Trees.CreateInternalNodeByOperator | tree/Tree.py:119-139 | a node exists iff the operator is SEQ, AND or a Kleene closure; it is negative iff the flag is set and the operator is SEQ/AND; its SEQ/AND kind follows the operator; a Kleene node carries the operator's bounds |
| Trees.ConstructTree | tree/Tree.py:172-200 | construction succeeds exactly when the plan is buildable: every plan leaf indexes an argument that can be built there, and every binary plan node has an AND or SEQ top operator; a built tree mirrors the plan, with one internal node of the top operator per binary plan node, negative exactly where the plan says NSEQ/NAND, and the argument's tree per plan leaf; an out-of-range leaf index and an unsupported top operator give their errors |
| Trees.HandlePrimitiveEventOrNestedStructure | tree/Tree.py:141-170 | succeeds exactly when the argument can be built at that plan position: a primitive event (negated or not) on a plan leaf becomes a leaf with its index, and fails on a binary plan node; a Kleene closure whose operand's nested plan builds becomes its node over that tree; a non-empty nested AND/SEQ whose nested plan builds becomes that tree; an empty composite and a doubly negated event fail |
| Trees.PrimitiveArgumentsBuild | tree/Tree.py:172-200 | under an AND or SEQ top operator, a plan whose leaves all index primitive arguments (negated or not) is always built |
| Trees.FlatNestedStructureBuilds | tree/Tree.py:162-170 | a non-empty AND or SEQ of primitive events is always built from its own nested plan |
| Trees.RootNegationFollowsPlan | tree/Tree.py:189-194 | the built root is a negation node iff the plan's root operator is NSEQ or NAND |
| Trees.IsUnboundedNegativeEvent | tree/Tree.py:235-249 | unbounded iff the full pattern is not a sequence, or no primitive event follows the given index |
| Trees.ApplyCondition | tree/Tree.py:52-61 | succeeds iff nothing is left of the condition after the root applies it; otherwise the error carries what is left |
| Trees.NothingLeftOverForOneNode | tree/Tree.py:52-61 | for a root that keeps the conditions over exactly its names, nothing is left over iff every condition is over exactly those names |
| Trees.GetLastMatches | tree/Tree.py:202-216 | nothing is retrieved unless the root is a negation node with an unbounded negative node; then the result is what the root reports after that node is flushed |
| Trees.NoLastMatchesUnderPositiveRoot | tree/Tree.py:202-216 | a tree built from a plan whose root operator is AND or SEQ has no pending matches to retrieve |

## Left out

- The power-set generator (`recursive_powerset_generator` in misc/Utils.py) is not part of this model. `KleeneClosure.Powerset` specifies it from its use: every order-preserving subset within the size cap, none when the cap is negative. Subsets without the first item are listed first. The order is an assumption; the completeness and soundness lemmas do not depend on it.
- The power-set generator is modelled as an eager sequence, not a lazy generator.
- KleeneClosure.KleeneClosureNode.HandleNewPartialMatch requires a non-empty child store when a child is attached. The source only calls it after the child stored the new match, and treats the last stored match as the new one, as its comment states.
- KleeneClosure.KleeneClosureNode.ApplyFormula leaves out `_propagate_condition`, which passes the formula to the child. The child's node class is not part of this model.
- Formulas are modelled as lists of conditions, each over a set of event names. `get_formula_of(names, True)` keeps the conditions over exactly those names, and `consume_formula_of` removes them. Formula evaluation is a function parameter.
- Node storage is modelled as a sequence of stored matches. Expiry of the child's matches is a function parameter; the window scenario uses the sliding-window rule. Parent links, storage parameters, pattern ids and `get_structure_summary` are left out.
- The storage cleanup interval (`CLEANUP_INTERVAL` in misc/DefaultConfig.py:26, ten additions between cleanups) is not modelled. `KleeneClosure.CleanExpired` removes every expired match on each arrival. The storage class that might apply the interval is not part of this model.
- The minimum and maximum timestamps that the flattening computes are accumulated and then discarded, as in the source; nothing downstream depends on them.
- Timestamps are integers rather than datetimes.
- `deepcopy` of the condition is value semantics.
- The optimizer hierarchy is one class with a variant tag.
- Optimizers.Optimizer.BuildNewTreePlan stores a value copy of the snapshot as the previous statistics. The source keeps a reference to the caller's dictionary (optimizer/Optimizer.py:87). The statistics collector hands out its own live dictionary and updates its statistic objects in place (statistics_collector/StatisticsCollector.py:18-22). So the source may later compare each statistic object with itself. The model's statistics are immutable values, and it does not capture this aliasing.
- The concrete tree-plan builders, cost models, invariant checks and change testers are function parameters. A builder that raises is modelled as one that returns an error.
- The default builder kind (misc/DefaultConfig.py) is a constructor argument.
- The source calls `build_tree_plan` with the statistics even though the base builder's signature takes only the pattern. The model abstracts this as `Collaborators.buildTreePlan`.
- `StatisticsChangesAwareOptimizer.is_changed_by_t` only raises `NotImplementedError`, so it is not modelled.
- StatisticsCollector and the parallel execution modes are not part of this model.
- `Tree.__init__` is not modelled as a whole: its argument assembly, `__adjust_leaf_indices`, `__update_bounded_neg_seq_nodes`, storage creation and output-node marking are left out. `__is_unbounded_negative_event` is modelled on its own.
- Registration of single event types by the consumption policy (tree/Tree.py:34-37 and 153-155) is left out. The ConsumptionPolicy class it calls is not part of this model.
- `get_matches` and the flushing of pending matches are function parameters of `Trees.GetLastMatches`. The root's unreported-match queue and the lazy reading of it are not modelled: `releasedMatches` stands for what the root reports after the flush.
- OR and other composite operators are left out, since the core does not dispatch on them.
- The `None` operator type that `__create_nested_structure` sets for non-composites never reaches a binary node, so it is not modelled.
- Trees.IsUnboundedNegativeEvent follows the source in looking only for primitive events after the index. A nested structure after the negative event does not make it bounded, because the source assumes a flat sequence.
- A Kleene closure at an internal plan node is an error in the model. The source would call `set_subtrees` on a unary node, which is not part of this model.
- Plan leaf indices are natural numbers, so Python's negative indexing does not arise.
