/** The pattern vocabulary the evaluation-tree core works on: pattern
    structures, composite formulas (as a list of conditions, each over a set of
    event names), streaming statistics, and the errors the core raises.
    The pattern classes themselves live outside this core; only the parts the
    tree, plan and optimizer code read are modelled here. */
module Patterns {
  import opened Wrappers

  type EventType = string
  type EventName = string

  /** A kind of statistic (arrival rates, selectivities, ...). */
  type StatKind(==)
  /** One statistic value; opaque to this core. */
  type Statistic

  /** A statistics snapshot: the items of a dictionary, in iteration order. */
  type Statistics = seq<(StatKind, Statistic)>

  /** The pattern operators this core dispatches on. `args` of a composite
      structure are its operands; a Kleene closure carries its size bounds
      (`maxSize` None means unbounded). */
  datatype PatternStructure =
    | PrimitiveEventStructure(eventType: EventType, name: EventName)
    | AndOperator(args: seq<PatternStructure>)
    | SeqOperator(args: seq<PatternStructure>)
    | KleeneClosureOperator(arg: PatternStructure, minSize: int, maxSize: Option<int>)
    | NegationOperator(arg: PatternStructure)
  {
    predicate IsComposite() {
      AndOperator? || SeqOperator?
    }

    predicate IsUnary() {
      KleeneClosureOperator? || NegationOperator?
    }
  }

  /** One atomic condition of a composite formula, over the event names it
      mentions; `id` stands for the predicate itself. */
  datatype Condition = Condition(names: set<EventName>, id: nat)

  /** A composite formula: the conjunction of its conditions. */
  datatype Formula = Formula(conditions: seq<Condition>)

  datatype Pattern = Pattern(
    positiveStructure: PatternStructure,
    negativeStructure: Option<PatternStructure>,
    fullStructure: PatternStructure,
    condition: Formula,
    window: int,
    statistics: Option<Statistics>)

  /** The failures the modelled code raises. */
  datatype CepError =
    | NotCompositeStructure
    | UnsupportedBinaryOperator
    | PlanNodeWithoutEventIndex
    | UnknownTreePlanBuilderType
    | MissingPreviousStatistics
    | MissingStatisticKind(kind: StatKind)
    | MissingChangesTester(kind: StatKind)
    | UnknownOrUnsupportedOperator
    | ArgumentIndexOutOfRange(index: nat)
    | EmptyCompositeStructure
    | UnaryNodeGivenTwoSubtrees
    | UnusedConditions(remaining: seq<Condition>)
    | NoChildAttached

  /** `get_args()` exists on composite structures only. */
  function GetArgs(s: PatternStructure): (r: Result<seq<PatternStructure>, CepError>)
    ensures r.Ok? <==> s.IsComposite()
    ensures r.Ok? ==> r.value == s.args
  {
    if s.IsComposite() then Ok(s.args) else Err(NotCompositeStructure)
  }

  /** The value a dictionary snapshot holds for `kind`. */
  function Lookup(stats: Statistics, kind: StatKind): (r: Option<Statistic>)
    ensures r.Some? <==> exists i :: 0 <= i < |stats| && stats[i].0 == kind
  {
    if stats == [] then None
    else if stats[0].0 == kind then Some(stats[0].1)
    else Lookup(stats[1..], kind)
  }

  /** A snapshot is a dictionary when no kind occurs twice. */
  ghost predicate DistinctKinds(stats: Statistics) {
    forall i, j :: 0 <= i < j < |stats| ==> stats[i].0 != stats[j].0
  }

  lemma {:induction false} LookupInDictionary(stats: Statistics, i: nat)
    requires DistinctKinds(stats)
    requires i < |stats|
    ensures Lookup(stats, stats[i].0) == Some(stats[i].1)
  {
    if i > 0 {
      assert stats[0].0 != stats[i].0;
      assert stats[1..][i - 1] == stats[i];
      LookupInDictionary(stats[1..], i - 1);
    }
  }

  // ---------------------------------------------------------------------
  // Formula extraction and consumption
  // ---------------------------------------------------------------------

  /** The conditions over exactly the event names `names`. */
  function ConditionsOf(cs: seq<Condition>, names: set<EventName>): (r: seq<Condition>)
    ensures forall c :: c in r <==> c in cs && c.names == names
    ensures |r| <= |cs|
  {
    if cs == [] then []
    else (if cs[0].names == names then [cs[0]] else []) + ConditionsOf(cs[1..], names)
  }

  /** The conditions over anything other than exactly `names`. */
  function ConditionsNotOf(cs: seq<Condition>, names: set<EventName>): (r: seq<Condition>)
    ensures forall c :: c in r <==> c in cs && c.names != names
    ensures |r| <= |cs|
  {
    if cs == [] then []
    else (if cs[0].names != names then [cs[0]] else []) + ConditionsNotOf(cs[1..], names)
  }

  /** `formula.get_formula_of(names, True)`: the sub-formula over exactly `names`. */
  function GetFormulaOf(formula: Formula, names: set<EventName>): Formula {
    Formula(ConditionsOf(formula.conditions, names))
  }

  /** `formula.consume_formula_of(names, True)`: the formula left once the
      sub-formula over exactly `names` is removed. */
  function ConsumeFormulaOf(formula: Formula, names: set<EventName>): Formula {
    Formula(ConditionsNotOf(formula.conditions, names))
  }

  /** Extraction and consumption split a formula: every condition goes to
      exactly one side, with its multiplicity. */
  lemma {:induction false} ExtractConsumePartition(cs: seq<Condition>, names: set<EventName>)
    ensures multiset(ConditionsOf(cs, names)) + multiset(ConditionsNotOf(cs, names)) == multiset(cs)
    ensures |ConditionsOf(cs, names)| + |ConditionsNotOf(cs, names)| == |cs|
  {
    if cs != [] {
      ExtractConsumePartition(cs[1..], names);
      assert cs == [cs[0]] + cs[1..];
    }
  }
}
