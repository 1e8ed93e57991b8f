/** The adaptive optimizer: it decides, from a fresh statistics snapshot,
    whether the evaluation tree should be rebuilt, and builds the new tree
    plan. Three variants share one initial-plan protocol:
    - trivial: always re-optimize;
    - statistics-changes-aware: keep the previous snapshot and ask one change
      tester per statistic kind;
    - invariants-aware: keep the invariants the last plan came with and
      re-optimize when there are none or one is violated.
    The concrete tree-plan builders, cost models and invariant checks are
    outside this core and are supplied as functions. */
module Optimizers {
  import opened Wrappers
  import opened Patterns
  import opened TreePlanBuilder

  /** The kinds of tree-plan builders; only the trivial left-deep one is
      told apart by the optimizer. */
  datatype TreePlanBuilderType = TrivialLeftDeepTree | OtherTreePlanBuilderType(name: string)

  /** A cost model the builders are parameterised by. */
  type CostModelType(==)

  /** A tree-plan builder: its kind and its cost model. */
  datatype TreePlanBuilderModel = TreePlanBuilderModel(builderType: TreePlanBuilderType, costModel: CostModelType)

  /** The invariants an invariant-aware builder returns with a plan. */
  type Invariants

  /** What the optimizer asks of code outside this core:
      - `buildTreePlan`: the plan a builder makes from a snapshot and a
        pattern, or the error it raises;
      - `buildTreePlanWithInvariants`: the same for an invariant-aware builder,
        which also returns the invariants of the plan;
      - `isInvariantsViolated`: whether a snapshot violates the invariants. */
  datatype Collaborators = Collaborators(
    buildTreePlan: (TreePlanBuilderModel, Statistics, Pattern) -> Result<TreePlan, CepError>,
    buildTreePlanWithInvariants: (TreePlanBuilderModel, Statistics, Pattern) -> Result<(TreePlan, Invariants), CepError>,
    isInvariantsViolated: (Invariants, Statistics, Pattern) -> bool)

  datatype OptimizerVariant = Trivial | StatisticsChangesAware | InvariantsAware

  /** A change tester: does the new value differ from the previous one by
      the tester's threshold? */
  type ChangesTester = (Statistic, Statistic) -> bool

  // ---------------------------------------------------------------------
  // The statistics-changes test
  // ---------------------------------------------------------------------

  /** The entry of a snapshot has changed: its kind is in the previous
      snapshot and has a tester, and the tester reports a change. */
  predicate Changed(item: (StatKind, Statistic), prev: Statistics, testers: map<StatKind, ChangesTester>) {
    var prevValue := Lookup(prev, item.0);
    prevValue.Some? && item.0 in testers && testers[item.0](item.1, prevValue.value)
  }

  /** The entry can be tested: its kind is in the previous snapshot and has
      a tester. */
  predicate Testable(item: (StatKind, Statistic), prev: Statistics, testers: map<StatKind, ChangesTester>) {
    Lookup(prev, item.0).Some? && item.0 in testers
  }

  /** What the statistics-changes-aware `is_need_optimize` answers: the
      entries are scanned in order; the first one that cannot be looked up
      fails (no previous snapshot, a kind missing from it, a kind without a
      tester), the first change answers true, and a scan without either
      answers false. */
  function ChangesScan(items: Statistics, prev: Option<Statistics>, testers: map<StatKind, ChangesTester>)
    : Result<bool, CepError>
  {
    if items == [] then Ok(false)
    else if prev.None? then Err(MissingPreviousStatistics)
    else
      var kind := items[0].0;
      var prevValue := Lookup(prev.value, kind);
      if prevValue.None? then Err(MissingStatisticKind(kind))
      else if kind !in testers then Err(MissingChangesTester(kind))
      else if testers[kind](items[0].1, prevValue.value) then Ok(true)
      else ChangesScan(items[1..], prev, testers)
  }

  /** When every entry can be tested, the scan answers, and answers true
      exactly when some entry has changed. */
  lemma {:induction false} ChangesScanAnswers(items: Statistics, prev: Statistics,
                                              testers: map<StatKind, ChangesTester>)
    requires forall i :: 0 <= i < |items| ==> Testable(items[i], prev, testers)
    ensures ChangesScan(items, Some(prev), testers).Ok?
    ensures ChangesScan(items, Some(prev), testers).value <==>
      exists i :: 0 <= i < |items| && Changed(items[i], prev, testers)
  {
    if items != [] {
      var rest := items[1..];
      forall i | 0 <= i < |rest| ensures Testable(rest[i], prev, testers) {
        assert rest[i] == items[i + 1];
      }
      ChangesScanAnswers(rest, prev, testers);
      if !Changed(items[0], prev, testers) {
        if exists i :: 0 <= i < |items| && Changed(items[i], prev, testers) {
          var i :| 0 <= i < |items| && Changed(items[i], prev, testers);
          assert i > 0 && rest[i - 1] == items[i];
        }
        if exists i :: 0 <= i < |rest| && Changed(rest[i], prev, testers) {
          var i :| 0 <= i < |rest| && Changed(rest[i], prev, testers);
          assert items[i + 1] == rest[i];
        }
      }
    }
  }

  /** The scan reaches entry i, after testable unchanged entries only, and
      cannot test it. */
  predicate StopsUntestableAt(items: Statistics, i: int, prev: Statistics, testers: map<StatKind, ChangesTester>) {
    && 0 <= i < |items| && !Testable(items[i], prev, testers)
    && forall j :: 0 <= j < i ==> Testable(items[j], prev, testers) && !Changed(items[j], prev, testers)
  }

  /** The scan fails exactly when it reaches an entry it cannot test before
      any change. */
  lemma {:induction false} ChangesScanFails(items: Statistics, prev: Statistics,
                                            testers: map<StatKind, ChangesTester>)
    ensures ChangesScan(items, Some(prev), testers).Err? <==>
      exists i :: StopsUntestableAt(items, i, prev, testers)
  {
    if items != [] {
      var rest := items[1..];
      ChangesScanFails(rest, prev, testers);
      if Testable(items[0], prev, testers) && !Changed(items[0], prev, testers) {
        forall i | StopsUntestableAt(items, i, prev, testers) ensures StopsUntestableAt(rest, i - 1, prev, testers) {
          assert i > 0;
          forall j | 0 <= j < i - 1 ensures rest[j] == items[j + 1] { }
        }
        forall i | StopsUntestableAt(rest, i, prev, testers) ensures StopsUntestableAt(items, i + 1, prev, testers) {
          forall j | 0 < j < i + 1 ensures items[j] == rest[j - 1] { }
        }
      } else {
        assert !Testable(items[0], prev, testers) ==> StopsUntestableAt(items, 0, prev, testers);
        forall i | StopsUntestableAt(items, i, prev, testers) ensures i == 0 || !Changed(items[0], prev, testers) { }
      }
    }
  }

  /** A snapshot compared with itself has not changed, when it is a
      dictionary, every kind has a tester and no tester reports a change of
      a value against itself. */
  lemma UnchangedSnapshot(items: Statistics, testers: map<StatKind, ChangesTester>)
    requires DistinctKinds(items)
    requires forall i :: 0 <= i < |items| ==> items[i].0 in testers
    requires forall k, s :: k in testers ==> !testers[k](s, s)
    ensures ChangesScan(items, Some(items), testers) == Ok(false)
  {
    forall i | 0 <= i < |items| ensures Testable(items[i], items, testers) && !Changed(items[i], items, testers) {
      LookupInDictionary(items, i);
    }
    ChangesScanAnswers(items, items, testers);
  }

  // ---------------------------------------------------------------------
  // The builder used before any statistics exist
  // ---------------------------------------------------------------------

  /** `build_non_prior_tree_plan_builder`: with no statistics in the
      pattern, a trivial left-deep builder over the given cost model, which
      only exists when that is the configured default builder kind; with
      statistics, no builder. */
  function BuildNonPriorTreePlanBuilder(costModelType: CostModelType, pattern: Pattern,
                                        defaultTreePlanBuilder: TreePlanBuilderType)
    : (r: Result<Option<TreePlanBuilderModel>, CepError>)
    ensures (r.Ok? && r.value.None?) <==> pattern.statistics.Some?
    ensures r.Err? <==> pattern.statistics.None? && defaultTreePlanBuilder != TrivialLeftDeepTree
    ensures r.Err? ==> r.error == UnknownTreePlanBuilderType
    ensures r.Ok? && r.value.Some? ==> r.value.value == TreePlanBuilderModel(TrivialLeftDeepTree, costModelType)
  {
    if pattern.statistics.None? then
      if defaultTreePlanBuilder == TrivialLeftDeepTree then
        Ok(Some(TreePlanBuilderModel(TrivialLeftDeepTree, costModelType)))
      else
        Err(UnknownTreePlanBuilderType)
    else
      Ok(None)
  }

  // ---------------------------------------------------------------------
  // The optimizer
  // ---------------------------------------------------------------------

  /** An optimizer of one of the three variants. `prevStatistics` is used by
      the statistics-changes-aware variant only, `invariants` by the
      invariants-aware variant only. */
  class Optimizer {
    const variant: OptimizerVariant
    const collaborators: Collaborators
    const changesTesters: map<StatKind, ChangesTester>
    const defaultTreePlanBuilder: TreePlanBuilderType
    var treePlanBuilder: TreePlanBuilderModel
    var prevStatistics: Option<Statistics>
    var invariants: Option<Invariants>

    constructor TrivialOptimizer(treePlanBuilder: TreePlanBuilderModel, collaborators: Collaborators,
                                 defaultTreePlanBuilder: TreePlanBuilderType)
      ensures variant == Trivial && this.treePlanBuilder == treePlanBuilder
      ensures this.collaborators == collaborators && this.defaultTreePlanBuilder == defaultTreePlanBuilder
      ensures prevStatistics == None && invariants == None
    {
      variant := Trivial;
      this.collaborators := collaborators;
      changesTesters := map[];
      this.defaultTreePlanBuilder := defaultTreePlanBuilder;
      this.treePlanBuilder := treePlanBuilder;
      prevStatistics := None;
      invariants := None;
    }

    /** No previous snapshot until the first plan is built. */
    constructor StatisticsChangesAwareOptimizer(treePlanBuilder: TreePlanBuilderModel,
                                                typeToChangesAwareTesterMap: map<StatKind, ChangesTester>,
                                                collaborators: Collaborators,
                                                defaultTreePlanBuilder: TreePlanBuilderType)
      ensures variant == StatisticsChangesAware && this.treePlanBuilder == treePlanBuilder
      ensures changesTesters == typeToChangesAwareTesterMap
      ensures this.collaborators == collaborators && this.defaultTreePlanBuilder == defaultTreePlanBuilder
      ensures prevStatistics == None && invariants == None
    {
      variant := StatisticsChangesAware;
      this.collaborators := collaborators;
      changesTesters := typeToChangesAwareTesterMap;
      this.defaultTreePlanBuilder := defaultTreePlanBuilder;
      this.treePlanBuilder := treePlanBuilder;
      prevStatistics := None;
      invariants := None;
    }

    /** No invariants until the first plan is built. */
    constructor InvariantsAwareOptimizer(treePlanBuilder: TreePlanBuilderModel, collaborators: Collaborators,
                                         defaultTreePlanBuilder: TreePlanBuilderType)
      ensures variant == InvariantsAware && this.treePlanBuilder == treePlanBuilder
      ensures this.collaborators == collaborators && this.defaultTreePlanBuilder == defaultTreePlanBuilder
      ensures prevStatistics == None && invariants == None
    {
      variant := InvariantsAware;
      this.collaborators := collaborators;
      changesTesters := map[];
      this.defaultTreePlanBuilder := defaultTreePlanBuilder;
      this.treePlanBuilder := treePlanBuilder;
      prevStatistics := None;
      invariants := None;
    }

    /** `is_need_optimize`: always for the trivial variant; for the
        statistics-changes-aware variant, the scan of the new snapshot
        against the previous one (which fails on a non-empty snapshot when
        no plan has been built yet); for the invariants-aware variant, when
        there are no invariants or they are violated. */
    method IsNeedOptimize(newStatistics: Statistics, pattern: Pattern) returns (r: Result<bool, CepError>)
      ensures variant == Trivial ==> r == Ok(true)
      ensures variant == StatisticsChangesAware ==> r == ChangesScan(newStatistics, prevStatistics, changesTesters)
      ensures variant == StatisticsChangesAware && prevStatistics.None? ==>
        (r.Err? <==> |newStatistics| > 0) && (r.Err? ==> r.error == MissingPreviousStatistics)
      ensures variant == InvariantsAware ==>
        r == Ok(invariants.None? || collaborators.isInvariantsViolated(invariants.value, newStatistics, pattern))
    {
      match variant
      case Trivial =>
        return Ok(true);
      case InvariantsAware =>
        return Ok(invariants.None? || collaborators.isInvariantsViolated(invariants.value, newStatistics, pattern));
      case StatisticsChangesAware =>
        var i := 0;
        while i < |newStatistics|
          invariant 0 <= i <= |newStatistics|
          invariant ChangesScan(newStatistics[i..], prevStatistics, changesTesters)
                 == ChangesScan(newStatistics, prevStatistics, changesTesters)
        {
          var newStatisticsType := newStatistics[i].0;
          assert newStatistics[i..][1..] == newStatistics[i + 1..];
          if prevStatistics.None? {
            return Err(MissingPreviousStatistics);
          }
          var prevValue := Lookup(prevStatistics.value, newStatisticsType);
          if prevValue.None? {
            return Err(MissingStatisticKind(newStatisticsType));
          }
          if newStatisticsType !in changesTesters {
            return Err(MissingChangesTester(newStatisticsType));
          }
          if changesTesters[newStatisticsType](newStatistics[i].1, prevValue.value) {
            return Ok(true);
          }
          i := i + 1;
        }
        return Ok(false);
    }

    /** `build_new_tree_plan`: the current builder makes the plan, or raises;
        the statistics-changes-aware variant records the snapshot as the
        previous one before building, the invariants-aware variant records the
        invariants returned with a plan. */
    method BuildNewTreePlan(newStatistics: Statistics, pattern: Pattern) returns (r: Result<TreePlan, CepError>)
      modifies this`prevStatistics, this`invariants
      ensures variant != InvariantsAware ==> r == collaborators.buildTreePlan(treePlanBuilder, newStatistics, pattern)
      ensures variant == StatisticsChangesAware ==> prevStatistics == Some(newStatistics)
      ensures variant != StatisticsChangesAware ==> prevStatistics == old(prevStatistics)
      ensures variant == InvariantsAware ==>
        var built := collaborators.buildTreePlanWithInvariants(treePlanBuilder, newStatistics, pattern);
        && (built.Ok? ==> r == Ok(built.value.0) && invariants == Some(built.value.1))
        && (built.Err? ==> r == Err(built.error) && invariants == old(invariants))
      ensures variant != InvariantsAware ==> invariants == old(invariants)
    {
      match variant
      case Trivial =>
        r := collaborators.buildTreePlan(treePlanBuilder, newStatistics, pattern);
      case StatisticsChangesAware =>
        prevStatistics := Some(newStatistics);
        r := collaborators.buildTreePlan(treePlanBuilder, newStatistics, pattern);
      case InvariantsAware =>
        var built :- collaborators.buildTreePlanWithInvariants(treePlanBuilder, newStatistics, pattern);
        invariants := Some(built.1);
        r := Ok(built.0);
    }

    /** `build_initial_tree_plan`: when the pattern carries no statistics the
        plan is built by the trivial left-deep builder, otherwise by the
        optimizer's own builder. The invariants-aware variant builds the
        non-prior plan directly, without recording invariants; the other
        variants swap the non-prior builder in, build a new plan as usual and
        swap their own builder back, so the optimizer's builder is the same
        after a successful call as before it. When that build raises, the swap
        is not undone and the non-prior builder stays installed. An unknown
        default builder kind fails before anything changes. */
    method BuildInitialTreePlan(newStatistics: Statistics, costModelType: CostModelType, pattern: Pattern)
      returns (r: Result<TreePlan, CepError>)
      modifies this`treePlanBuilder, this`prevStatistics, this`invariants
      ensures r.Ok? ==> treePlanBuilder == old(treePlanBuilder)
      ensures var nonPrior := BuildNonPriorTreePlanBuilder(costModelType, pattern, defaultTreePlanBuilder);
        && (nonPrior.Err? ==>
              && r == Err(nonPrior.error) && treePlanBuilder == old(treePlanBuilder)
              && prevStatistics == old(prevStatistics) && invariants == old(invariants))
        && (nonPrior.Ok? && nonPrior.value.Some? ==>
              r == collaborators.buildTreePlan(nonPrior.value.value, newStatistics, pattern))
        && (nonPrior.Ok? && nonPrior.value.Some? && variant == InvariantsAware ==>
              treePlanBuilder == old(treePlanBuilder) && invariants == old(invariants))
        && (nonPrior.Ok? && nonPrior.value.Some? && variant != InvariantsAware && r.Err? ==>
              treePlanBuilder == nonPrior.value.value)
        && (nonPrior.Ok? && nonPrior.value.None? ==> treePlanBuilder == old(treePlanBuilder))
        && (nonPrior.Ok? && nonPrior.value.None? && variant != InvariantsAware ==>
              r == collaborators.buildTreePlan(treePlanBuilder, newStatistics, pattern))
        && (nonPrior.Ok? && nonPrior.value.None? && variant == InvariantsAware ==>
              var built := collaborators.buildTreePlanWithInvariants(treePlanBuilder, newStatistics, pattern);
              && (built.Ok? ==> r == Ok(built.value.0) && invariants == Some(built.value.1))
              && (built.Err? ==> r == Err(built.error) && invariants == old(invariants)))
        && (nonPrior.Ok? && variant == StatisticsChangesAware ==> prevStatistics == Some(newStatistics))
      ensures variant != StatisticsChangesAware ==> prevStatistics == old(prevStatistics)
      ensures variant != InvariantsAware ==> invariants == old(invariants)
    {
      var nonPriorTreePlanBuilder :- BuildNonPriorTreePlanBuilder(costModelType, pattern, defaultTreePlanBuilder);
      if variant == InvariantsAware {
        if nonPriorTreePlanBuilder.Some? {
          return collaborators.buildTreePlan(nonPriorTreePlanBuilder.value, newStatistics, pattern);
        }
        r := BuildNewTreePlan(newStatistics, pattern);
        return;
      }
      var initialTreePlan;
      if nonPriorTreePlanBuilder.Some? {
        var tempTreePlanBuilder := treePlanBuilder;
        treePlanBuilder := nonPriorTreePlanBuilder.value;
        // a raising build leaves the non-prior builder installed
        initialTreePlan :- BuildNewTreePlan(newStatistics, pattern);
        treePlanBuilder := tempTreePlanBuilder;
      } else {
        initialTreePlan :- BuildNewTreePlan(newStatistics, pattern);
      }
      return Ok(initialTreePlan);
    }
  }
}
