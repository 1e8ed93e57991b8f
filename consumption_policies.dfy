/** The consumption-policy records: which event types must be single, which
    names must be contiguous, and the skip point. The only logic is the
    normalisation of the `contiguous` shorthand: a plain list of names stands
    for one group. */
module Consumption {
  import opened Wrappers
  import opened Patterns

  datatype Mechanism = Type1 | Type2

  datatype SingleTypes = SingleTypes(singleTypes: Option<set<EventName>>, mechanism: Mechanism)

  /** An element of the `contiguous` argument: the source accepts both a list
      of names and a list of lists of names, so an element is either. */
  datatype ContiguousEntry =
    | NameEntry(name: EventName)
    | GroupEntry(group: seq<ContiguousEntry>)

  datatype ConsumptionPolicies = ConsumptionPolicies(
    single: Option<SingleTypes>,
    contiguous: Option<seq<ContiguousEntry>>,
    skip: Option<EventName>)

  /** `SingleTypes(single_types=None, mechanism=type1)`. */
  function NewSingleTypes(singleTypes: Option<set<EventName>> := None, mechanism: Mechanism := Type1)
    : (s: SingleTypes)
    ensures s.singleTypes == singleTypes && s.mechanism == mechanism
  {
    SingleTypes(singleTypes, mechanism)
  }

  /** The shorthand test: a non-empty list whose first element is a name. */
  predicate IsNameShorthand(contiguous: Option<seq<ContiguousEntry>>) {
    contiguous.Some? && |contiguous.value| > 0 && contiguous.value[0].NameEntry?
  }

  function NormalizeContiguous(contiguous: Option<seq<ContiguousEntry>>): Option<seq<ContiguousEntry>> {
    if IsNameShorthand(contiguous) then Some([GroupEntry(contiguous.value)]) else contiguous
  }

  /** `ConsumptionPolicies(single, contiguous, skip)`: `single` and `skip` are
      stored as given; a name list given for `contiguous` is stored as the
      only group, anything else (None, an empty list, a list of groups) as
      given. */
  function NewConsumptionPolicies(
    single: Option<SingleTypes> := None,
    contiguous: Option<seq<ContiguousEntry>> := None,
    skip: Option<EventName> := None)
    : (p: ConsumptionPolicies)
    ensures p.single == single && p.skip == skip
    ensures IsNameShorthand(contiguous) ==> p.contiguous == Some([GroupEntry(contiguous.value)])
    ensures !IsNameShorthand(contiguous) ==> p.contiguous == contiguous
    ensures p.contiguous.None? <==> contiguous.None?
    ensures NormalizeContiguous(p.contiguous) == p.contiguous
  {
    ConsumptionPolicies(single, NormalizeContiguous(contiguous), skip)
  }

  /** A list of names, the shorthand form. */
  predicate AllNames(entries: seq<ContiguousEntry>) {
    forall k :: 0 <= k < |entries| ==> entries[k].NameEntry?
  }

  /** A list of groups of names, the normal form. */
  predicate AllGroupsOfNames(entries: seq<ContiguousEntry>) {
    forall k :: 0 <= k < |entries| ==> entries[k].GroupEntry? && AllNames(entries[k].group)
  }

  /** The names mentioned, in order, groups flattened. */
  function MentionedNames(entries: seq<ContiguousEntry>): seq<EventName>
    decreases entries
  {
    if entries == [] then []
    else
      (match entries[0]
       case NameEntry(n) => [n]
       case GroupEntry(g) => MentionedNames(g))
      + MentionedNames(entries[1..])
  }

  /** Either well-formed input (a list of names or a list of groups of
      names) comes out as a list of groups of names, mentioning the same
      names in the same order. */
  lemma NormalizedIsGroupsOfNames(entries: seq<ContiguousEntry>)
    requires (|entries| > 0 && AllNames(entries)) || AllGroupsOfNames(entries)
    ensures var n := NewConsumptionPolicies(contiguous := Some(entries)).contiguous;
      n.Some? && AllGroupsOfNames(n.value) && MentionedNames(n.value) == MentionedNames(entries)
  {
    if |entries| > 0 && entries[0].NameEntry? {
      assert MentionedNames([GroupEntry(entries)]) == MentionedNames(entries) + MentionedNames([]);
    }
  }
}
