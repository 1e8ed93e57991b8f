/** The Kleene-closure node: when its child stores a new partial match, it
    drops the child's expired matches, enumerates every set of the child's
    matches that contains the new one and respects the size bounds, flattens
    each set into one event list, validates it against its condition and
    propagates it. */
module KleeneClosure {
  import opened Wrappers
  import opened Patterns

  type Timestamp = int
  /** An event's payload; opaque to this core. */
  type Payload(==, !new)

  datatype Event = Event(payload: Payload, timestamp: Timestamp)

  datatype PartialMatch = PartialMatch(events: seq<Event>, firstTimestamp: Timestamp, lastTimestamp: Timestamp)

  // ---------------------------------------------------------------------
  // Subsets
  // ---------------------------------------------------------------------

  /** `s` can be obtained from `items` by deleting elements. */
  predicate IsSubsequence<T(==)>(s: seq<T>, items: seq<T>)
    decreases |items|
  {
    s == [] || (items != [] &&
      ((s[0] == items[0] && IsSubsequence(s[1..], items[1..])) || IsSubsequence(s, items[1..])))
  }

  function PrependToEach<T>(x: T, subsets: seq<seq<T>>): (r: seq<seq<T>>)
    ensures |r| == |subsets|
  {
    if subsets == [] then [] else [[x] + subsets[0]] + PrependToEach(x, subsets[1..])
  }

  lemma {:induction false} PrependToEachAt<T>(x: T, subsets: seq<seq<T>>, k: nat)
    requires k < |subsets|
    ensures PrependToEach(x, subsets)[k] == [x] + subsets[k]
  {
    if k > 0 {
      PrependToEachAt(x, subsets[1..], k - 1);
    }
  }

  /** The power-set generator: every subset of `items` (as a subsequence, so
      in the items' order) of size at most `cap`; subsets without the first
      item come before those with it. */
  function Powerset<T>(items: seq<T>, cap: int): (r: seq<seq<T>>)
    decreases |items|
    ensures cap < 0 ==> r == []
    ensures cap >= 0 ==> |r| > 0 && r[0] == []
  {
    if cap < 0 then []
    else if items == [] then [[]]
    else Powerset(items[1..], cap) + PrependToEach(items[0], Powerset(items[1..], cap - 1))
  }

  /** Every generated subset is a subsequence of the items within the cap. */
  lemma {:induction false} PowersetSound<T>(items: seq<T>, cap: int)
    ensures forall s :: s in Powerset(items, cap) ==> |s| <= cap && IsSubsequence(s, items)
    decreases |items|
  {
    if cap >= 0 && items != [] {
      PowersetSound(items[1..], cap);
      PowersetSound(items[1..], cap - 1);
      var without := Powerset(items[1..], cap);
      var with := PrependToEach(items[0], Powerset(items[1..], cap - 1));
      forall s | s in Powerset(items, cap) ensures |s| <= cap && IsSubsequence(s, items) {
        if s in without {
          assert IsSubsequence(s, items[1..]);
        } else {
          var k :| 0 <= k < |with| && with[k] == s;
          PrependToEachAt(items[0], Powerset(items[1..], cap - 1), k);
          assert s[1..] == Powerset(items[1..], cap - 1)[k];
        }
      }
    }
  }

  /** Every subsequence of the items within the cap is generated. */
  lemma {:induction false} PowersetComplete<T>(items: seq<T>, cap: int, s: seq<T>)
    requires IsSubsequence(s, items) && |s| <= cap
    ensures s in Powerset(items, cap)
    decreases |items|
  {
    if items == [] {
      assert s == [];
    } else if s == [] {
      if items[1..] == [] {
        assert Powerset(items[1..], cap) == [[]];
      } else {
        assert IsSubsequence(s, items[1..]);
        PowersetComplete(items[1..], cap, s);
      }
    } else if s[0] == items[0] && IsSubsequence(s[1..], items[1..]) {
      PowersetComplete(items[1..], cap - 1, s[1..]);
      var rest := Powerset(items[1..], cap - 1);
      var k :| 0 <= k < |rest| && rest[k] == s[1..];
      PrependToEachAt(items[0], rest, k);
      assert PrependToEach(items[0], rest)[k] == s;
    } else {
      PowersetComplete(items[1..], cap, s);
    }
  }

  function Pow2(n: nat): nat {
    if n == 0 then 1 else 2 * Pow2(n - 1)
  }

  /** Uncapped, the generator yields 2^n subsets: one per choice of positions. */
  lemma {:induction false} PowersetCountUncapped<T>(items: seq<T>, cap: int)
    requires cap >= |items|
    ensures |Powerset(items, cap)| == Pow2(|items|)
    decreases |items|
  {
    if items != [] {
      PowersetCountUncapped(items[1..], cap);
      PowersetCountUncapped(items[1..], cap - 1);
    }
  }

  // ---------------------------------------------------------------------
  // The sets containing the new partial match
  // ---------------------------------------------------------------------

  function AppendToEach<T>(subsets: seq<seq<T>>, x: T): (r: seq<seq<T>>)
    ensures |r| == |subsets|
  {
    if subsets == [] then [] else [subsets[0] + [x]] + AppendToEach(subsets[1..], x)
  }

  lemma {:induction false} AppendToEachAt<T>(subsets: seq<seq<T>>, x: T, k: nat)
    requires k < |subsets|
    ensures AppendToEach(subsets, x)[k] == subsets[k] + [x]
  {
    if k > 0 {
      AppendToEachAt(subsets[1..], x, k - 1);
    }
  }

  function KeepAtLeast<T>(subsets: seq<seq<T>>, minSize: int): (r: seq<seq<T>>)
    ensures |r| <= |subsets|
  {
    if subsets == [] then []
    else (if minSize <= |subsets[0]| then [subsets[0]] else []) + KeepAtLeast(subsets[1..], minSize)
  }

  /** The filter keeps exactly the subsets of at least the minimal size. */
  lemma {:induction false} KeepAtLeastMembers<T>(subsets: seq<seq<T>>, minSize: int, s: seq<T>)
    ensures s in KeepAtLeast(subsets, minSize) <==> s in subsets && minSize <= |s|
  {
    if subsets != [] {
      KeepAtLeastMembers(subsets[1..], minSize, s);
      assert subsets == [subsets[0]] + subsets[1..];
    }
  }

  /** The size bound the generator works with: `max_size`, or the number of
      stored matches when there is none. */
  function ActualMaxSize(childMatches: seq<PartialMatch>, maxSize: Option<int>): int {
    if maxSize.Some? then maxSize.value else |childMatches|
  }

  /** `__create_child_matches_powerset`: subsets of all but the last stored
      match, capped at the maximal size minus one, each extended with the last
      match, then filtered by the minimal size. */
  function ChildMatchesPowerset(childMatches: seq<PartialMatch>, minSize: int, maxSize: Option<int>)
    : (r: seq<seq<PartialMatch>>)
    ensures |childMatches| == 0 ==> r == []
  {
    if |childMatches| == 0 then []
    else
      var lastPartialMatch := childMatches[|childMatches| - 1];
      var generated := Powerset(childMatches[..|childMatches| - 1], ActualMaxSize(childMatches, maxSize) - 1);
      KeepAtLeast(AppendToEach(generated, lastPartialMatch), minSize)
  }

  /** Every generated set ends with the last stored match (the one that
      triggered the call), lies within both size bounds, and otherwise holds
      earlier stored matches in their stored order; no store, no sets. */
  lemma ChildMatchesPowersetSound(childMatches: seq<PartialMatch>, minSize: int, maxSize: Option<int>)
    ensures |childMatches| == 0 ==> ChildMatchesPowerset(childMatches, minSize, maxSize) == []
    ensures forall s :: s in ChildMatchesPowerset(childMatches, minSize, maxSize) ==>
      && |childMatches| > 0 && |s| > 0
      && s[|s| - 1] == childMatches[|childMatches| - 1]
      && minSize <= |s| <= ActualMaxSize(childMatches, maxSize)
      && IsSubsequence(s[..|s| - 1], childMatches[..|childMatches| - 1])
  {
    if |childMatches| > 0 {
      var prefix := childMatches[..|childMatches| - 1];
      var cap := ActualMaxSize(childMatches, maxSize) - 1;
      var last := childMatches[|childMatches| - 1];
      var generated := Powerset(prefix, cap);
      assert ChildMatchesPowerset(childMatches, minSize, maxSize) == KeepAtLeast(AppendToEach(generated, last), minSize);
      PowersetSound(prefix, cap);
      forall s | s in KeepAtLeast(AppendToEach(generated, last), minSize)
        ensures |s| > 0 && s[|s| - 1] == last
        ensures minSize <= |s| <= cap + 1 && IsSubsequence(s[..|s| - 1], prefix)
      {
        AppendedMember(generated, last, minSize, s);
      }
    }
  }

  lemma AppendedMember<T>(generated: seq<seq<T>>, x: T, minSize: int, s: seq<T>)
    requires s in KeepAtLeast(AppendToEach(generated, x), minSize)
    ensures minSize <= |s| && |s| > 0 && s[|s| - 1] == x && s[..|s| - 1] in generated
  {
    var appended := AppendToEach(generated, x);
    KeepAtLeastMembers(appended, minSize, s);
    var k :| 0 <= k < |appended| && appended[k] == s;
    AppendToEachAt(generated, x, k);
    assert s[..|s| - 1] == generated[k];
  }

  /** Every set of stored matches that contains the last one after earlier
      ones in stored order, and lies within both size bounds, is generated. */
  lemma ChildMatchesPowersetComplete(childMatches: seq<PartialMatch>, minSize: int, maxSize: Option<int>,
                                      s: seq<PartialMatch>)
    requires |childMatches| > 0
    requires IsSubsequence(s, childMatches[..|childMatches| - 1])
    requires minSize <= |s| + 1 <= ActualMaxSize(childMatches, maxSize)
    ensures s + [childMatches[|childMatches| - 1]] in ChildMatchesPowerset(childMatches, minSize, maxSize)
  {
    ChildMatchesPowersetUnfold(childMatches, minSize, maxSize);
    ExtendedSubsetGenerated(childMatches[..|childMatches| - 1], ActualMaxSize(childMatches, maxSize) - 1,
                            childMatches[|childMatches| - 1], minSize, s,
                            ChildMatchesPowerset(childMatches, minSize, maxSize));
  }

  lemma ExtendedSubsetGenerated<T>(prefix: seq<T>, cap: int, x: T, minSize: int, s: seq<T>, sets: seq<seq<T>>)
    requires IsSubsequence(s, prefix) && minSize <= |s| + 1 <= cap + 1
    requires sets == KeepAtLeast(AppendToEach(Powerset(prefix, cap), x), minSize)
    ensures s + [x] in sets
  {
    PowersetComplete(prefix, cap, s);
    AppendedIn(Powerset(prefix, cap), sets, x, minSize, s);
  }

  lemma ChildMatchesPowersetUnfold(childMatches: seq<PartialMatch>, minSize: int, maxSize: Option<int>)
    requires |childMatches| > 0
    ensures ChildMatchesPowerset(childMatches, minSize, maxSize)
         == KeepAtLeast(AppendToEach(Powerset(childMatches[..|childMatches| - 1],
                                              ActualMaxSize(childMatches, maxSize) - 1),
                                     childMatches[|childMatches| - 1]), minSize)
  {
  }

  lemma AppendedIn<T>(generated: seq<seq<T>>, sets: seq<seq<T>>, x: T, minSize: int, s: seq<T>)
    requires s in generated && minSize <= |s| + 1
    requires sets == KeepAtLeast(AppendToEach(generated, x), minSize)
    ensures s + [x] in sets
  {
    var k :| 0 <= k < |generated| && generated[k] == s;
    AppendToEachAt(generated, x, k);
    KeepAtLeastMembers(AppendToEach(generated, x), minSize, s + [x]);
  }

  lemma PrependToEachOne<T>(x: T, u: seq<T>)
    ensures PrependToEach(x, [u]) == [[x] + u]
  {
    PrependToEachAt(x, [u], 0);
  }

  lemma PrependToEachTwo<T>(x: T, u: seq<T>, v: seq<T>)
    ensures PrependToEach(x, [u, v]) == [[x] + u, [x] + v]
  {
    PrependToEachAt(x, [u, v], 0);
    PrependToEachAt(x, [u, v], 1);
  }

  lemma PowersetOfOne<T>(x: T, cap: int)
    requires cap >= 0
    ensures Powerset([x], cap) == if cap == 0 then [[]] else [[], [x]]
  {
    assert [x][1..] == [];
    assert Powerset([x], cap) == Powerset([], cap) + PrependToEach(x, Powerset([], cap - 1));
    assert Powerset<T>([], cap) == [[]];
    if cap == 0 {
      assert Powerset<T>([], cap - 1) == [];
      assert PrependToEach<T>(x, []) == [];
    } else {
      assert Powerset<T>([], cap - 1) == [[]];
      PrependToEachOne(x, []);
      assert [x] + [] == [x];
    }
  }

  lemma PowersetOfTwo<T>(x: T, y: T, cap: int)
    requires cap >= 1
    ensures Powerset([x, y], cap) == if cap == 1 then [[], [y], [x]] else [[], [y], [x], [x, y]]
  {
    assert [x, y][1..] == [y];
    assert Powerset([x, y], cap) == Powerset([y], cap) + PrependToEach(x, Powerset([y], cap - 1));
    PowersetOfOne(y, cap);
    PowersetOfOne(y, cap - 1);
    assert [x] + [] == [x] && [x] + [y] == [x, y];
    if cap == 1 {
      PrependToEachOne(x, []);
    } else {
      PrependToEachTwo(x, [], [y]);
    }
  }

  /** The example of three stored matches with sizes between one and two:
      exactly {m3}, {m2, m3} and {m1, m3} come out. */
  lemma ThreeMatchesExample(m1: PartialMatch, m2: PartialMatch, m3: PartialMatch)
    ensures ChildMatchesPowerset([m1, m2, m3], 1, Some(2)) == [[m3], [m2, m3], [m1, m3]]
  {
    ChildMatchesPowersetUnfold([m1, m2, m3], 1, Some(2));
    assert [m1, m2, m3][..2] == [m1, m2];
    PowersetOfTwo(m1, m2, 1);
    AppendToEachThree([], [m2], [m1], m3);
    assert [] + [m3] == [m3] && [m2] + [m3] == [m2, m3] && [m1] + [m3] == [m1, m3];
    assert AppendToEach(Powerset([m1, m2], 1), m3) == [[m3], [m2, m3], [m1, m3]];
    KeepAtLeastAll([[m3], [m2, m3], [m1, m3]], 1);
  }

  lemma AppendToEachThree<T>(u: seq<T>, v: seq<T>, w: seq<T>, x: T)
    ensures AppendToEach([u, v, w], x) == [u + [x], v + [x], w + [x]]
  {
    AppendToEachAt([u, v, w], x, 0);
    AppendToEachAt([u, v, w], x, 1);
    AppendToEachAt([u, v, w], x, 2);
  }

  /** When every subset is large enough, the filter changes nothing. */
  lemma {:induction false} KeepAtLeastAll<T>(subsets: seq<seq<T>>, minSize: int)
    requires forall k :: 0 <= k < |subsets| ==> minSize <= |subsets[k]|
    ensures KeepAtLeast(subsets, minSize) == subsets
  {
    if subsets != [] {
      KeepAtLeastAll(subsets[1..], minSize);
      assert subsets == [subsets[0]] + subsets[1..];
    }
  }

  // ---------------------------------------------------------------------
  // Flattening and validation
  // ---------------------------------------------------------------------

  /** The events of the matches, match after match, each in its own order. */
  function Flatten(partialMatchSet: seq<PartialMatch>): seq<Event> {
    if partialMatchSet == [] then []
    else Flatten(partialMatchSet[..|partialMatchSet| - 1]) + partialMatchSet[|partialMatchSet| - 1].events
  }

  function EventCount(partialMatchSet: seq<PartialMatch>): nat {
    if partialMatchSet == [] then 0 else |partialMatchSet[0].events| + EventCount(partialMatchSet[1..])
  }

  /** Flattening a concatenation concatenates the flattenings. */
  lemma {:induction false} FlattenAppend(a: seq<PartialMatch>, b: seq<PartialMatch>)
    ensures Flatten(a + b) == Flatten(a) + Flatten(b)
    decreases |b|
  {
    if b != [] {
      var ab := a + b;
      var init := b[..|b| - 1];
      assert ab[..|ab| - 1] == a + init;
      assert ab[|ab| - 1] == b[|b| - 1];
      FlattenAppend(a, init);
      calc {
        Flatten(ab);
        Flatten(a + init) + b[|b| - 1].events;
        Flatten(a) + Flatten(init) + b[|b| - 1].events;
        Flatten(a) + (Flatten(init) + b[|b| - 1].events);
        Flatten(a) + Flatten(b);
      }
    } else {
      assert a + b == a;
    }
  }

  /** The flattened list holds as many events as the matches together, and an
      event is in it exactly when it is in one of the matches. */
  lemma {:induction false} FlattenContents(partialMatchSet: seq<PartialMatch>)
    ensures |Flatten(partialMatchSet)| == EventCount(partialMatchSet)
    ensures forall e :: e in Flatten(partialMatchSet) <==>
      exists k :: 0 <= k < |partialMatchSet| && e in partialMatchSet[k].events
  {
    if partialMatchSet != [] {
      var rest := partialMatchSet[1..];
      FlattenContents(rest);
      FlattenAppend([partialMatchSet[0]], rest);
      assert [partialMatchSet[0]][..0] == [];
      assert partialMatchSet == [partialMatchSet[0]] + rest;
      assert Flatten([partialMatchSet[0]]) == partialMatchSet[0].events;
      forall e | e in Flatten(partialMatchSet)
        ensures exists k :: 0 <= k < |partialMatchSet| && e in partialMatchSet[k].events
      {
        if e !in partialMatchSet[0].events {
          var k :| 0 <= k < |rest| && e in rest[k].events;
          assert partialMatchSet[k + 1] == rest[k];
        }
      }
      forall e, k | 0 <= k < |partialMatchSet| && e in partialMatchSet[k].events
        ensures e in Flatten(partialMatchSet)
      {
        if k > 0 {
          assert rest[k - 1] == partialMatchSet[k];
        }
      }
    }
  }

  /** `__partial_match_set_to_event_list`: extends one list with each match's
      events; the span's minimum and maximum timestamps are accumulated on the
      way but not returned. */
  method PartialMatchSetToEventList(partialMatchSet: seq<PartialMatch>) returns (events: seq<Event>)
    ensures events == Flatten(partialMatchSet)
  {
    var minTimestamp: Option<Timestamp> := None;
    var maxTimestamp: Option<Timestamp> := None;
    events := [];
    for i := 0 to |partialMatchSet|
      invariant events == Flatten(partialMatchSet[..i])
      invariant minTimestamp.None? <==> i == 0
      invariant maxTimestamp.None? <==> i == 0
      invariant minTimestamp.Some? ==>
        && (forall k :: 0 <= k < i ==> minTimestamp.value <= partialMatchSet[k].firstTimestamp)
        && (exists k :: 0 <= k < i && minTimestamp.value == partialMatchSet[k].firstTimestamp)
      invariant maxTimestamp.Some? ==>
        && (forall k :: 0 <= k < i ==> partialMatchSet[k].lastTimestamp <= maxTimestamp.value)
        && (exists k :: 0 <= k < i && maxTimestamp.value == partialMatchSet[k].lastTimestamp)
    {
      var m := partialMatchSet[i];
      minTimestamp := if minTimestamp.None? then Some(m.firstTimestamp)
                      else Some(if m.firstTimestamp < minTimestamp.value then m.firstTimestamp else minTimestamp.value);
      maxTimestamp := if maxTimestamp.None? then Some(m.lastTimestamp)
                      else Some(if m.lastTimestamp > maxTimestamp.value then m.lastTimestamp else maxTimestamp.value);
      events := events + m.events;
      assert partialMatchSet[..i + 1][..i] == partialMatchSet[..i];
    }
    assert partialMatchSet[..|partialMatchSet|] == partialMatchSet;
  }

  /** The payloads of the events, in event order. */
  function Payloads(events: seq<Event>): (payloads: seq<Payload>)
    ensures |payloads| == |events|
    ensures forall k :: 0 <= k < |events| ==> payloads[k] == events[k].payload
  {
    if events == [] then [] else [events[0].payload] + Payloads(events[1..])
  }

  /** The event lists that validation lets through, for the given sets, in
      order. */
  function Propagated(sets: seq<seq<PartialMatch>>, evalCondition: (Formula, seq<Payload>) -> bool,
                      condition: Formula): seq<seq<Event>>
  {
    if sets == [] then []
    else
      var events := Flatten(sets[|sets| - 1]);
      Propagated(sets[..|sets| - 1], evalCondition, condition)
      + (if evalCondition(condition, Payloads(events)) then [events] else [])
  }

  /** An event list is propagated exactly when it flattens one of the sets
      and satisfies the condition; at most one list per set. */
  lemma {:induction false} PropagatedContents(sets: seq<seq<PartialMatch>>,
                                              evalCondition: (Formula, seq<Payload>) -> bool, condition: Formula)
    ensures |Propagated(sets, evalCondition, condition)| <= |sets|
    ensures forall events :: events in Propagated(sets, evalCondition, condition) <==>
      (exists k :: 0 <= k < |sets| && Flatten(sets[k]) == events) && evalCondition(condition, Payloads(events))
  {
    if sets != [] {
      var init := sets[..|sets| - 1];
      PropagatedContents(init, evalCondition, condition);
      forall events ensures events in Propagated(sets, evalCondition, condition) <==>
        (exists k :: 0 <= k < |sets| && Flatten(sets[k]) == events) && evalCondition(condition, Payloads(events))
      {
        if exists k :: 0 <= k < |sets| && Flatten(sets[k]) == events {
          var k :| 0 <= k < |sets| && Flatten(sets[k]) == events;
          if k < |init| {
            assert init[k] == sets[k];
          }
        }
        if exists k :: 0 <= k < |init| && Flatten(init[k]) == events {
          var k :| 0 <= k < |init| && Flatten(init[k]) == events;
          assert sets[k] == init[k];
        }
      }
    }
  }

  /** The child's storage after `clean_expired_partial_matches(timestamp)`:
      the matches the expiry rule does not reject, in stored order. */
  function CleanExpired(childMatches: seq<PartialMatch>, isExpired: (PartialMatch, Timestamp) -> bool,
                        timestamp: Timestamp): (kept: seq<PartialMatch>)
    ensures |kept| <= |childMatches|
  {
    if childMatches == [] then []
    else if isExpired(childMatches[0], timestamp) then CleanExpired(childMatches[1..], isExpired, timestamp)
    else [childMatches[0]] + CleanExpired(childMatches[1..], isExpired, timestamp)
  }

  /** Cleaning keeps the stored order and exactly the matches the rule does
      not reject. */
  lemma {:induction false} CleanExpiredContents(childMatches: seq<PartialMatch>,
                                                isExpired: (PartialMatch, Timestamp) -> bool, timestamp: Timestamp)
    ensures IsSubsequence(CleanExpired(childMatches, isExpired, timestamp), childMatches)
    ensures forall m :: m in CleanExpired(childMatches, isExpired, timestamp) <==>
      m in childMatches && !isExpired(m, timestamp)
  {
    if childMatches != [] {
      var rest := childMatches[1..];
      CleanExpiredContents(rest, isExpired, timestamp);
      assert childMatches == [childMatches[0]] + rest;
      var kept := CleanExpired(childMatches, isExpired, timestamp);
      if !isExpired(childMatches[0], timestamp) {
        assert kept[1..] == CleanExpired(rest, isExpired, timestamp);
      }
    }
  }

  /** When no stored match has expired, cleaning changes nothing. */
  lemma {:induction false} CleanExpiredNoneExpired(childMatches: seq<PartialMatch>,
                                                   isExpired: (PartialMatch, Timestamp) -> bool, timestamp: Timestamp)
    requires forall k :: 0 <= k < |childMatches| ==> !isExpired(childMatches[k], timestamp)
    ensures CleanExpired(childMatches, isExpired, timestamp) == childMatches
  {
    if childMatches != [] {
      CleanExpiredNoneExpired(childMatches[1..], isExpired, timestamp);
      assert childMatches == [childMatches[0]] + childMatches[1..];
    }
  }

  /** The expiry rule of a sliding window: a match has expired once its last
      event is older than the window before the new match's last event. */
  function WindowExpiry(window: int): (PartialMatch, Timestamp) -> bool {
    (m: PartialMatch, timestamp: Timestamp) => m.lastTimestamp < timestamp - window
  }

  function SingleEventMatch(p: Payload, t: Timestamp): PartialMatch {
    PartialMatch([Event(p, t)], t, t)
  }

  // A closure over one event type with at least two events and a window
  // of 10 over events at 0, 3, 9 and 15: the arrival at 9 yields
  // {3, 9}, {0, 9}, {0, 3, 9}; the arrival at 15 first evicts the events at
  // 0 and 3 and then yields only {9, 15}.

  /** The window scenario's cleaning steps: at 9 nothing has expired; at 15
      the matches at 0 and 3 have. */
  lemma WindowCleaning(p: Payload)
    ensures var m0, m3, m9, m15 := SingleEventMatch(p, 0), SingleEventMatch(p, 3),
                                   SingleEventMatch(p, 9), SingleEventMatch(p, 15);
      && CleanExpired([m0, m3, m9], WindowExpiry(10), 9) == [m0, m3, m9]
      && CleanExpired([m0, m3, m9, m15], WindowExpiry(10), 15) == [m9, m15]
  {
    var m0, m3, m9, m15 := SingleEventMatch(p, 0), SingleEventMatch(p, 3),
                           SingleEventMatch(p, 9), SingleEventMatch(p, 15);
    CleanExpiredNoneExpired([m0, m3, m9], WindowExpiry(10), 9);
    assert [m0, m3, m9, m15][1..] == [m3, m9, m15];
    assert [m3, m9, m15][1..] == [m9, m15];
    CleanExpiredNoneExpired([m9, m15], WindowExpiry(10), 15);
  }

  /** The window scenario's generation step after the arrival at 9: the sets
      of at least two are {3, 9}, {0, 9} and {0, 3, 9}. */
  lemma WindowPowersetAt9(m0: PartialMatch, m3: PartialMatch, m9: PartialMatch)
    ensures ChildMatchesPowerset([m0, m3, m9], 2, None) == [[m3, m9], [m0, m9], [m0, m3, m9]]
  {
    ChildMatchesPowersetUnfold([m0, m3, m9], 2, None);
    assert [m0, m3, m9][..2] == [m0, m3];
    PowersetOfTwo(m0, m3, 2);
    var generated: seq<seq<PartialMatch>> := [[], [m3], [m0], [m0, m3]];
    assert generated[1..] == [[m3], [m0], [m0, m3]];
    var appended := AppendToEach(generated, m9);
    AppendToEachThree([m3], [m0], [m0, m3], m9);
    assert [m3] + [m9] == [m3, m9] && [m0] + [m9] == [m0, m9] && [m0, m3] + [m9] == [m0, m3, m9];
    assert appended == [[] + [m9]] + AppendToEach([[m3], [m0], [m0, m3]], m9);
    assert appended[0] == [m9] && appended[1..] == [[m3, m9], [m0, m9], [m0, m3, m9]];
    KeepAtLeastAll([[m3, m9], [m0, m9], [m0, m3, m9]], 2);
  }

  /** The window scenario's generation step after the arrival at 15: with
      only 9 and 15 left, the one set {9, 15}. */
  lemma WindowPowersetAt15(m9: PartialMatch, m15: PartialMatch)
    ensures ChildMatchesPowerset([m9, m15], 2, None) == [[m9, m15]]
  {
    ChildMatchesPowersetUnfold([m9, m15], 2, None);
    assert [m9, m15][..1] == [m9];
    PowersetOfOne(m9, 1);
    AppendToEachAt([[], [m9]], m15, 0);
    AppendToEachAt([[], [m9]], m15, 1);
    var appended2 := AppendToEach([[], [m9]], m15);
    assert [] + [m15] == [m15] && [m9] + [m15] == [m9, m15];
    assert appended2 == [[m15], [m9, m15]];
    assert appended2[1..] == [[m9, m15]];
    KeepAtLeastAll([[m9, m15]], 2);
  }

  // ---------------------------------------------------------------------
  // The node
  // ---------------------------------------------------------------------

  /** A Kleene-closure node. Its sole child's partial-match storage is held
      here as `childMatches` (None while no child is attached); `propagated`
      lists the event lists it has validated and propagated upward. The
      child's expiry rule and the evaluation of formulas are supplied when the
      node is created. */
  class KleeneClosureNode {
    const minSize: int
    const maxSize: Option<int>
    const isExpired: (PartialMatch, Timestamp) -> bool
    const evalCondition: (Formula, seq<Payload>) -> bool
    var condition: Formula
    var childMatches: Option<seq<PartialMatch>>
    var propagated: seq<seq<Event>>

    constructor (minSize: int, maxSize: Option<int>, isExpired: (PartialMatch, Timestamp) -> bool,
                 evalCondition: (Formula, seq<Payload>) -> bool)
      ensures this.minSize == minSize && this.maxSize == maxSize
      ensures this.isExpired == isExpired && this.evalCondition == evalCondition
      ensures condition == Formula([]) && childMatches == None && propagated == []
    {
      this.minSize := minSize;
      this.maxSize := maxSize;
      this.isExpired := isExpired;
      this.evalCondition := evalCondition;
      condition := Formula([]);
      childMatches := None;
      propagated := [];
    }

    /** `_validate_new_match`: the condition, evaluated on the events'
        payloads in order. */
    predicate ValidateNewMatch(eventsForNewMatch: seq<Event>): (valid: bool)
      reads this
      ensures valid <==> evalCondition(condition, seq(|eventsForNewMatch|, k requires 0 <= k < |eventsForNewMatch| =>
                                                         eventsForNewMatch[k].payload))
    {
      var payloads := Payloads(eventsForNewMatch);
      assert payloads == seq(|eventsForNewMatch|, k requires 0 <= k < |eventsForNewMatch| =>
                               eventsForNewMatch[k].payload);
      evalCondition(condition, payloads)
    }

    /** Validates a candidate and, if it passes, propagates it. */
    method ValidateAndPropagatePartialMatch(eventsForNewMatch: seq<Event>)
      modifies this`propagated
      ensures propagated == old(propagated) + (if ValidateNewMatch(eventsForNewMatch) then [eventsForNewMatch] else [])
    {
      if ValidateNewMatch(eventsForNewMatch) {
        propagated := propagated + [eventsForNewMatch];
      }
    }

    /** `handle_new_partial_match`: fails when no child is attached;
        otherwise cleans the child's expired matches relative to the new
        match's last timestamp, then validates and propagates the flattening
        of every generated set once, in generation order. The new match is
        the last one in the child's storage. */
    method HandleNewPartialMatch() returns (outcome: Result<(), CepError>)
      requires childMatches.Some? ==> |childMatches.value| > 0
      modifies this`childMatches, this`propagated
      ensures old(childMatches).None? ==>
        outcome == Err(NoChildAttached) && childMatches == old(childMatches) && propagated == old(propagated)
      ensures old(childMatches).Some? ==> outcome.Ok?
      ensures old(childMatches).Some? ==>
        var store := old(childMatches).value;
        var cleaned := CleanExpired(store, isExpired, store[|store| - 1].lastTimestamp);
        && childMatches == Some(cleaned)
        && propagated == old(propagated)
                         + Propagated(ChildMatchesPowerset(cleaned, minSize, maxSize), evalCondition, condition)
    {
      if childMatches.None? {
        return Err(NoChildAttached);
      }
      var store := childMatches.value;
      var newPartialMatch := store[|store| - 1];
      var cleaned := CleanExpired(store, isExpired, newPartialMatch.lastTimestamp);
      childMatches := Some(cleaned);
      var childMatchesPowerset := ChildMatchesPowerset(cleaned, minSize, maxSize);
      for i := 0 to |childMatchesPowerset|
        invariant childMatches == Some(cleaned)
        invariant propagated == old(propagated) + Propagated(childMatchesPowerset[..i], evalCondition, condition)
      {
        var eventsForPartialMatch := PartialMatchSetToEventList(childMatchesPowerset[i]);
        ValidateAndPropagatePartialMatch(eventsForPartialMatch);
        assert childMatchesPowerset[..i + 1][..i] == childMatchesPowerset[..i];
      }
      assert childMatchesPowerset[..|childMatchesPowerset|] == childMatchesPowerset;
      return Ok(());
    }

    /** `apply_formula`: keeps as this node's condition the sub-formula over
        exactly the node's event names, and hands back the formula with that
        sub-formula consumed. */
    method ApplyFormula(formula: Formula, names: set<EventName>) returns (remaining: Formula)
      modifies this`condition
      ensures condition == GetFormulaOf(formula, names)
      ensures remaining == ConsumeFormulaOf(formula, names)
      ensures forall c :: c in condition.conditions ==> c.names == names
      ensures forall c :: c in remaining.conditions ==> c.names != names
      ensures multiset(condition.conditions) + multiset(remaining.conditions) == multiset(formula.conditions)
    {
      condition := GetFormulaOf(formula, names);
      remaining := ConsumeFormulaOf(formula, names);
      ExtractConsumePartition(formula.conditions, names);
    }
  }
}
