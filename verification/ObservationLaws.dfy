/** What one observation change says, on the rows of the two runs. */
module ObservationLaws {
  import opened Ordered
  import opened Records
  import opened Buckets
  import opened Aggregation
  import opened Sampling
  import opened Comparison

  /** A row of one file or exec fact. */
  predicate RowOf(e: Event, key: Key) {
    (e.kind == "file" || e.kind == "exec") && e.kind == key.kind && e.operation == key.operation && e.path == Some(key.path)
  }

  /** The explicit format looks at no row of a run whose finalization is missing. */
  predicate LookedAt(run: Run, format: Format) { format == OutcomeV6 ==> run.storage != "unfinalized" }

  ghost predicate Shown(run: Run, format: Format, key: Key, outcome: string) {
    LookedAt(run, format) && exists i :: 0 <= i < |run.events| && RowOf(run.events[i], key) && run.events[i].outcome == outcome
  }

  function RowCount(events: seq<Event>, key: Key): nat {
    if events == [] then 0
    else RowCount(events[..|events| - 1], key) + (if RowOf(events[|events| - 1], key) then 1 else 0)
  }

  /** One side of a change: its outcomes in order, and at most three rows of the key to look at. */
  ghost predicate SideShown(run: Run, format: Format, key: Key, outcomes: seq<string>, samples: seq<nat>) {
    && Ascending(outcomes, LexLess)
    && (forall o :: o in outcomes <==> Shown(run, format, key, o))
    && |samples| <= 3 && (outcomes != [] ==> samples != [])
    && (forall i :: i in samples ==> i < |run.events| && RowOf(run.events[i], key))
  }

  /** The explicit side: every row of the key counted, the samples repeated, the rest counted as omitted. */
  ghost predicate MappingShown(run: Run, key: Key, samples: seq<nat>, mapping: SideMapping) {
    if run.storage == "unfinalized" then mapping == SideMapping(WithheldEvents, None, [], 0, None, [])
    else
      && mapping.source == NormalizedEvents && mapping.samples == samples && mapping.sampleCount == |samples|
      && mapping.eventCount == Some(RowCount(run.events, key))
      && mapping.omitted == Some(RowCount(run.events, key) - |samples|) && |samples| <= RowCount(run.events, key)
  }

  // ---------- outcomes and samples ----------

  lemma SawIsShown(run: Run, format: Format, key: Key, outcome: string)
    ensures Saw(run, format, key, outcome) <==> Shown(run, format, key, outcome)
  {
    if Saw(run, format, key, outcome) {
      var i :| 0 <= i < |run.events| && Supports(run.events[i], key) && run.events[i].outcome == outcome;
      assert RowOf(run.events[i], key);
    }
    if Shown(run, format, key, outcome) {
      var i :| 0 <= i < |run.events| && RowOf(run.events[i], key) && run.events[i].outcome == outcome;
      assert Supports(run.events[i], key);
    }
  }

  lemma HeldRow(run: Run, format: Format, key: Key, o: string, i: nat)
    requires o in Held(run, format, key) && i in Held(run, format, key)[o]
    ensures i < |run.events| && RowOf(run.events[i], key)
  {
    IndicesMeaning(run.events, |run.events|, key, o);
    hide IndicesOf;
  }

  lemma SideOutcomes(run: Run, format: Format, key: Key)
    ensures var keys := OutcomeOrder(Held(run, format, key));
            Ascending(keys, LexLess) && forall o :: o in keys <==> Shown(run, format, key, o)
  {
    hide Shown;
    hide Saw;
    hide LexLess;
    hide Ascending;
    forall o ensures Saw(run, format, key, o) <==> Shown(run, format, key, o) { SawIsShown(run, format, key, o); }
  }

  lemma SideOnRows(run: Run, format: Format, key: Key, other: Run)
    ensures SideShown(run, format, key, OutcomeOrder(Held(run, format, key)), SideSamples(run, format, key, other))
  {
    var keys, samples := OutcomeOrder(Held(run, format, key)), SideSamples(run, format, key, other);
    SideOutcomes(run, format, key);
    SideSamplesBounded(run, format, key, other);
    hide *;
    forall i | i in samples ensures i < |run.events| && RowOf(run.events[i], key) {
      SampleRow(run, format, key, other, i);
    }
    SideFrom(run, format, key, keys, samples);
  }

  lemma SideFrom(run: Run, format: Format, key: Key, outcomes: seq<string>, samples: seq<nat>)
    requires Ascending(outcomes, LexLess) && forall o :: o in outcomes <==> Shown(run, format, key, o)
    requires |samples| <= 3 && (outcomes != [] ==> samples != [])
    requires forall i :: i in samples ==> i < |run.events| && RowOf(run.events[i], key)
    ensures SideShown(run, format, key, outcomes, samples)
  {
    hide Ascending;
    hide LexLess;
    hide Shown;
    hide RowOf;
  }

  lemma SampleRow(run: Run, format: Format, key: Key, other: Run, i: nat)
    requires i in SideSamples(run, format, key, other)
    ensures i < |run.events| && RowOf(run.events[i], key)
  {
    hide Held;
    hide OutcomeOrder;
    hide Proper;
    hide SamplesOf;
    hide Occurrences;
    hide RowOf;
    HeldIsProper(run, format, key);
    var m := Held(run, format, key);
    SamplesSound(run.events, m, OutcomeOrder(m), Held(other, format, key));
    OccurrenceMembers(m, OutcomeOrder(m), i);
    var o :| o in OutcomeOrder(m) && i in m[o];
    HeldRow(run, format, key, o, i);
  }

  // ---------- counts ----------

  ghost function Matching(events: seq<Event>, key: Key): set<nat> {
    set i: nat | i < |events| && RowOf(events[i], key)
  }

  lemma {:induction false} CountIsSize(events: seq<Event>, key: Key)
    ensures |Matching(events, key)| == RowCount(events, key)
  {
    if events == [] {
      assert Matching(events, key) == {};
    } else {
      var front, last := events[..|events| - 1], |events| - 1;
      CountIsSize(front, key);
      assert Matching(events, key) == if RowOf(events[last], key) then Matching(front, key) + {last} else Matching(front, key);
    }
  }

  ghost function Members(s: seq<nat>): set<nat> { set i: nat | i in s }

  lemma {:induction false} DistinctSize(s: seq<nat>)
    requires Distinct(s)
    ensures |Members(s)| == |s|
  {
    if s == [] {
      assert Members(s) == {};
    } else {
      var front, last := s[..|s| - 1], s[|s| - 1];
      LastIsNew(s);
      hide Distinct;
      DistinctSize(front);
      assert s == front + [last];
      assert Members(s) == Members(front) + {last};
    }
  }

  lemma {:induction false} TotalIsCount(run: Run, format: Format, key: Key)
    requires LookedAt(run, format)
    ensures var m := Held(run, format, key);
            Within(run.events, m, OutcomeOrder(m)) && |Occurrences(m, OutcomeOrder(m))| == RowCount(run.events, key)
  {
    hide *;
    HeldIsProper(run, format, key);
    var m := Held(run, format, key);
    var keys := OutcomeOrder(m);
    ProperFacts(run.events, m, keys);
    var all := Occurrences(m, keys);
    forall i: nat ensures i in Members(all) <==> i in Matching(run.events, key) { OccurrenceMatches(run, format, key, i); }
    DistinctSize(all);
    assert Members(all) == Matching(run.events, key);
    CountIsSize(run.events, key);
  }

  lemma OccurrenceMatches(run: Run, format: Format, key: Key, i: nat)
    requires LookedAt(run, format)
    ensures var m := Held(run, format, key);
            i in Members(Occurrences(m, OutcomeOrder(m))) <==> i in Matching(run.events, key)
  {
    hide Held;
    hide OutcomeOrder;
    hide Occurrences;
    var m := Held(run, format, key);
    OccurrenceMembers(m, OutcomeOrder(m), i);
    if i in Occurrences(m, OutcomeOrder(m)) {
      var o :| o in OutcomeOrder(m) && i in m[o];
      HeldRow(run, format, key, o, i);
    }
    if i in Matching(run.events, key) { MatchingHeld(run, format, key, i); }
  }

  lemma MatchingHeld(run: Run, format: Format, key: Key, i: nat)
    requires LookedAt(run, format) && i < |run.events| && RowOf(run.events[i], key)
    ensures var m := Held(run, format, key);
            run.events[i].outcome in OutcomeOrder(m) && i in m[run.events[i].outcome]
  {
    var o := run.events[i].outcome;
    assert Supports(run.events[i], key);
    assert Saw(run, format, key, o);
    IndicesMeaning(run.events, |run.events|, key, o);
    hide IndicesOf;
  }

  lemma MappingOnRows(run: Run, key: Key, other: Run)
    ensures MappingShown(run, key, SideSamples(run, OutcomeV6, key, other), SideMappingOf(run, OutcomeV6, key, other))
  {
    var samples := SideSamples(run, OutcomeV6, key, other);
    var mapping := MappingOfSide(run, OutcomeV6, key, other);
    var m := Held(run, OutcomeV6, key);
    hide Held;
    hide OutcomeOrder;
    hide SideSamples;
    hide Occurrences;
    hide Within;
    hide MappedOutcomes;
    hide RowCount;
    if run.storage != "unfinalized" {
      TotalIsCount(run, OutcomeV6, key);
      SideSamplesBounded(run, OutcomeV6, key, other);
    }
  }

  /** What a change carries: each side's own outcomes and samples, and in the explicit format its full account. */
  lemma ChangeOnRows(l: Run, r: Run, format: Format, key: Key)
    ensures var o := ObservationOf(l, r, format, key);
            && o.key == key
            && SideShown(l, format, key, o.left, o.leftSamples)
            && SideShown(r, format, key, o.right, o.rightSamples)
            && (o.mapping.Some? <==> format == OutcomeV6)
            && (o.mapping.Some? ==>
                  && MappingShown(l, key, o.leftSamples, o.mapping.value.0)
                  && MappingShown(r, key, o.rightSamples, o.mapping.value.1))
  {
    hide SideShown;
    hide MappingShown;
    hide Held;
    hide OutcomeOrder;
    hide SideSamples;
    hide SideMappingOf;
    hide KindOf;
    SideOnRows(l, format, key, r);
    SideOnRows(r, format, key, l);
    if format == OutcomeV6 {
      MappingOnRows(l, key, r);
      MappingOnRows(r, key, l);
    }
  }

  ghost predicate Differs(l: Run, r: Run, format: Format, key: Key) {
    exists o :: Shown(l, format, key, o) != Shown(r, format, key, o)
  }

  ghost predicate Listed(changes: seq<Observation>, key: Key) {
    exists x :: 0 <= x < |changes| && changes[x].key == key
  }

  lemma ChangeKeys(l: Run, r: Run, format: Format)
    ensures var changes, keys := ObservationChanges(l, r, format), ChangeOrder(l, r, format);
            |changes| == |keys| && forall x :: 0 <= x < |changes| ==>
              changes[x].key == keys[x] && changes[x] == ObservationOf(l, r, format, changes[x].key)
  {
    hide ChangeOrder;
    hide Held;
    hide OutcomeOrder;
    hide KindOf;
    hide SideSamples;
    hide SideMappingOf;
  }

  /** The changes of two runs: one for every key whose shown outcomes differ, in key order. */
  lemma ChangesOnRows(l: Run, r: Run, format: Format)
    ensures var changes := ObservationChanges(l, r, format);
            && (forall x :: 0 <= x < |changes| ==> changes[x] == ObservationOf(l, r, format, changes[x].key))
            && (forall x, y :: 0 <= x < y < |changes| ==> KeyLess(changes[x].key, changes[y].key))
            && forall key :: Listed(changes, key) <==> Differs(l, r, format, key)
  {
    hide *;
    ChangeKeys(l, r, format);
    var changes, keys := ObservationChanges(l, r, format), ChangeOrder(l, r, format);
    KeysAscend(l, r, format);
    forall key ensures Listed(changes, key) <==> Differs(l, r, format, key) {
      ChangedOnRows(l, r, format, key);
      ListedKey(changes, keys, key);
    }
  }

  lemma KeysAscend(l: Run, r: Run, format: Format)
    ensures var keys := ChangeOrder(l, r, format);
            && (forall x, y :: 0 <= x < y < |keys| ==> KeyLess(keys[x], keys[y]))
            && forall key :: key in keys <==> Changed(l, r, format, key)
  {
    hide KeyLess;
    hide Changed;
  }

  lemma ListedKey(changes: seq<Observation>, keys: seq<Key>, key: Key)
    requires |changes| == |keys| && forall x :: 0 <= x < |changes| ==> changes[x].key == keys[x]
    ensures Listed(changes, key) <==> key in keys
  {
    if key in keys { var x :| 0 <= x < |keys| && keys[x] == key; assert changes[x].key == key; }
  }

  lemma ChangedOnRows(l: Run, r: Run, format: Format, key: Key)
    ensures Changed(l, r, format, key) <==> Differs(l, r, format, key)
  {
    UnchangedMeaning(l, r, format, key);
    forall o
      ensures Saw(l, format, key, o) <==> Shown(l, format, key, o)
      ensures Saw(r, format, key, o) <==> Shown(r, format, key, o)
    {
      SawIsShown(l, format, key, o);
      SawIsShown(r, format, key, o);
    }
    hide Saw;
    hide Shown;
    hide Changed;
  }
}
