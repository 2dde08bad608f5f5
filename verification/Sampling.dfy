/** Bounded evidence samples and complete reference mappings of one observation. */
module Sampling {
  import opened Ordered
  import opened Records
  import opened Buckets
  import opened Aggregation

  const LIMIT := 3

  // ---------- the sample policy ----------

  /** Outcomes of one side, split by whether the other side has them, in iteration order. */
  function Split(keys: seq<string>, other: map<string, seq<nat>>, shared: bool): seq<string> {
    if keys == [] then []
    else
      var rest := Split(keys[..|keys| - 1], other, shared);
      var last := keys[|keys| - 1];
      if (last in other) == shared then rest + [last] else rest
  }

  /** First occurrence of each listed outcome. */
  function Firsts(contents: map<string, seq<nat>>, keys: seq<string>): seq<nat>
    requires forall o :: o in keys ==> o in contents && contents[o] != []
  {
    if keys == [] then []
    else Firsts(contents, keys[..|keys| - 1]) + [contents[keys[|keys| - 1]][0]]
  }

  /** All occurrences of the listed outcomes. */
  function Occurrences(contents: map<string, seq<nat>>, keys: seq<string>): seq<nat>
    requires forall o :: o in keys ==> o in contents
  {
    if keys == [] then []
    else Occurrences(contents, keys[..|keys| - 1]) + contents[keys[|keys| - 1]]
  }

  predicate SameEvidence(events: seq<Event>, i: nat, j: nat) {
    i < |events| && j < |events| && events[i].evidence == events[j].evidence
  }

  predicate Represented(events: seq<Event>, samples: seq<nat>, i: nat) {
    exists x :: 0 <= x < |samples| && SameEvidence(events, samples[x], i)
  }

  /** Fill the remaining budget with occurrences at coordinates not sampled yet. */
  function Fill(events: seq<Event>, samples: seq<nat>, pool: seq<nat>): seq<nat> {
    if pool == [] then samples
    else
      var filled := Fill(events, samples, pool[..|pool| - 1]);
      var next := pool[|pool| - 1];
      if |filled| >= LIMIT || Represented(events, filled, next) then filled else filled + [next]
  }

  function Cut(s: seq<nat>): seq<nat> { if |s| <= LIMIT then s else s[..LIMIT] }

  /** Occurrences are owned by their own outcome, so different outcomes never share an index. */
  predicate ShowsOnly(events: seq<Event>, indices: seq<nat>, outcome: string) {
    forall i :: i in indices ==> i < |events| && events[i].outcome == outcome
  }

  ghost predicate Owned(events: seq<Event>, contents: map<string, seq<nat>>) {
    && (forall o :: o in contents ==> contents[o] != [] && Increasing(contents[o]))
    && (forall o :: o in contents ==> ShowsOnly(events, contents[o], o))
  }

  /** Ordered outcomes with their nonempty ascending occurrences in the saved vector. */
  ghost predicate Proper(events: seq<Event>, contents: map<string, seq<nat>>, keys: seq<string>) {
    && Distinct(keys)
    && (forall o :: o in keys <==> o in contents)
    && Owned(events, contents)
  }

  lemma {:induction false} SplitMembers(keys: seq<string>, other: map<string, seq<nat>>, shared: bool)
    ensures forall o :: o in Split(keys, other, shared) <==> o in keys && (o in other) == shared
  {
    if keys != [] {
      SplitMembers(keys[..|keys| - 1], other, shared);
      assert keys == keys[..|keys| - 1] + [keys[|keys| - 1]];
    }
  }

  predicate Distinct<T(==)>(s: seq<T>) { forall x, y :: 0 <= x < y < |s| ==> s[x] != s[y] }

  lemma {:induction false} SplitDistinct(keys: seq<string>, other: map<string, seq<nat>>, shared: bool)
    requires Distinct(keys)
    ensures Distinct(Split(keys, other, shared))
  {
    if keys != [] {
      var front, last := keys[..|keys| - 1], keys[|keys| - 1];
      SplitDistinct(front, other, shared);
      SplitMembers(front, other, shared);
      var s := Split(front, other, shared);
      assert forall x :: 0 <= x < |s| ==> s[x] in s;
      assert last !in s by { assert forall x :: 0 <= x < |front| ==> front[x] != last; }
    }
  }

  function SamplesOf(events: seq<Event>, contents: map<string, seq<nat>>, keys: seq<string>, other: map<string, seq<nat>>): seq<nat>
    requires forall o :: o in keys ==> o in contents && contents[o] != []
  {
    SplitMembers(keys, other, false);
    SplitMembers(keys, other, true);
    var preferred := Cut(Firsts(contents, Split(keys, other, false)) + Occurrences(contents, Split(keys, other, true)));
    Fill(events, preferred, Occurrences(contents, keys))
  }

  // ---------- the sampler ----------

  method PushAll(samples: seq<nat>, more: seq<nat>) returns (r: seq<nat>)
    requires |samples| <= LIMIT
    ensures r == Cut(samples + more) && |r| <= LIMIT
  {
    r := samples;
    var i := 0;
    while i < |more| && |r| < LIMIT
      invariant 0 <= i <= |more| && r == samples + more[..i] && |r| <= LIMIT
    {
      r := r + [more[i]];
      i := i + 1;
    }
    assert samples + more[..i] == (samples + more)[..|samples| + i];
  }

  lemma CutAppend(a: seq<nat>, b: seq<nat>)
    ensures Cut(Cut(a) + b) == Cut(a + b)
  {
  }

  lemma SplitNext(keys: seq<string>, other: map<string, seq<nat>>, shared: bool, k: nat)
    requires k < |keys|
    ensures Split(keys[..k + 1], other, shared) ==
            Split(keys[..k], other, shared) + (if (keys[k] in other) == shared then [keys[k]] else [])
  {
    assert keys[..k + 1][..k] == keys[..k];
  }

  lemma FirstsNext(contents: map<string, seq<nat>>, keys: seq<string>, o: string)
    requires Listed(contents, keys + [o]) && Listed(contents, keys)
    ensures Firsts(contents, keys + [o]) == Firsts(contents, keys) + [contents[o][0]]
    ensures Occurrences(contents, keys + [o]) == Occurrences(contents, keys) + contents[o]
  {
    assert (keys + [o])[..|keys|] == keys;
  }

  /** First pass: one example of every side-only outcome. */
  method SideOnlyFirsts(contents: map<string, seq<nat>>, keys: seq<string>, other: map<string, seq<nat>>) returns (samples: seq<nat>)
    requires Listed(contents, keys)
    ensures |samples| <= LIMIT && Listed(contents, Split(keys, other, false))
    ensures samples == Cut(Firsts(contents, Split(keys, other, false)))
  {
    hide Split;
    samples := [];
    assert Split([], other, false) == [] by { SplitNothing(other, false); }
    var k := 0;
    while k < |keys|
      invariant 0 <= k <= |keys| && |samples| <= LIMIT
      invariant Listed(contents, Split(keys[..k], other, false))
      invariant samples == Cut(Firsts(contents, Split(keys[..k], other, false)))
    {
      SplitNext(keys, other, false, k);
      ghost var before := Split(keys[..k], other, false);
      if keys[k] !in other {
        FirstsNext(contents, before, keys[k]);
        CutAppend(Firsts(contents, before), [contents[keys[k]][0]]);
        samples := PushAll(samples, [contents[keys[k]][0]]);
      } else {
        assert before + [] == before;
      }
      k := k + 1;
    }
    assert keys[..k] == keys;
  }

  lemma SplitNothing(other: map<string, seq<nat>>, shared: bool)
    ensures Split([], other, shared) == []
  {
  }

  /** Second pass: every occurrence of every shared outcome, while budget remains. */
  method SharedOccurrences(contents: map<string, seq<nat>>, keys: seq<string>, other: map<string, seq<nat>>, first: seq<nat>)
    returns (samples: seq<nat>)
    requires Listed(contents, keys)
    ensures |samples| <= LIMIT && Listed(contents, Split(keys, other, true))
    ensures samples == Cut(first + Occurrences(contents, Split(keys, other, true)))
  {
    hide Split;
    samples := PushAll([], first);
    assert Split([], other, true) == [] by { SplitNothing(other, true); }
    assert [] + first == first && first + [] == first;
    var k := 0;
    while k < |keys|
      invariant 0 <= k <= |keys| && |samples| <= LIMIT
      invariant Listed(contents, Split(keys[..k], other, true))
      invariant samples == Cut(first + Occurrences(contents, Split(keys[..k], other, true)))
    {
      SplitNext(keys, other, true, k);
      ghost var before := Split(keys[..k], other, true);
      if keys[k] in other {
        FirstsNext(contents, before, keys[k]);
        CutAppend(first + Occurrences(contents, before), contents[keys[k]]);
        assert first + Occurrences(contents, before) + contents[keys[k]] ==
               first + (Occurrences(contents, before) + contents[keys[k]]);
        samples := PushAll(samples, contents[keys[k]]);
      } else {
        assert before + [] == before;
      }
      k := k + 1;
    }
    assert keys[..k] == keys;
  }

  /** Side-only outcomes contribute one example each before shared occurrences; leftover budget goes
      to unsampled coordinates. */
  method SampleEventIndices(events: seq<Event>, contents: map<string, seq<nat>>, keys: seq<string>, other: map<string, seq<nat>>)
    returns (samples: seq<nat>)
    requires Listed(contents, keys)
    ensures samples == SamplesOf(events, contents, keys, other)
  {
    samples := SideOnlyFirsts(contents, keys, other);
    ghost var firsts := Firsts(contents, Split(keys, other, false));
    samples := SharedOccurrences(contents, keys, other, samples);
    CutAppend(firsts, Occurrences(contents, Split(keys, other, true)));
    samples := FillFrom(events, samples, Occurrences(contents, keys));
  }

  ghost predicate Listed(contents: map<string, seq<nat>>, keys: seq<string>) {
    forall o :: o in keys ==> o in contents && contents[o] != []
  }

  method FillFrom(events: seq<Event>, samples: seq<nat>, pool: seq<nat>) returns (r: seq<nat>)
    ensures r == Fill(events, samples, pool)
  {
    r := samples;
    var i := 0;
    while i < |pool|
      invariant 0 <= i <= |pool| && r == Fill(events, samples, pool[..i])
    {
      assert pool[..i + 1][..i] == pool[..i];
      if |r| < LIMIT && !Represented(events, r, pool[i]) { r := r + [pool[i]]; }
      i := i + 1;
    }
    assert pool[..i] == pool;
  }

  // ---------- what a sample is ----------

  lemma {:induction false} OccurrenceMembers(contents: map<string, seq<nat>>, keys: seq<string>, i: nat)
    requires forall o :: o in keys ==> o in contents
    ensures i in Occurrences(contents, keys) <==> exists o :: o in keys && i in contents[o]
  {
    if keys != [] {
      var front := keys[..|keys| - 1];
      OccurrenceMembers(contents, front, i);
      assert keys == front + [keys[|keys| - 1]];
    }
  }

  lemma {:induction false} FirstsAt(contents: map<string, seq<nat>>, keys: seq<string>)
    requires Listed(contents, keys)
    ensures |Firsts(contents, keys)| == |keys|
    ensures forall x :: 0 <= x < |keys| ==> Firsts(contents, keys)[x] == contents[keys[x]][0]
  {
    if keys != [] {
      var front := keys[..|keys| - 1];
      FirstsAt(contents, front);
      assert forall x :: 0 <= x < |front| ==> front[x] == keys[x];
    }
  }

  lemma Owner(events: seq<Event>, contents: map<string, seq<nat>>, o: string, i: nat)
    requires Owned(events, contents) && o in contents && i in contents[o]
    ensures i < |events| && events[i].outcome == o
  {
    assert ShowsOnly(events, contents[o], o);
  }

  lemma LastIsNew<T>(s: seq<T>)
    requires Distinct(s) && s != []
    ensures s[|s| - 1] !in s[..|s| - 1] && Distinct(s[..|s| - 1])
  {
    assert forall z :: 0 <= z < |s| - 1 ==> s[..|s| - 1][z] == s[z];
  }

  lemma {:induction false} OccurrencesDistinct(events: seq<Event>, contents: map<string, seq<nat>>, keys: seq<string>)
    requires Owned(events, contents) && Distinct(keys) && forall o :: o in keys ==> o in contents
    ensures Distinct(Occurrences(contents, keys))
  {
    if keys != [] {
      var front, last := keys[..|keys| - 1], keys[|keys| - 1];
      OccurrencesDistinct(events, contents, front);
      var before, added := Occurrences(contents, front), contents[last];
      LastIsNew(keys);
      forall x, y | 0 <= x < |before| && 0 <= y < |added| ensures before[x] != added[y] {
        OccurrenceMembers(contents, front, before[x]);
        assert before[x] in before;
        var o :| o in front && before[x] in contents[o];
        assert added[y] in contents[last];
        assert o in keys;
        Owner(events, contents, o, before[x]);
        Owner(events, contents, last, added[y]);
      }
    }
  }

  lemma FirstsDistinct(events: seq<Event>, contents: map<string, seq<nat>>, keys: seq<string>)
    requires Owned(events, contents) && Distinct(keys) && Listed(contents, keys)
    ensures Distinct(Firsts(contents, keys))
  {
    FirstsAt(contents, keys);
    var s := Firsts(contents, keys);
    forall x, y | 0 <= x < y < |s| ensures s[x] != s[y] {
      assert keys[x] in keys && keys[y] in keys;
      assert s[x] in contents[keys[x]] && s[y] in contents[keys[y]];
      Owner(events, contents, keys[x], s[x]);
      Owner(events, contents, keys[y], s[y]);
    }
  }

  /** The preferred samples repeat no occurrence. */
  lemma PreferredDistinct(events: seq<Event>, contents: map<string, seq<nat>>, only: seq<string>, shared: seq<string>)
    requires Owned(events, contents) && Listed(contents, only) && Listed(contents, shared)
    requires Distinct(only) && Distinct(shared) && forall o :: o in only ==> o !in shared
    ensures Distinct(Firsts(contents, only) + Occurrences(contents, shared))
  {
    FirstsDistinct(events, contents, only);
    OccurrencesDistinct(events, contents, shared);
    FirstsAt(contents, only);
    var a, b := Firsts(contents, only), Occurrences(contents, shared);
    forall x, y | 0 <= x < |a| && 0 <= y < |b| ensures a[x] != b[y] {
      OccurrenceMembers(contents, shared, b[y]);
      assert b[y] in b;
      var o :| o in shared && b[y] in contents[o];
      assert only[x] in only && a[x] in contents[only[x]];
      Owner(events, contents, only[x], a[x]);
      Owner(events, contents, o, b[y]);
    }
  }

  lemma {:induction false} FillKeeps(events: seq<Event>, samples: seq<nat>, pool: seq<nat>)
    requires |samples| <= LIMIT && Distinct(samples)
    requires (forall i :: i in samples ==> i < |events|) && forall i :: i in pool ==> i < |events|
    ensures var r := Fill(events, samples, pool);
            && samples <= r && |r| <= LIMIT && Distinct(r)
            && forall i :: i in r ==> i in samples || i in pool
    ensures samples == [] && pool != [] ==> Fill(events, samples, pool) != []
  {
    if pool != [] {
      var front, next := pool[..|pool| - 1], pool[|pool| - 1];
      assert forall i :: i in front ==> i in pool;
      assert next in pool;
      FillKeeps(events, samples, front);
      var filled := Fill(events, samples, front);
      if !Represented(events, filled, next) {
        forall x | 0 <= x < |filled| ensures filled[x] != next { assert SameEvidence(events, next, next); }
      }
    }
  }

  lemma {:induction false} DistinctSize(s: seq<nat>)
    requires Distinct(s)
    ensures |Elements(s)| == |s|
  {
    if s != [] {
      var front, last := s[..|s| - 1], s[|s| - 1];
      LastIsNew(s);
      DistinctSize(front);
      assert s == front + [last];
      ElementsAppend(front, last);
    }
  }

  lemma ElementsAppend(front: seq<nat>, last: nat)
    ensures Elements(front + [last]) == Elements(front) + {last}
  {
  }

  lemma DistinctWithin(s: seq<nat>, t: seq<nat>)
    requires Distinct(s) && Distinct(t) && forall i :: i in s ==> i in t
    ensures |s| <= |t|
  {
    DistinctSize(s);
    DistinctSize(t);
    assert Elements(s) + (Elements(t) - Elements(s)) == Elements(t);
  }

  lemma CutDistinct(s: seq<nat>)
    requires Distinct(s)
    ensures Distinct(Cut(s)) && |Cut(s)| <= LIMIT && Cut(s) <= s && forall i :: i in Cut(s) ==> i in s
    ensures |Cut(s)| == |s| || |Cut(s)| == LIMIT
  {
  }

  /** Samples are at most three distinct supporting occurrences, side-only outcomes first, and never
      more than there are occurrences, so the omitted count cannot underflow. */
  lemma SamplesSound(events: seq<Event>, contents: map<string, seq<nat>>, keys: seq<string>, other: map<string, seq<nat>>)
    requires Proper(events, contents, keys)
    ensures var s := SamplesOf(events, contents, keys, other);
            && |s| <= 3 && Distinct(s)
            && (forall i :: i in s ==> i in Occurrences(contents, keys))
            && (keys != [] ==> s != [])
            && |s| <= |Occurrences(contents, keys)|
    ensures Listed(contents, Split(keys, other, false))
    ensures Cut(Firsts(contents, Split(keys, other, false))) <= SamplesOf(events, contents, keys, other)
  {
    SplitFacts(keys, other);
    ProperFacts(events, contents, keys);
    PolicySound(events, contents, keys, Split(keys, other, false), Split(keys, other, true));
    hide Split;
    hide Fill;
    hide Firsts;
    hide Occurrences;
  }

  lemma SplitFacts(keys: seq<string>, other: map<string, seq<nat>>)
    requires Distinct(keys)
    ensures Distinct(Split(keys, other, false)) && Distinct(Split(keys, other, true))
    ensures forall o :: o in Split(keys, other, false) <==> o in keys && o !in other
    ensures forall o :: o in Split(keys, other, true) <==> o in keys && o in other
  {
    SplitMembers(keys, other, false);
    SplitMembers(keys, other, true);
    SplitDistinct(keys, other, false);
    SplitDistinct(keys, other, true);
  }

  lemma ProperFacts(events: seq<Event>, contents: map<string, seq<nat>>, keys: seq<string>)
    requires Proper(events, contents, keys)
    ensures Owned(events, contents) && Listed(contents, keys) && Distinct(keys)
    ensures Distinct(Occurrences(contents, keys))
    ensures forall i :: i in Occurrences(contents, keys) ==> i < |events|
    ensures keys != [] ==> Occurrences(contents, keys) != []
  {
    OccurrencesDistinct(events, contents, keys);
    forall i | i in Occurrences(contents, keys) ensures i < |events| {
      OccurrenceMembers(contents, keys, i);
      var o :| o in keys && i in contents[o];
      Owner(events, contents, o, i);
    }
    if keys != [] { OccurrenceMembers(contents, keys, contents[keys[0]][0]); }
  }

  lemma PolicySound(events: seq<Event>, contents: map<string, seq<nat>>, keys: seq<string>, only: seq<string>,
                    shared: seq<string>)
    requires Owned(events, contents) && Listed(contents, keys) && Listed(contents, only) && Listed(contents, shared)
    requires Distinct(only) && Distinct(shared) && forall o :: o in only ==> o !in shared
    requires (forall o :: o in only ==> o in keys) && forall o :: o in shared ==> o in keys
    requires Distinct(Occurrences(contents, keys))
    requires forall i :: i in Occurrences(contents, keys) ==> i < |events|
    ensures var all := Occurrences(contents, keys);
            var s := Fill(events, Cut(Firsts(contents, only) + Occurrences(contents, shared)), all);
            && |s| <= LIMIT && Distinct(s) && (forall i :: i in s ==> i in all)
            && (all != [] ==> s != []) && |s| <= |all|
            && Cut(Firsts(contents, only)) <= s
  {
    PreferredDistinct(events, contents, only, shared);
    PreferredMembers(contents, keys, only, shared);
    var first, all := Firsts(contents, only) + Occurrences(contents, shared), Occurrences(contents, keys);
    CutDistinct(first);
    assert Cut(Firsts(contents, only)) <= Cut(first);
    hide Firsts;
    hide Occurrences;
    FillKeeps(events, Cut(first), all);
    hide Cut;
    hide Fill;
    DistinctWithin(Fill(events, Cut(first), all), all);
  }

  lemma PreferredMembers(contents: map<string, seq<nat>>, keys: seq<string>, only: seq<string>, shared: seq<string>)
    requires Listed(contents, keys) && Listed(contents, only) && Listed(contents, shared)
    requires (forall o :: o in only ==> o in keys) && forall o :: o in shared ==> o in keys
    ensures forall i :: i in Firsts(contents, only) || i in Occurrences(contents, shared) ==> i in Occurrences(contents, keys)
  {
    FirstsAt(contents, only);
    forall i | i in Firsts(contents, only) ensures i in Occurrences(contents, keys) {
      var x :| 0 <= x < |only| && Firsts(contents, only)[x] == i;
      assert only[x] in keys && i in contents[only[x]];
      OccurrenceMembers(contents, keys, i);
    }
    forall i | i in Occurrences(contents, shared) ensures i in Occurrences(contents, keys) {
      OccurrenceMembers(contents, shared, i);
      OccurrenceMembers(contents, keys, i);
    }
  }

  // ---------- the budget is used ----------

  lemma {:induction false} FillUsesBudget(events: seq<Event>, samples: seq<nat>, pool: seq<nat>)
    ensures samples <= Fill(events, samples, pool)
    ensures |Fill(events, samples, pool)| < LIMIT ==>
              forall i :: i in pool && i < |events| ==> Represented(events, Fill(events, samples, pool), i)
  {
    if pool != [] {
      var front, last := pool[..|pool| - 1], pool[|pool| - 1];
      FillUsesBudget(events, samples, front);
      var before, after := Fill(events, samples, front), Fill(events, samples, pool);
      assert pool == front + [last];
      if |after| < LIMIT {
        forall i | i in pool && i < |events| ensures Represented(events, after, i) {
          if i in front { RepresentedStill(events, before, after, i); } else { RepresentedNow(events, before, after, i); }
        }
      }
    }
  }

  lemma RepresentedStill(events: seq<Event>, before: seq<nat>, after: seq<nat>, i: nat)
    requires before <= after && Represented(events, before, i)
    ensures Represented(events, after, i)
  {
    var x :| 0 <= x < |before| && SameEvidence(events, before[x], i);
    assert after[x] == before[x];
  }

  lemma RepresentedNow(events: seq<Event>, before: seq<nat>, after: seq<nat>, i: nat)
    requires i < |events| && (if Represented(events, before, i) then after == before else after == before + [i])
    ensures Represented(events, after, i)
  {
    if !Represented(events, before, i) { assert SameEvidence(events, after[|before|], i); }
  }

  lemma PreferredHolds(contents: map<string, seq<nat>>, own: seq<string>, shared: seq<string>, o: string, i: nat)
    requires Listed(contents, own) && Listed(contents, shared) && o in contents && i in contents[o]
    ensures o in shared ==> i in Firsts(contents, own) + Occurrences(contents, shared)
    ensures o in own ==> contents[o][0] in Firsts(contents, own) + Occurrences(contents, shared)
  {
    OccurrenceMembers(contents, shared, i);
    FirstsAt(contents, own);
    var firsts := Firsts(contents, own);
    hide Firsts;
    hide Occurrences;
    if o in own {
      var y :| 0 <= y < |own| && own[y] == o;
      assert firsts[y] == contents[o][0];
    }
  }

  lemma PreferredKept(events: seq<Event>, preferred: seq<nat>, pool: seq<nat>)
    requires |Fill(events, Cut(preferred), pool)| < LIMIT
    ensures preferred <= Fill(events, Cut(preferred), pool)
    ensures forall i :: i in preferred ==> i in Fill(events, Cut(preferred), pool)
  {
    FillUsesBudget(events, Cut(preferred), pool);
    hide Fill;
    var s := Fill(events, Cut(preferred), pool);
    forall i | i in preferred ensures i in s {
      var y :| 0 <= y < |preferred| && preferred[y] == i;
      assert s[y] == i;
    }
  }

  lemma SplitListed(events: seq<Event>, contents: map<string, seq<nat>>, keys: seq<string>, other: map<string, seq<nat>>)
    requires Proper(events, contents, keys)
    ensures Listed(contents, Split(keys, other, false)) && Listed(contents, Split(keys, other, true))
  {
    SplitFacts(keys, other);
  }

  lemma SampledCoordinates(events: seq<Event>, contents: map<string, seq<nat>>, keys: seq<string>, s: seq<nat>,
                           preferred: seq<nat>, o: string, i: nat)
    requires Proper(events, contents, keys) && o in contents && i in contents[o]
    requires s == Fill(events, Cut(preferred), Occurrences(contents, keys)) && |s| < LIMIT
    ensures exists x :: 0 <= x < |s| && s[x] < |events| && events[s[x]].evidence == events[i].evidence
  {
    FillUsesBudget(events, Cut(preferred), Occurrences(contents, keys));
    OccurrenceMembers(contents, keys, i);
    Owner(events, contents, o, i);
    hide Fill;
    hide Occurrences;
    assert Represented(events, s, i);
    var x :| 0 <= x < |s| && SameEvidence(events, s[x], i);
  }

  /** A sample short of its limit left nothing out: the first occurrence of every outcome the other side lacks,
      every occurrence of a shared outcome, and the coordinates of every other occurrence. */
  lemma SamplesUseBudget(events: seq<Event>, contents: map<string, seq<nat>>, keys: seq<string>,
                         other: map<string, seq<nat>>, o: string, i: nat)
    requires Proper(events, contents, keys) && |SamplesOf(events, contents, keys, other)| < 3
    requires o in contents && i in contents[o]
    ensures i < |events|
    ensures var s := SamplesOf(events, contents, keys, other);
            && (exists x :: 0 <= x < |s| && s[x] < |events| && events[s[x]].evidence == events[i].evidence)
            && (o in other ==> i in s)
            && (o !in other ==> contents[o][0] in s)
  {
    Owner(events, contents, o, i);
    SplitFacts(keys, other);
    SplitListed(events, contents, keys, other);
    var own, shared := Split(keys, other, false), Split(keys, other, true);
    var preferred := Firsts(contents, own) + Occurrences(contents, shared);
    var pool := Occurrences(contents, keys);
    var s := SamplesOf(events, contents, keys, other);
    assert s == Fill(events, Cut(preferred), pool);
    hide SamplesOf;
    hide Split;
    hide Fill;
    hide Cut;
    hide Firsts;
    hide Occurrences;
    hide Listed;
    PreferredHolds(contents, own, shared, o, i);
    PreferredKept(events, preferred, pool);
    SampledCoordinates(events, contents, keys, s, preferred, o, i);
  }
}
