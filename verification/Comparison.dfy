/** Observation changes between two runs: which keys change, with which outcomes and references. */
module Comparison {
  import opened Ordered
  import opened Records
  import opened Buckets
  import opened Merge
  import opened Aggregation
  import opened Sampling

  // ---------- what is compared ----------

  /** Admitted (key, outcome) tuples of one side. */
  ghost predicate Saw(run: Run, format: Format, key: Key, outcome: string) {
    !Withheld(run, format) &&
    exists i :: 0 <= i < |run.events| && Supports(run.events[i], key) && run.events[i].outcome == outcome
  }

  /** Saved indices of a key by outcome, as an admitted side holds them. */
  ghost function Held(run: Run, format: Format, key: Key): (m: map<string, seq<nat>>)
    ensures forall o :: o in m <==> Saw(run, format, key, o)
    ensures forall o :: o in m ==> m[o] == IndicesOf(run.events, |run.events|, key, o)
  {
    var outcomes := set i | 0 <= i < |run.events| && Supports(run.events[i], key) && !Withheld(run, format)
                          :: run.events[i].outcome;
    map o | o in outcomes :: IndicesOf(run.events, |run.events|, key, o)
  }

  ghost function OutcomeOrder(m: map<string, seq<nat>>): (keys: seq<string>)
    ensures Ascending(keys, LexLess) && forall o :: o in keys <==> o in m
  {
    LexStrictTotal();
    Sorted(m.Keys, LexLess)
  }

  datatype ChangeKind =
    | ExecutionAttempt
    | Executable
    | NewFileAccess
    | RemovedFileAccess
    | FileAccessOutcome

  datatype EvidenceSource = NormalizedEvents | WithheldEvents

  datatype OutcomeReferences = OutcomeReferences(outcome: string, count: nat, events: seq<EventReference>)

  datatype SideMapping = SideMapping(
    source: EvidenceSource, eventCount: Option<nat>, samples: seq<nat>, sampleCount: nat,
    omitted: Option<int>, outcomes: seq<OutcomeReferences>)

  datatype Observation = Observation(
    kind: ChangeKind, key: Key, left: seq<string>, right: seq<string>, leftSamples: seq<nat>, rightSamples: seq<nat>,
    mapping: Option<(SideMapping, SideMapping)>)

  function KindOf(key: Key, left: seq<string>, right: seq<string>): ChangeKind {
    if key.kind == "exec" then
      if exists o :: o in left + right && o != "success" then ExecutionAttempt else Executable
    else if left == [] then NewFileAccess
    else if right == [] then RemovedFileAccess
    else FileAccessOutcome
  }

  // ---------- complete references ----------

  predicate InVector(events: seq<Event>, indices: seq<nat>) {
    forall x :: 0 <= x < |indices| ==> indices[x] < |events|
  }

  function References(events: seq<Event>, indices: seq<nat>): (r: seq<EventReference>)
    requires InVector(events, indices)
    ensures |r| == |indices|
    ensures forall x :: 0 <= x < |indices| ==> r[x] == EventReference(indices[x], events[indices[x]].evidence)
  {
    seq(|indices|, x requires 0 <= x < |indices| && indices[x] < |events| =>
      EventReference(indices[x], events[indices[x]].evidence))
  }

  function MappedOutcomes(events: seq<Event>, m: map<string, seq<nat>>, keys: seq<string>): seq<OutcomeReferences>
    requires forall o :: o in keys ==> o in m && InVector(events, m[o])
  {
    if keys == [] then []
    else
      var o := keys[|keys| - 1];
      assert o in keys;
      MappedOutcomes(events, m, keys[..|keys| - 1]) + [OutcomeReferences(o, |m[o]|, References(events, m[o]))]
  }

  ghost predicate Within(events: seq<Event>, m: map<string, seq<nat>>, keys: seq<string>) {
    forall o :: o in keys ==> o in m && InVector(events, m[o])
  }

  /** The explicit mapping of one changed key's side. */
  function NormalizedMapping(run: Run, m: map<string, seq<nat>>, keys: seq<string>, samples: seq<nat>): SideMapping
    requires Within(run.events, m, keys)
  {
    if run.storage == "unfinalized" then SideMapping(WithheldEvents, None, [], 0, None, [])
    else
      SideMapping(NormalizedEvents, Some(|Occurrences(m, keys)|), samples, |samples|,
                  Some(|Occurrences(m, keys)| - |samples|), MappedOutcomes(run.events, m, keys))
  }

  // ---------- the admitted side is proper ----------

  ghost predicate OwnedBy(events: seq<Event>, s: seq<nat>, o: string) {
    s != [] && Increasing(s) && InVector(events, s) && ShowsOnly(events, s, o)
  }

  lemma HeldOutcome(run: Run, format: Format, key: Key, o: string)
    requires o in Held(run, format, key)
    ensures OwnedBy(run.events, Held(run, format, key)[o], o)
  {
    var s := Held(run, format, key)[o];
    assert Saw(run, format, key, o);
    hide Held;
    IndicesMeaning(run.events, |run.events|, key, o);
    var i :| 0 <= i < |run.events| && Supports(run.events[i], key) && run.events[i].outcome == o;
    assert i in s;
    assert forall x :: 0 <= x < |s| ==> s[x] in s;
    hide IndicesOf;
    hide Supports;
  }

  lemma ProperFrom(events: seq<Event>, m: map<string, seq<nat>>, keys: seq<string>)
    requires Distinct(keys) && (forall o :: o in keys <==> o in m)
    requires forall o :: o in m ==> OwnedBy(events, m[o], o)
    ensures Proper(events, m, keys) && Within(events, m, keys)
  {
    forall o | o in m ensures ShowsOnly(events, m[o], o) { assert OwnedBy(events, m[o], o); }
  }

  lemma HeldIsProper(run: Run, format: Format, key: Key)
    ensures Proper(run.events, Held(run, format, key), OutcomeOrder(Held(run, format, key)))
    ensures Within(run.events, Held(run, format, key), OutcomeOrder(Held(run, format, key)))
  {
    hide OwnedBy;
    hide LexLess;
    hide Proper;
    hide Within;
    hide Saw;
    var m := Held(run, format, key);
    LexStrictTotal();
    AscendingDistinct(OutcomeOrder(m), LexLess);
    forall o | o in m ensures OwnedBy(run.events, m[o], o) { HeldOutcome(run, format, key, o); }
    hide OutcomeOrder;
    hide Held;
    ProperFrom(run.events, m, OutcomeOrder(m));
  }

  // ---------- one changed key ----------

  ghost predicate Changed(l: Run, r: Run, format: Format, key: Key) {
    Held(l, format, key).Keys != Held(r, format, key).Keys
  }

  ghost function SideSamples(run: Run, format: Format, key: Key, other: Run): seq<nat> {
    HeldIsProper(run, format, key);
    var m := Held(run, format, key);
    SamplesOf(run.events, m, OutcomeOrder(m), Held(other, format, key))
  }

  ghost function SideMappingOf(run: Run, format: Format, key: Key, other: Run): SideMapping {
    HeldIsProper(run, format, key);
    var m := Held(run, format, key);
    NormalizedMapping(run, m, OutcomeOrder(m), SideSamples(run, format, key, other))
  }

  ghost function ObservationOf(l: Run, r: Run, format: Format, key: Key): Observation {
    var left, right := OutcomeOrder(Held(l, format, key)), OutcomeOrder(Held(r, format, key));
    Observation(KindOf(key, left, right), key, left, right,
                SideSamples(l, format, key, r), SideSamples(r, format, key, l),
                if format.OutcomeV6? then Some((SideMappingOf(l, format, key, r), SideMappingOf(r, format, key, l)))
                else None)
  }

  ghost function ObservedKeys(run: Run, format: Format): (keys: set<Key>)
    ensures forall k :: k in keys <==> exists o :: Saw(run, format, k, o)
  {
    var keys := set i | 0 <= i < |run.events| && Observes(run.events[i]) && !Withheld(run, format) :: KeyOf(run.events[i]);
    assert forall k :: k in keys <==> exists o :: Saw(run, format, k, o) by {
      forall k | k in keys ensures exists o :: Saw(run, format, k, o) {
        var i :| 0 <= i < |run.events| && Observes(run.events[i]) && KeyOf(run.events[i]) == k;
        assert Saw(run, format, k, run.events[i].outcome);
      }
    }
    keys
  }

  ghost function ChangedKeys(l: Run, r: Run, format: Format): (keys: set<Key>)
    ensures forall k :: k in keys <==> Changed(l, r, format, k)
  {
    var keys := set k | k in ObservedKeys(l, format) + ObservedKeys(r, format) && Changed(l, r, format, k);
    assert forall k :: k in keys <==> Changed(l, r, format, k) by {
      forall k | Changed(l, r, format, k) ensures k in keys {
        assert Held(l, format, k).Keys + Held(r, format, k).Keys != {};
        var o :| o in Held(l, format, k).Keys + Held(r, format, k).Keys;
        assert Saw(l, format, k, o) || Saw(r, format, k, o);
      }
    }
    keys
  }

  /** Changed keys in production order. */
  ghost function ChangeOrder(l: Run, r: Run, format: Format): (keys: seq<Key>)
    ensures Ascending(keys, KeyLess) && forall k :: k in keys <==> Changed(l, r, format, k)
  {
    KeyStrictTotal();
    Sorted(ChangedKeys(l, r, format), KeyLess)
  }

  /** The observation part of a report: one change for each changed key, in key order. */
  ghost function ObservationChanges(l: Run, r: Run, format: Format): (changes: seq<Observation>)
    ensures |changes| == |ChangeOrder(l, r, format)|
    ensures forall x :: 0 <= x < |changes| ==> changes[x] == ObservationOf(l, r, format, ChangeOrder(l, r, format)[x])
  {
    Described(l, r, format, ChangeOrder(l, r, format))
  }

  /** The observations of a list of keys. */
  ghost function Described(l: Run, r: Run, format: Format, keys: seq<Key>): (changes: seq<Observation>)
    ensures |changes| == |keys|
    ensures forall x :: 0 <= x < |changes| ==> changes[x] == ObservationOf(l, r, format, keys[x])
  {
    seq(|keys|, x requires 0 <= x < |keys| => ObservationOf(l, r, format, keys[x]))
  }

  // ---------- the comparison, as it runs ----------

  ghost predicate AggregatedFrom(a: Aggregate, run: Run, format: Format) {
    if Withheld(run, format) then a == map[] else Exact(a, run.events, |run.events|)
  }

  /** A bucket of an aggregate holds exactly the admitted occurrences of its key. */
  lemma BucketIsHeld(a: Aggregate, run: Run, format: Format, key: Key)
    requires AggregatedFrom(a, run, format)
    ensures Contents(BucketAt(a, key)) == Held(run, format, key)
  {
    var m, held := Contents(BucketAt(a, key)), Held(run, format, key);
    if !Withheld(run, format) {
      hide Held;
      forall o ensures o in m <==> o in held {
        IndicesMeaning(run.events, |run.events|, key, o);
        var s := IndicesOf(run.events, |run.events|, key, o);
        assert At(m, o) == s;
        if o in m { assert s[0] in s; }
        if o in held {
          assert Saw(run, format, key, o);
          var i :| 0 <= i < |run.events| && Supports(run.events[i], key) && run.events[i].outcome == o;
          assert i in s;
        }
      }
      forall o | o in m ensures m[o] == held[o] { assert At(m, o) == m[o]; }
    }
  }

  method NormalizedMappingOf(run: Run, m: map<string, seq<nat>>, keys: seq<string>, samples: seq<nat>)
    returns (mapping: SideMapping)
    requires Within(run.events, m, keys)
    ensures mapping == NormalizedMapping(run, m, keys, samples)
  {
    if run.storage == "unfinalized" { return SideMapping(WithheldEvents, None, [], 0, None, []); }
    var count := 0;
    var outcomes: seq<OutcomeReferences> := [];
    var x := 0;
    while x < |keys|
      invariant 0 <= x <= |keys| && Within(run.events, m, keys[..x])
      invariant count == |Occurrences(m, keys[..x])|
      invariant outcomes == MappedOutcomes(run.events, m, keys[..x])
    {
      var o := keys[x];
      assert keys[..x + 1][..x] == keys[..x];
      count := count + |m[o]|;
      outcomes := outcomes + [OutcomeReferences(o, |m[o]|, References(run.events, m[o]))];
      x := x + 1;
    }
    assert keys[..x] == keys;
    mapping := SideMapping(NormalizedEvents, Some(count), samples, |samples|, Some(count - |samples|), outcomes);
  }

  /** Materialize one observation from admitted buckets; absent when the outcome sets agree. */
  method ObservationChange(l: Run, r: Run, format: Format, key: Key, left: Bucket, right: Bucket)
    returns (change: Option<Observation>)
    requires Contents(left) == Held(l, format, key) && Contents(right) == Held(r, format, key)
    ensures change == (if Changed(l, r, format, key) then Some(ObservationOf(l, r, format, key)) else None)
  {
    LexStrictTotal();
    HeldIsProper(l, format, key);
    HeldIsProper(r, format, key);
    hide LexLess;
    hide Proper;
    hide Within;
    hide SamplesOf;
    hide NormalizedMapping;
    hide StrictTotal;
    var leftKeys := Enumerate(Contents(left).Keys, LexLess);
    var rightKeys := Enumerate(Contents(right).Keys, LexLess);
    OrdersDecideSets(Held(l, format, key), Held(r, format, key));
    if leftKeys == rightKeys { return None; }
    ProperListed(l.events, Contents(left), leftKeys);
    ProperListed(r.events, Contents(right), rightKeys);
    var leftSamples := SampleEventIndices(l.events, Contents(left), leftKeys, Contents(right));
    var rightSamples := SampleEventIndices(r.events, Contents(right), rightKeys, Contents(left));
    var mapping: Option<(SideMapping, SideMapping)> := None;
    if format.OutcomeV6? {
      var leftMapping := NormalizedMappingOf(l, Contents(left), leftKeys, leftSamples);
      var rightMapping := NormalizedMappingOf(r, Contents(right), rightKeys, rightSamples);
      mapping := Some((leftMapping, rightMapping));
    }
    change := Some(Observation(KindOf(key, leftKeys, rightKeys), key, leftKeys, rightKeys,
                               leftSamples, rightSamples, mapping));
  }

  lemma ProperListed(events: seq<Event>, m: map<string, seq<nat>>, keys: seq<string>)
    requires Proper(events, m, keys)
    ensures Listed(m, keys)
  {
  }

  /** Equal outcome sequences mean equal outcome sets. */
  lemma OrdersDecideSets(a: map<string, seq<nat>>, b: map<string, seq<nat>>)
    ensures OutcomeOrder(a) == OutcomeOrder(b) <==> a.Keys == b.Keys
  {
    LexStrictTotal();
    if OutcomeOrder(a) == OutcomeOrder(b) {
      assert forall o :: o in a <==> o in OutcomeOrder(b);
      assert forall o :: o in a.Keys <==> o in b.Keys;
    }
  }

  /** The changed keys among the first `n` of an ascending list. */
  ghost predicate ChangedTo(l: Run, r: Run, format: Format, all: seq<Key>, n: nat, done: seq<Key>)
    requires n <= |all|
  {
    Ascending(done, KeyLess) && forall k :: k in done <==> k in all[..n] && Changed(l, r, format, k)
  }

  lemma ChangedNext(l: Run, r: Run, format: Format, all: seq<Key>, n: nat, done: seq<Key>)
    requires n < |all| && Ascending(all, KeyLess) && ChangedTo(l, r, format, all, n, done)
    ensures ChangedTo(l, r, format, all, n + 1, if Changed(l, r, format, all[n]) then done + [all[n]] else done)
  {
    hide KeyLess;
    hide Changed;
    assert all[..n + 1] == all[..n] + [all[n]];
    forall x | 0 <= x < |done| ensures KeyLess(done[x], all[n]) {
      assert done[x] in done;
      var y :| 0 <= y < n && all[..n][y] == done[x];
    }
  }

  lemma ChangedAll(l: Run, r: Run, format: Format, all: seq<Key>, done: seq<Key>)
    requires ChangedTo(l, r, format, all, |all|, done)
    requires forall k :: Changed(l, r, format, k) ==> k in all
    ensures done == ChangeOrder(l, r, format)
  {
    KeyStrictTotal();
    hide KeyLess;
    hide Changed;
    assert all[..|all|] == all;
    AscendingUnique(done, ChangeOrder(l, r, format), KeyLess);
  }

  /** A changed key is observed by some admitted side, hence present in its aggregate. */
  lemma ChangedIsPresent(a: Aggregate, b: Aggregate, l: Run, r: Run, format: Format, key: Key)
    requires AggregatedFrom(a, l, format) && AggregatedFrom(b, r, format)
    ensures Changed(l, r, format, key) ==> key in a || key in b
  {
    BucketIsHeld(a, l, format, key);
    BucketIsHeld(b, r, format, key);
    hide Held;
    hide Exact;
  }

  /** Compare the two buckets of one joined row. */
  method ChangeOfRow(l: Run, r: Run, format: Format, ghost a: Aggregate, ghost b: Aggregate, row: Joined)
    returns (change: Option<Observation>)
    requires AggregatedFrom(a, l, format) && AggregatedFrom(b, r, format) && row == Row(a, b, row.key)
    ensures change == (if Changed(l, r, format, row.key) then Some(ObservationOf(l, r, format, row.key)) else None)
  {
    hide Changed;
    hide ObservationOf;
    hide AggregatedFrom;
    hide Held;
    var left := match row.left case Some(bucket) => bucket case None => Empty;
    var right := match row.right case Some(bucket) => bucket case None => Empty;
    assert left == BucketAt(a, row.key) && right == BucketAt(b, row.key);
    BucketIsHeld(a, l, format, row.key);
    BucketIsHeld(b, r, format, row.key);
    change := ObservationChange(l, r, format, row.key, left, right);
  }

  /** Materialize the changed rows of a join, in key order. */
  method ChangesOfRows(l: Run, r: Run, format: Format, ghost a: Aggregate, ghost b: Aggregate, rows: seq<Joined>,
                       ghost all: seq<Key>)
    returns (changes: seq<Observation>, ghost done: seq<Key>)
    requires AggregatedFrom(a, l, format) && AggregatedFrom(b, r, format) && Ascending(all, KeyLess)
    requires |rows| == |all| && forall x :: 0 <= x < |rows| ==> rows[x] == Row(a, b, all[x])
    ensures ChangedTo(l, r, format, all, |all|, done) && changes == Described(l, r, format, done)
  {
    hide Changed;
    hide ObservationOf;
    hide AggregatedFrom;
    hide Described;
    hide ChangedTo;
    hide Ascending;
    ChangedStart(l, r, format, all);
    DescribedStart(l, r, format);
    done := [];
    changes := [];
    var n := 0;
    while n < |rows|
      invariant 0 <= n <= |rows| && ChangedTo(l, r, format, all, n, done)
      invariant changes == Described(l, r, format, done)
    {
      var change := ChangeOfRow(l, r, format, a, b, rows[n]);
      ChangedNext(l, r, format, all, n, done);
      if change.Some? {
        changes := changes + [change.value];
        DescribedNext(l, r, format, done, all[n]);
        done := done + [all[n]];
      }
      n := n + 1;
    }
  }

  lemma DescribedStart(l: Run, r: Run, format: Format)
    ensures Described(l, r, format, []) == []
  {
  }

  /** The comparison's observation pass: aggregate both sides, join, and materialize what changed. */
  method CompareObservations(l: Run, r: Run, format: Format) returns (changes: seq<Observation>)
    ensures changes == ObservationChanges(l, r, format)
  {
    hide Described;
    hide Changed;
    hide AggregatedFrom;
    hide KeyLess;
    hide Union;
    hide ChangeOrder;
    hide ChangedTo;
    var a: Aggregate := AggregatedSide(l, format);
    var b: Aggregate := AggregatedSide(r, format);
    KeyStrictTotal();
    var left := Enumerate(a.Keys, KeyLess);
    var right := Enumerate(b.Keys, KeyLess);
    ghost var all := UnionOrder(a, b);
    UnionOfKeys(a, b);
    var rows := OrderedAggregates(a, b, left, right, all);
    ghost var done;
    changes, done := ChangesOfRows(l, r, format, a, b, rows, all);
    forall k | Changed(l, r, format, k) ensures k in all { ChangedIsPresent(a, b, l, r, format, k); }
    ChangedAll(l, r, format, all, done);
  }

  lemma ChangedStart(l: Run, r: Run, format: Format, all: seq<Key>)
    ensures ChangedTo(l, r, format, all, 0, [])
  {
  }

  lemma DescribedNext(l: Run, r: Run, format: Format, keys: seq<Key>, key: Key)
    ensures Described(l, r, format, keys + [key]) == Described(l, r, format, keys) + [ObservationOf(l, r, format, key)]
  {
    hide ObservationOf;
  }

  method AggregatedSide(run: Run, format: Format) returns (a: Aggregate)
    ensures AggregatedFrom(a, run, format)
  {
    a := Aggregated(run, format);
  }

  // ---------- comparison identity ----------

  /** Both sides admit the same (kind, operation, path, outcome) tuples. */
  ghost predicate SameTuples(l: Run, r: Run, format: Format) {
    forall key, outcome :: Saw(l, format, key, outcome) <==> Saw(r, format, key, outcome)
  }

  /** A key is unchanged exactly when both sides admit the same outcomes for it. */
  lemma UnchangedMeaning(l: Run, r: Run, format: Format, key: Key)
    ensures Changed(l, r, format, key) <==>
            exists o :: (Saw(l, format, key, o) && !Saw(r, format, key, o)) || (Saw(r, format, key, o) && !Saw(l, format, key, o))
  {
    hide Saw;
    var a, b := Held(l, format, key), Held(r, format, key);
    assert forall o :: o in a.Keys <==> Saw(l, format, key, o);
    assert forall o :: o in b.Keys <==> Saw(r, format, key, o);
    hide Held;
    if forall o :: o in a.Keys <==> o in b.Keys { assert a.Keys == b.Keys; }
  }

  lemma NothingChanged(l: Run, r: Run, format: Format)
    ensures ObservationChanges(l, r, format) == [] <==> forall k :: !Changed(l, r, format, k)
  {
    hide Changed;
    var keys := ChangeOrder(l, r, format);
    hide ChangeOrder;
    hide ObservationOf;
    hide KeyLess;
    assert |ObservationChanges(l, r, format)| == |keys|;
    if keys != [] { assert keys[0] in keys; }
  }

  lemma TuplesDecideChanges(l: Run, r: Run, format: Format)
    ensures (forall k :: !Changed(l, r, format, k)) <==> SameTuples(l, r, format)
  {
    hide Changed;
    hide Saw;
    if SameTuples(l, r, format) {
      forall key ensures !Changed(l, r, format, key) { UnchangedMeaning(l, r, format, key); }
    } else {
      var key, o :| !(Saw(l, format, key, o) <==> Saw(r, format, key, o));
      UnchangedMeaning(l, r, format, key);
    }
  }

  /** There is no observation change exactly when the admitted tuple sets are equal. */
  lemma NoChangeIffSameTuples(l: Run, r: Run, format: Format)
    ensures ObservationChanges(l, r, format) == [] <==> SameTuples(l, r, format)
  {
    hide *;
    NothingChanged(l, r, format);
    TuplesDecideChanges(l, r, format);
  }

  /** The identity of a change: which key, with which outcome sets, in which order. */
  datatype Identity = Identity(key: Key, left: seq<string>, right: seq<string>)

  function IdentityOf(change: Observation): Identity { Identity(change.key, change.left, change.right) }

  lemma SameOutcomes(l: Run, m: Run, format: Format, key: Key)
    requires SameTuples(l, m, format)
    ensures Held(l, format, key).Keys == Held(m, format, key).Keys
    ensures OutcomeOrder(Held(l, format, key)) == OutcomeOrder(Held(m, format, key))
  {
    hide Saw;
    var a, b := Held(l, format, key), Held(m, format, key);
    assert forall o :: o in a.Keys <==> Saw(l, format, key, o);
    assert forall o :: o in b.Keys <==> Saw(m, format, key, o);
    hide Held;
    hide OutcomeOrder;
    assert forall o :: o in a.Keys <==> o in b.Keys;
    assert a.Keys == b.Keys;
    OrdersDecideSets(a, b);
  }

  lemma SameChange(l: Run, l2: Run, r: Run, r2: Run, format: Format, key: Key)
    requires SameTuples(l, l2, format) && SameTuples(r, r2, format)
    ensures Changed(l, r, format, key) <==> Changed(l2, r2, format, key)
    ensures IdentityOf(ObservationOf(l, r, format, key)) == IdentityOf(ObservationOf(l2, r2, format, key))
  {
    SameOutcomes(l, l2, format, key);
    SameOutcomes(r, r2, format, key);
    hide SameTuples;
    hide Held;
    hide OutcomeOrder;
    hide KindOf;
    hide SideSamples;
    hide SideMappingOf;
  }

  lemma SameChangeOrder(l: Run, l2: Run, r: Run, r2: Run, format: Format)
    requires forall key :: Changed(l, r, format, key) <==> Changed(l2, r2, format, key)
    ensures ChangeOrder(l, r, format) == ChangeOrder(l2, r2, format)
  {
    hide Changed;
    hide KeyLess;
    KeyStrictTotal();
    var a, b := ChangeOrder(l, r, format), ChangeOrder(l2, r2, format);
    hide ChangeOrder;
    AscendingUnique(a, b, KeyLess);
  }

  /** Change identities depend on the tuple sets alone. */
  lemma ChangesDependOnTuples(l: Run, l2: Run, r: Run, r2: Run, format: Format)
    requires SameTuples(l, l2, format) && SameTuples(r, r2, format)
    ensures var a, b := ObservationChanges(l, r, format), ObservationChanges(l2, r2, format);
            |a| == |b| && forall x :: 0 <= x < |a| ==> IdentityOf(a[x]) == IdentityOf(b[x])
  {
    hide SameTuples;
    hide Changed;
    hide ObservationOf;
    hide IdentityOf;
    forall key
      ensures Changed(l, r, format, key) <==> Changed(l2, r2, format, key)
      ensures IdentityOf(ObservationOf(l, r, format, key)) == IdentityOf(ObservationOf(l2, r2, format, key))
    {
      SameChange(l, l2, r, r2, format, key);
    }
    SameChangeOrder(l, l2, r, r2, format);
    hide ChangeOrder;
    hide KeyLess;
  }

  /** The observed facts of a vector, without order, repetition, task IDs or coordinates. */
  ghost function Projection(events: seq<Event>): set<(Key, string)> {
    set i | 0 <= i < |events| && Observes(events[i]) :: (KeyOf(events[i]), events[i].outcome)
  }

  predicate SameFact(x: Event, y: Event) {
    x.kind == y.kind && x.operation == y.operation && x.path == y.path && x.outcome == y.outcome
  }

  ghost predicate Holds(events: seq<Event>, x: Event) {
    exists i :: 0 <= i < |events| && SameFact(x, events[i])
  }

  ghost predicate FactsWithin(xs: seq<Event>, ys: seq<Event>) {
    forall i :: 0 <= i < |xs| && Observes(xs[i]) ==> Holds(ys, xs[i])
  }

  /** Each compared event of one vector has its fact in the other, however often, wherever, under whatever PID. */
  ghost predicate SameFacts(xs: seq<Event>, ys: seq<Event>) { FactsWithin(xs, ys) && FactsWithin(ys, xs) }

  lemma ProjectionKept(xs: seq<Event>, ys: seq<Event>)
    requires SameFacts(xs, ys)
    ensures Projection(xs) == Projection(ys)
  {
    hide Projection;
    hide FactsWithin;
    ProjectionGrows(xs, ys);
    ProjectionGrows(ys, xs);
  }

  lemma ProjectionGrows(xs: seq<Event>, ys: seq<Event>)
    requires FactsWithin(xs, ys)
    ensures Projection(xs) <= Projection(ys)
  {
    forall i | 0 <= i < |xs| && Observes(xs[i]) ensures (KeyOf(xs[i]), xs[i].outcome) in Projection(ys) {
      assert Holds(ys, xs[i]);
      var j :| 0 <= j < |ys| && SameFact(xs[i], ys[j]);
      assert Observes(ys[j]) && KeyOf(ys[j]) == KeyOf(xs[i]);
    }
  }

  lemma SawIsProjected(run: Run, format: Format, key: Key, outcome: string)
    ensures Saw(run, format, key, outcome) <==> !Withheld(run, format) && (key, outcome) in Projection(run.events)
  {
  }

  /** Reordering, repeating or re-attributing events to other PIDs changes no change identity. */
  lemma ChangesSurviveRewriting(l: Run, l2: Run, r: Run, r2: Run, format: Format)
    requires l.storage == l2.storage && SameFacts(l.events, l2.events)
    requires r.storage == r2.storage && SameFacts(r.events, r2.events)
    ensures var a, b := ObservationChanges(l, r, format), ObservationChanges(l2, r2, format);
            |a| == |b| && forall x :: 0 <= x < |a| ==> IdentityOf(a[x]) == IdentityOf(b[x])
  {
    ProjectionKept(l.events, l2.events);
    ProjectionKept(r.events, r2.events);
    hide SameFacts;
    hide Projection;
    hide Saw;
    forall key, o
      ensures Saw(l, format, key, o) <==> Saw(l2, format, key, o)
      ensures Saw(r, format, key, o) <==> Saw(r2, format, key, o)
    {
      SawIsProjected(l, format, key, o);
      SawIsProjected(l2, format, key, o);
      SawIsProjected(r, format, key, o);
      SawIsProjected(r2, format, key, o);
    }
    assert SameTuples(l, l2, format) && SameTuples(r, r2, format);
    hide SameTuples;
    ChangesDependOnTuples(l, l2, r, r2, format);
  }

  lemma MembersWithin(xs: seq<Event>, ys: seq<Event>)
    requires forall e :: e in xs ==> e in ys
    ensures FactsWithin(xs, ys)
  {
    forall i | 0 <= i < |xs| && Observes(xs[i]) ensures Holds(ys, xs[i]) {
      assert xs[i] in xs;
      var j :| 0 <= j < |ys| && ys[j] == xs[i];
      assert SameFact(xs[i], ys[j]);
    }
  }

  /** The row with every task renamed, a spawn's result included. */
  function Renamed(e: Event, rename: string -> string): Event {
    var child := match e.childPid case Some(pid) => Some(rename(pid)) case None => None;
    e.(pid := rename(e.pid), childPid := child, path := if e.kind == "spawn" then child else e.path)
  }

  lemma RenamingKeepsFacts(xs: seq<Event>, rename: string -> string, zs: seq<Event>)
    requires |zs| == |xs| && forall i :: 0 <= i < |zs| ==> zs[i] == Renamed(xs[i], rename)
    ensures SameFacts(xs, zs)
  {
    forall i | 0 <= i < |xs| && Observes(xs[i]) ensures Holds(zs, xs[i]) {
      assert SameFact(xs[i], zs[i]);
    }
    forall i | 0 <= i < |zs| && Observes(zs[i]) ensures Holds(xs, zs[i]) {
      assert SameFact(zs[i], xs[i]);
    }
  }

  lemma WithinComposes(xs: seq<Event>, ys: seq<Event>, zs: seq<Event>)
    requires FactsWithin(xs, ys) && FactsWithin(ys, zs)
    ensures FactsWithin(xs, zs)
  {
    forall i | 0 <= i < |xs| && Observes(xs[i]) ensures Holds(zs, xs[i]) {
      assert Holds(ys, xs[i]);
      var j :| 0 <= j < |ys| && SameFact(xs[i], ys[j]);
      assert Holds(zs, ys[j]);
      var k :| 0 <= k < |zs| && SameFact(ys[j], zs[k]);
      assert SameFact(xs[i], zs[k]);
    }
  }

  /** Permuting a vector, appending repetitions and renaming every task are such rewritings. */
  lemma RewritingsKeepFacts(xs: seq<Event>, ys: seq<Event>, again: seq<Event>, rename: string -> string, zs: seq<Event>)
    requires multiset(ys) == multiset(xs) && (forall e :: e in again ==> e in xs)
    requires |zs| == |ys + again|
    requires forall i :: 0 <= i < |zs| ==> zs[i] == Renamed((ys + again)[i], rename)
    ensures SameFacts(xs, zs)
  {
    hide FactsWithin;
    RenamingKeepsFacts(ys + again, rename, zs);
    assert forall e :: e in xs <==> e in multiset(xs);
    assert forall e :: e in ys <==> e in multiset(ys);
    MembersWithin(xs, ys + again);
    MembersWithin(ys + again, xs);
    WithinComposes(xs, ys + again, zs);
    WithinComposes(zs, ys + again, xs);
  }

  function MirroredKind(kind: ChangeKind): ChangeKind {
    match kind
    case NewFileAccess => RemovedFileAccess
    case RemovedFileAccess => NewFileAccess
    case _ => kind
  }

  /** One change seen from the other side. */
  predicate Mirrored(a: Observation, b: Observation) {
    && b.key == a.key && b.left == a.right && b.right == a.left
    && b.leftSamples == a.rightSamples && b.rightSamples == a.leftSamples
    && b.kind == MirroredKind(a.kind)
    && b.mapping == (match a.mapping case Some((left, right)) => Some((right, left)) case None => None)
  }

  lemma MirrorKind(key: Key, left: seq<string>, right: seq<string>)
    requires left != right
    ensures KindOf(key, right, left) == MirroredKind(KindOf(key, left, right))
  {
    assert forall o :: o in left + right <==> o in right + left;
  }

  lemma ChangedOrders(l: Run, r: Run, format: Format, key: Key)
    requires Changed(l, r, format, key)
    ensures OutcomeOrder(Held(l, format, key)) != OutcomeOrder(Held(r, format, key))
  {
    var a, b := Held(l, format, key), Held(r, format, key);
    hide Held;
    var o :| !(o in a.Keys <==> o in b.Keys);
    assert o in OutcomeOrder(a) <==> o in a.Keys;
    assert o in OutcomeOrder(b) <==> o in b.Keys;
  }

  lemma MirrorChange(l: Run, r: Run, format: Format, key: Key)
    ensures Changed(l, r, format, key) <==> Changed(r, l, format, key)
    ensures Changed(l, r, format, key) ==>
              Mirrored(ObservationOf(l, r, format, key), ObservationOf(r, l, format, key))
  {
    hide Held;
    hide OutcomeOrder;
    hide KindOf;
    hide SideSamples;
    hide SideMappingOf;
    if Changed(l, r, format, key) {
      ChangedOrders(l, r, format, key);
      MirrorKind(key, OutcomeOrder(Held(l, format, key)), OutcomeOrder(Held(r, format, key)));
    }
  }

  lemma SwappedOrder(l: Run, r: Run, format: Format)
    ensures ChangeOrder(r, l, format) == ChangeOrder(l, r, format)
  {
    hide Changed;
    hide ObservationOf;
    hide Mirrored;
    hide ChangeOrder;
    forall key ensures Changed(l, r, format, key) <==> Changed(r, l, format, key) {
      MirrorChange(l, r, format, key);
    }
    SameChangeOrder(l, r, r, l, format);
  }

  lemma SwappedChange(l: Run, r: Run, format: Format, x: nat)
    requires x < |ObservationChanges(l, r, format)| == |ObservationChanges(r, l, format)|
    requires ChangeOrder(r, l, format) == ChangeOrder(l, r, format)
    ensures Mirrored(ObservationChanges(l, r, format)[x], ObservationChanges(r, l, format)[x])
  {
    hide *;
    var keys := ChangeOrder(l, r, format);
    assert keys[x] in keys;
    MirrorChange(l, r, format, keys[x]);
  }

  /** Swapping the sides keeps keys and production order, exchanges outcomes, samples and mappings, and turns
      new accesses into removed ones and back; other kinds stay as they are. */
  lemma SwapKeepsOrder(l: Run, r: Run, format: Format)
    ensures var a, b := ObservationChanges(l, r, format), ObservationChanges(r, l, format);
            |a| == |b| && forall x :: 0 <= x < |a| ==> Mirrored(a[x], b[x])
  {
    hide *;
    SwappedOrder(l, r, format);
    var a, b := ObservationChanges(l, r, format), ObservationChanges(r, l, format);
    forall x | 0 <= x < |a| ensures Mirrored(a[x], b[x]) { SwappedChange(l, r, format, x); }
  }

  // ---------- complete references of a changed key ----------

  lemma {:induction false} MappedAt(events: seq<Event>, m: map<string, seq<nat>>, keys: seq<string>)
    requires Within(events, m, keys)
    ensures var r := MappedOutcomes(events, m, keys);
            && |r| == |keys|
            && forall x :: 0 <= x < |keys| ==>
                 && keys[x] in keys
                 && r[x] == OutcomeReferences(keys[x], |m[keys[x]]|, References(events, m[keys[x]]))
  {
    if keys != [] {
      MappedAt(events, m, keys[..|keys| - 1]);
      hide References;
      hide InVector;
    }
  }

  /** A reference locates one saved occurrence of its key under its own outcome. */
  predicate Locates(run: Run, key: Key, outcome: string, r: EventReference) {
    && r.index < |run.events| && Supports(run.events[r.index], key)
    && run.events[r.index].outcome == outcome && r.evidence == run.events[r.index].evidence
  }

  /** References of one outcome: every supporting index once, in increasing order. */
  ghost predicate LocatesAll(run: Run, key: Key, o: OutcomeReferences) {
    && o.count == |o.events|
    && (forall y :: 0 <= y < |o.events| ==> Locates(run, key, o.outcome, o.events[y]))
    && (forall y, z :: 0 <= y < z < |o.events| ==> o.events[y].index < o.events[z].index)
    && (forall i :: 0 <= i < |run.events| && Supports(run.events[i], key) && run.events[i].outcome == o.outcome ==>
          exists y :: 0 <= y < |o.events| && o.events[y].index == i)
  }

  lemma OutcomeLocated(run: Run, format: Format, key: Key, o: string)
    requires o in Held(run, format, key) && InVector(run.events, Held(run, format, key)[o])
    ensures LocatesAll(run, key, OutcomeReferences(o, |Held(run, format, key)[o]|,
                                                   References(run.events, Held(run, format, key)[o])))
  {
    var s := Held(run, format, key)[o];
    IndicesMeaning(run.events, |run.events|, key, o);
    assert s == IndicesOf(run.events, |run.events|, key, o);
    hide Held;
    IndicesLocated(run, key, o, s);
  }

  lemma IndicesLocated(run: Run, key: Key, o: string, s: seq<nat>)
    requires InVector(run.events, s) && Increasing(s)
    requires forall i: nat :: i in s <==> i < |run.events| && Supports(run.events[i], key) && run.events[i].outcome == o
    ensures LocatesAll(run, key, OutcomeReferences(o, |s|, References(run.events, s)))
  {
    hide Supports;
    var r := References(run.events, s);
    forall y | 0 <= y < |r| ensures Locates(run, key, o, r[y]) { assert s[y] in s; }
    forall i | 0 <= i < |run.events| && Supports(run.events[i], key) && run.events[i].outcome == o
      ensures exists y :: 0 <= y < |r| && r[y].index == i
    {
      assert i in s;
      var y :| 0 <= y < |s| && s[y] == i;
      assert r[y].index == i;
    }
  }

  /** Explicit references are exactly the saved events of the changed key, outcome by outcome in order. */
  lemma MappingExact(run: Run, format: Format, key: Key, other: Run, x: nat)
    requires run.storage != "unfinalized" && x < |OutcomeOrder(Held(run, format, key))|
    ensures var mapping := SideMappingOf(run, format, key, other); var keys := OutcomeOrder(Held(run, format, key));
            && mapping.source == NormalizedEvents && |mapping.outcomes| == |keys|
            && mapping.outcomes[x].outcome == keys[x] && LocatesAll(run, key, mapping.outcomes[x])
  {
    var m := Held(run, format, key);
    var keys := OutcomeOrder(m);
    HeldIsProper(run, format, key);
    MappedAt(run.events, m, keys);
    assert keys[x] in keys;
    OutcomeLocated(run, format, key, keys[x]);
    hide Held;
    hide OutcomeOrder;
    hide Proper;
    hide LocatesAll;
    hide References;
    hide MappedOutcomes;
    hide SamplesOf;
    hide Occurrences;
    hide InVector;
  }

  /** Samples of a mapping are at most three of its own occurrences, so no omitted count is negative. */
  lemma SamplesWithinMapping(run: Run, format: Format, key: Key, other: Run)
    requires run.storage != "unfinalized"
    ensures var mapping := SideMappingOf(run, format, key, other);
            && mapping.sampleCount == |mapping.samples| <= 3
            && mapping.eventCount.Some? && mapping.sampleCount <= mapping.eventCount.value
            && mapping.omitted == Some(mapping.eventCount.value - mapping.sampleCount)
            && (OutcomeOrder(Held(run, format, key)) != [] ==> mapping.samples != [])
  {
    hide *;
    var m, keys := Held(run, format, key), OutcomeOrder(Held(run, format, key));
    var samples := SideSamples(run, format, key, other);
    var mapping := MappingOfSide(run, format, key, other);
    SideSamplesBounded(run, format, key, other);
    MappingCounts(run, m, keys, samples);
  }

  lemma MappingOfSide(run: Run, format: Format, key: Key, other: Run) returns (mapping: SideMapping)
    ensures var m := Held(run, format, key); var keys := OutcomeOrder(m);
            && Within(run.events, m, keys) && mapping == SideMappingOf(run, format, key, other)
            && mapping == NormalizedMapping(run, m, keys, SideSamples(run, format, key, other))
  {
    hide Held;
    hide OutcomeOrder;
    hide SideSamples;
    hide NormalizedMapping;
    hide Proper;
    hide Within;
    HeldIsProper(run, format, key);
    mapping := SideMappingOf(run, format, key, other);
  }

  lemma SideSamplesBounded(run: Run, format: Format, key: Key, other: Run)
    ensures var m := Held(run, format, key); var samples := SideSamples(run, format, key, other);
            && |samples| <= 3 && |samples| <= |Occurrences(m, OutcomeOrder(m))|
            && (OutcomeOrder(m) != [] ==> samples != [])
  {
    hide Held;
    hide OutcomeOrder;
    hide Proper;
    hide Within;
    hide SamplesOf;
    hide Occurrences;
    HeldIsProper(run, format, key);
    var m := Held(run, format, key);
    SampleCounts(run.events, m, OutcomeOrder(m), Held(other, format, key));
  }

  lemma SampleCounts(events: seq<Event>, m: map<string, seq<nat>>, keys: seq<string>, other: map<string, seq<nat>>)
    requires Proper(events, m, keys)
    ensures var samples := SamplesOf(events, m, keys, other);
            |samples| <= 3 && |samples| <= |Occurrences(m, keys)| && (keys != [] ==> samples != [])
  {
    hide *;
    SamplesSound(events, m, keys, other);
  }

  lemma MappingCounts(run: Run, m: map<string, seq<nat>>, keys: seq<string>, samples: seq<nat>)
    requires run.storage != "unfinalized" && Within(run.events, m, keys)
    ensures var mapping := NormalizedMapping(run, m, keys, samples);
            && mapping.samples == samples && mapping.sampleCount == |samples|
            && mapping.eventCount == Some(|Occurrences(m, keys)|)
            && mapping.omitted == Some(|Occurrences(m, keys)| - |samples|)
  {
    hide MappedOutcomes;
    hide Occurrences;
    hide Within;
  }

  /** No saved event is listed under two outcomes. */
  lemma ReferencesDistinct(run: Run, key: Key, a: OutcomeReferences, b: OutcomeReferences, y: nat, z: nat)
    requires LocatesAll(run, key, a) && LocatesAll(run, key, b) && y < |a.events| && z < |b.events|
    requires a.events[y].index == b.events[z].index
    ensures a.outcome == b.outcome
  {
    assert Locates(run, key, a.outcome, a.events[y]) && Locates(run, key, b.outcome, b.events[z]);
  }

  /** An explicit report withholds unfinalized observations instead of comparing them. */
  lemma WithheldSideHoldsNothing(run: Run, key: Key)
    requires run.storage == "unfinalized"
    ensures Held(run, OutcomeV6, key) == map[]
    ensures run.events == [] ==> Held(run, TraceV5, key) == map[]
  {
  }
}
