/** Grouping saved events by kind, operation and path, and joining two such groupings. */
module Aggregation {
  import opened Ordered
  import opened Records
  import opened Buckets
  import opened Merge

  datatype Key = Key(kind: string, operation: string, path: string)

  datatype Format = Automatic | TraceV5 | OutcomeV6

  // ---------- key order ----------

  /** Tuple order over lexical components. */
  predicate KeyLess(a: Key, b: Key) {
    || LexLess(a.kind, b.kind)
    || (a.kind == b.kind &&
        (LexLess(a.operation, b.operation) || (a.operation == b.operation && LexLess(a.path, b.path))))
  }

  lemma KeyStrictTotal()
    ensures StrictTotal(KeyLess)
  {
    LexStrictTotal();
    forall a: Key ensures !KeyLess(a, a) { }
    forall a: Key, b: Key ensures a == b || KeyLess(a, b) || KeyLess(b, a) {
      assert a == Key(a.kind, a.operation, a.path) && b == Key(b.kind, b.operation, b.path);
    }
    forall a: Key, b: Key, c: Key | KeyLess(a, b) && KeyLess(b, c) ensures KeyLess(a, c) { }
  }

  // ---------- admission and grouping ----------

  predicate Withheld(run: Run, format: Format) { format.OutcomeV6? && run.storage == "unfinalized" }

  predicate Observes(e: Event) { (e.kind == "file" || e.kind == "exec") && e.path.Some? }

  function KeyOf(e: Event): Key
    requires e.path.Some?
  {
    Key(e.kind, e.operation, e.path.value)
  }

  predicate Supports(e: Event, key: Key) { Observes(e) && KeyOf(e) == key }

  /** Saved indices supporting one outcome of one key, ascending. */
  function IndicesOf(events: seq<Event>, n: nat, key: Key, outcome: string): seq<nat>
    requires n <= |events|
  {
    if n == 0 then []
    else
      IndicesOf(events, n - 1, key, outcome) +
      (if Supports(events[n - 1], key) && events[n - 1].outcome == outcome then [n - 1] else [])
  }

  predicate Increasing(s: seq<nat>) { forall i, j :: 0 <= i < j < |s| ==> s[i] < s[j] }

  lemma {:induction false} IndicesMeaning(events: seq<Event>, n: nat, key: Key, outcome: string)
    requires n <= |events|
    ensures Increasing(IndicesOf(events, n, key, outcome))
    ensures forall i: nat :: i in IndicesOf(events, n, key, outcome) <==>
              i < n && Supports(events[i], key) && events[i].outcome == outcome
  {
    if n > 0 {
      IndicesMeaning(events, n - 1, key, outcome);
      var front := IndicesOf(events, n - 1, key, outcome);
      assert forall k :: 0 <= k < |front| ==> front[k] in front;
    }
  }

  type Aggregate = map<Key, Bucket>

  function BucketAt(a: Aggregate, key: Key): Bucket { if key in a then a[key] else Empty }

  /** Every bucket holds exactly the saved indices of its key, outcome by outcome. */
  ghost predicate Exact(a: Aggregate, events: seq<Event>, n: nat)
    requires n <= |events|
  {
    && (forall k :: k in a ==> a[k] != Empty && Completed(a[k]))
    && (forall k, o :: At(Contents(BucketAt(a, k)), o) == IndicesOf(events, n, k, o))
  }

  method Aggregated(run: Run, format: Format) returns (a: Aggregate)
    ensures Withheld(run, format) ==> a == map[]
    ensures !Withheld(run, format) ==> Exact(a, run.events, |run.events|)
  {
    hide Exact;
    hide Completed;
    hide Contents;
    a := map[];
    if format.OutcomeV6? && run.storage == "unfinalized" { return; }
    NothingExact(run.events);
    var i := 0;
    while i < |run.events|
      invariant 0 <= i <= |run.events| && Exact(a, run.events, i)
    {
      var e := run.events[i];
      if (e.kind == "file" || e.kind == "exec") && e.path.Some? {
        var key := KeyOf(e);
        BucketCompleted(a, run.events, i, key);
        var bucket := Record(BucketAt(a, key), e.outcome, i);
        RecordedExactly(a, a[key := bucket], run.events, i, bucket);
        a := a[key := bucket];
      } else {
        SkippedExactly(a, run.events, i);
      }
      i := i + 1;
    }
  }

  lemma NothingExact(events: seq<Event>)
    ensures Exact(map[], events, 0)
  {
  }

  lemma BucketCompleted(a: Aggregate, events: seq<Event>, n: nat, key: Key)
    requires n <= |events| && Exact(a, events, n)
    ensures Completed(BucketAt(a, key))
  {
  }

  lemma SkippedExactly(a: Aggregate, events: seq<Event>, i: nat)
    requires i < |events| && Exact(a, events, i) && !Observes(events[i])
    ensures Exact(a, events, i + 1)
  {
    hide Completed;
    hide Contents;
    forall k, o ensures At(Contents(BucketAt(a, k)), o) == IndicesOf(events, i + 1, k, o) {
      assert At(Contents(BucketAt(a, k)), o) == IndicesOf(events, i, k, o);
    }
  }

  lemma RecordedExactly(before: Aggregate, after: Aggregate, events: seq<Event>, i: nat, bucket: Bucket)
    requires i < |events| && Exact(before, events, i) && Observes(events[i])
    requires after == before[KeyOf(events[i]) := bucket] && Completed(bucket) && bucket != Empty
    requires Contents(bucket) == Recorded(Contents(BucketAt(before, KeyOf(events[i]))), events[i].outcome, i)
    ensures Exact(after, events, i + 1)
  {
    var key := KeyOf(events[i]);
    forall k, o ensures At(Contents(BucketAt(after, k)), o) == IndicesOf(events, i + 1, k, o) {
      assert At(Contents(BucketAt(before, k)), o) == IndicesOf(events, i, k, o);
    }
  }

  /** A key is present exactly when some saved event supports it. */
  lemma PresentKeys(a: Aggregate, events: seq<Event>, key: Key)
    requires Exact(a, events, |events|)
    ensures key in a <==> exists i :: 0 <= i < |events| && Supports(events[i], key)
  {
    if key in a {
      ReadsContents(a[key], "");
      var o :| o in Contents(a[key]);
      assert At(Contents(BucketAt(a, key)), o) != [];
      IndicesMeaning(events, |events|, key, o);
      var i := IndicesOf(events, |events|, key, o)[0];
      assert i in IndicesOf(events, |events|, key, o);
    }
    if exists i :: 0 <= i < |events| && Supports(events[i], key) {
      var i :| 0 <= i < |events| && Supports(events[i], key);
      IndicesMeaning(events, |events|, key, events[i].outcome);
      assert i in IndicesOf(events, |events|, key, events[i].outcome);
      assert At(Contents(BucketAt(a, key)), events[i].outcome) != [];
    }
  }

  // ---------- the merge-join ----------

  datatype Joined = Joined(key: Key, left: Option<Bucket>, right: Option<Bucket>)

  function Side(a: Aggregate, key: Key): Option<Bucket> { if key in a then Some(a[key]) else None }

  function Row(a: Aggregate, b: Aggregate, key: Key): Joined { Joined(key, Side(a, key), Side(b, key)) }

  /** Keys in map iteration order. */
  ghost function KeyOrder(a: Aggregate): (keys: seq<Key>)
    ensures Ascending(keys, KeyLess) && forall k :: k in keys <==> k in a
  {
    KeyStrictTotal();
    Sorted(a.Keys, KeyLess)
  }

  /** The lexical key union. */
  ghost function UnionOrder(a: Aggregate, b: Aggregate): (keys: seq<Key>)
    ensures Ascending(keys, KeyLess) && forall k :: k in keys <==> k in a || k in b
  {
    KeyStrictTotal();
    Sorted(a.Keys + b.Keys, KeyLess)
  }

  lemma UnionOfKeys(a: Aggregate, b: Aggregate)
    ensures Union(KeyOrder(a), KeyOrder(b), UnionOrder(a, b), KeyLess)
  {
    KeyStrictTotal();
    hide KeyLess;
  }

  /** Consume the ordered union of two aggregates, advancing the smaller key or both equal ones. */
  method OrderedAggregates(a: Aggregate, b: Aggregate, left: seq<Key>, right: seq<Key>, ghost all: seq<Key>)
    returns (rows: seq<Joined>)
    requires Union(left, right, all, KeyLess)
    requires forall k :: k in left <==> k in a
    requires forall k :: k in right <==> k in b
    ensures |rows| == |all| && forall x :: 0 <= x < |rows| ==> rows[x] == Row(a, b, all[x])
  {
    hide Cursor;
    hide KeyLess;
    hide Union;
    Started(left, all);
    Started(right, all);
    rows := [];
    var i, j := 0, 0;
    while i < |left| || j < |right|
      invariant i <= |left| && j <= |right|
      invariant |rows| <= |all| && Cursor(left, i, all, |rows|) && Cursor(right, j, all, |rows|)
      invariant forall x :: 0 <= x < |rows| ==> rows[x] == Row(a, b, all[x])
      decreases |left| - i + |right| - j
    {
      var takeLeft := i < |left| && (j == |right| || !KeyLess(right[j], left[i]));
      var takeRight := j < |right| && (i == |left| || !KeyLess(left[i], right[j]));
      var key := if takeLeft then left[i] else right[j];
      MergeStep(left, right, all, KeyLess, i, j, |rows|, takeLeft, takeRight, key);
      var row := Joined(key, if takeLeft then Some(a[key]) else None, if takeRight then Some(b[key]) else None);
      assert row == Row(a, b, all[|rows|]);
      rows := rows + [row];
      i, j := if takeLeft then i + 1 else i, if takeRight then j + 1 else j;
    }
    Finished(left, right, all, KeyLess, |rows|);
  }
}
