/** Occurrence buckets of the comparison engine.

    A bucket keeps the saved event indices of one observation by outcome. One outcome is stored
    inline; a second distinct outcome promotes the bucket to an ordered map.
 */
module Buckets {
  import opened Ordered

  datatype Bucket =
    | Empty
    | Single(outcome: string, indices: seq<nat>)
    | Multiple(outcomes: map<string, seq<nat>>)

  /** The map every representation stands for. */
  function Contents(b: Bucket): map<string, seq<nat>> {
    match b
    case Empty => map[]
    case Single(outcome, indices) => map[outcome := indices]
    case Multiple(outcomes) => outcomes
  }

  /** A completed bucket: nothing empty, and the map form only for two outcomes or more. */
  predicate Completed(b: Bucket) {
    && (b.Multiple? ==> |b.outcomes| >= 2)
    && forall o :: o in Contents(b) ==> Contents(b)[o] != []
  }

  function At(contents: map<string, seq<nat>>, outcome: string): seq<nat> {
    if outcome in contents then contents[outcome] else []
  }

  /** Find or create the outcome's vector and push one occurrence: the abstract effect. */
  function Recorded(contents: map<string, seq<nat>>, outcome: string, index: nat): map<string, seq<nat>> {
    contents[outcome := At(contents, outcome) + [index]]
  }

  /** The in-place bucket operation, with its promotion step. */
  method Record(before: Bucket, outcome: string, index: nat) returns (b: Bucket)
    requires Completed(before)
    ensures Contents(b) == Recorded(Contents(before), outcome, index)
    ensures Completed(b) && b != Empty
  {
    b := before;
    if b.Single? && b.outcome != outcome {
      b := Multiple(map[b.outcome := b.indices]);
      TwoKeys(before.outcome, outcome, before.indices, [index]);
    }
    match b {
      case Empty =>
        assert At(map[], outcome) + [index] == [index];
        b := Single(outcome, [index]);
      case Single(key, indices) =>
        b := Single(key, indices + [index]);
      case Multiple(outcomes) =>
        assert before.Single? ==> At(outcomes, outcome) + [index] == [index];
        b := Multiple(outcomes[outcome := At(outcomes, outcome) + [index]]);
        if before.Multiple? { GrowsBy(outcomes, outcome, At(outcomes, outcome) + [index]); }
    }
  }

  lemma TwoKeys(a: string, b: string, x: seq<nat>, y: seq<nat>)
    requires a != b
    ensures |map[a := x][b := y]| >= 2
  {
    var m := map[a := x][b := y];
    assert m.Keys == {a, b};
    assert |m| == |m.Keys|;
  }

  lemma GrowsBy(m: map<string, seq<nat>>, key: string, value: seq<nat>)
    ensures |m[key := value]| >= |m|
  {
    assert m[key := value].Keys == m.Keys + {key};
    assert |m[key := value]| == |m[key := value].Keys| && |m| == |m.Keys|;
    assert m.Keys + {key} == m.Keys + ({key} - m.Keys);
  }

  predicate ContainsKey(b: Bucket, outcome: string) {
    match b
    case Empty => false
    case Single(key, _) => key == outcome
    case Multiple(outcomes) => outcome in outcomes
  }

  /** Lookup, emptiness and ordered iteration all read the abstract map. */
  lemma ReadsContents(b: Bucket, outcome: string)
    requires Completed(b)
    ensures ContainsKey(b, outcome) <==> outcome in Contents(b)
    ensures b.Empty? <==> Contents(b) == map[]
  {
    if b.Multiple? { assert |b.outcomes| == |b.outcomes.Keys|; }
    if b.Single? { assert b.outcome in Contents(b); }
  }

  /** Outcomes in iteration order. */
  ghost function Keys(b: Bucket): (keys: seq<string>)
    ensures Ascending(keys, LexLess) && forall o :: o in keys <==> o in Contents(b)
  {
    LexStrictTotal();
    match b
    case Empty => []
    case Single(outcome, _) => [outcome]
    case Multiple(outcomes) => Sorted(outcomes.Keys, LexLess)
  }

  /** Iteration order depends on the outcome set alone, so sequence equality is set equality. */
  lemma KeysDecideSets(a: Bucket, b: Bucket)
    ensures Keys(a) == Keys(b) <==> Contents(a).Keys == Contents(b).Keys
  {
    LexStrictTotal();
    if Contents(a).Keys == Contents(b).Keys {
      assert forall o :: o in Keys(a) <==> o in Keys(b);
      AscendingUnique(Keys(a), Keys(b), LexLess);
    }
    if Keys(a) == Keys(b) {
      assert forall o :: o in Contents(a) <==> o in Contents(b);
    }
  }

  // ---------- any sequence of recordings ----------

  datatype Push = Push(outcome: string, index: nat)

  /** Indices pushed under one outcome, in push order. */
  function Under(pushes: seq<Push>, outcome: string): seq<nat> {
    if pushes == [] then []
    else
      var last := pushes[|pushes| - 1];
      Under(pushes[..|pushes| - 1], outcome) + (if last.outcome == outcome then [last.index] else [])
  }

  lemma {:induction false} UnderEmpty(pushes: seq<Push>, outcome: string)
    ensures Under(pushes, outcome) == [] <==> forall i :: 0 <= i < |pushes| ==> pushes[i].outcome != outcome
  {
    if pushes != [] { UnderEmpty(pushes[..|pushes| - 1], outcome); }
  }

  /** Any number of pushes loses and invents nothing, in any order. */
  method RecordAll(pushes: seq<Push>) returns (b: Bucket)
    ensures Completed(b)
    ensures forall o :: o in Contents(b) <==> exists i :: 0 <= i < |pushes| && pushes[i].outcome == o
    ensures forall o :: At(Contents(b), o) == Under(pushes, o)
  {
    b := Empty;
    var n := 0;
    while n < |pushes|
      invariant 0 <= n <= |pushes| && Completed(b)
      invariant forall o :: At(Contents(b), o) == Under(pushes[..n], o)
    {
      b := Record(b, pushes[n].outcome, pushes[n].index);
      n := n + 1;
      assert pushes[..n][..n - 1] == pushes[..n - 1];
    }
    assert pushes[..n] == pushes;
    forall o ensures o in Contents(b) <==> exists i :: 0 <= i < |pushes| && pushes[i].outcome == o {
      UnderEmpty(pushes, o);
      assert At(Contents(b), o) == Under(pushes, o);
    }
  }
}
