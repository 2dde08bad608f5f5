/** Merging two ascending key sequences into the ascending union. */
module Merge {
  import opened Ordered

  /** `all` is the ascending union of two ascending sequences. */
  ghost predicate Union<K(!new)>(left: seq<K>, right: seq<K>, all: seq<K>, lt: (K, K) -> bool) {
    && StrictTotal(lt) && Ascending(left, lt) && Ascending(right, lt) && Ascending(all, lt)
    && forall k :: k in all <==> k in left || k in right
  }

  /** `i` keys of one side are among the first `n` of the union, and no others. */
  ghost predicate Cursor<K>(keys: seq<K>, i: nat, all: seq<K>, n: nat)
    requires n <= |all|
  {
    i <= |keys| && forall p :: 0 <= p < |keys| ==> (keys[p] in all[..n] <==> p < i)
  }

  ghost predicate AtMost<K(!new)>(key: K, other: K, lt: (K, K) -> bool) { key == other || lt(key, other) }

  lemma Started<K>(keys: seq<K>, all: seq<K>)
    ensures Cursor(keys, 0, all, 0)
  {
  }

  /** A key at or above both heads of the rest is at most every key still to come. */
  lemma RestAbove<K(!new)>(keys: seq<K>, i: nat, all: seq<K>, n: nat, lt: (K, K) -> bool, key: K, other: K)
    requires StrictTotal(lt) && Ascending(keys, lt) && n <= |all| && Cursor(keys, i, all, n)
    requires i < |keys| ==> AtMost(key, keys[i], lt)
    requires other in keys && other !in all[..n]
    ensures AtMost(key, other, lt)
  {
    var p :| 0 <= p < |keys| && keys[p] == other;
    HeadBelow(keys, lt, i, p, key);
  }

  /** The smaller head of the two sides is the next key of the union. */
  lemma NextKey<K(!new)>(left: seq<K>, right: seq<K>, all: seq<K>, lt: (K, K) -> bool, i: nat, j: nat, n: nat, key: K)
    requires Union(left, right, all, lt) && n <= |all|
    requires Cursor(left, i, all, n) && Cursor(right, j, all, n)
    requires (i < |left| && key == left[i]) || (j < |right| && key == right[j])
    requires i < |left| ==> AtMost(key, left[i], lt)
    requires j < |right| ==> AtMost(key, right[j], lt)
    ensures n < |all| && key == all[n]
  {
    assert key in all && key !in all[..n];
    var at :| 0 <= at < |all| && all[at] == key;
    PositionIn(all, lt, at, n);
    PositionIn(all, lt, n, n);
    var least := all[n];
    assert AtMost(least, key, lt);
    assert least in all;
    if least in left {
      RestAbove(left, i, all, n, lt, key, least);
    } else {
      RestAbove(right, j, all, n, lt, key, least);
    }
  }

  /** Consuming the next union key advances a side exactly when the side holds it. */
  lemma CursorStep<K(!new)>(keys: seq<K>, i: nat, all: seq<K>, lt: (K, K) -> bool, n: nat, taken: bool)
    requires StrictTotal(lt) && Ascending(keys, lt) && Ascending(all, lt) && n < |all| && Cursor(keys, i, all, n)
    requires i < |keys| ==> AtMost(all[n], keys[i], lt)
    requires taken <==> i < |keys| && keys[i] == all[n]
    ensures Cursor(keys, if taken then i + 1 else i, all, n + 1)
    ensures taken <==> all[n] in keys
  {
    assert all[..n + 1] == all[..n] + [all[n]];
    PositionIn(all, lt, n, n);
    forall p | 0 <= p < |keys| ensures keys[p] == all[n] <==> taken && p == i {
      if p >= i { HeadBelow(keys, lt, i, p, all[n]); }
    }
    if all[n] in keys {
      var p :| 0 <= p < |keys| && keys[p] == all[n];
    }
  }

  lemma Finished<K(!new)>(left: seq<K>, right: seq<K>, all: seq<K>, lt: (K, K) -> bool, n: nat)
    requires Union(left, right, all, lt) && n <= |all|
    requires Cursor(left, |left|, all, n) && Cursor(right, |right|, all, n)
    ensures n == |all|
  {
    if n < |all| {
      assert all[n] in all;
      PositionIn(all, lt, n, n);
    }
  }

  /** One round of the join, with its two cursor decisions. */
  lemma MergeStep<K(!new)>(left: seq<K>, right: seq<K>, all: seq<K>, lt: (K, K) -> bool, i: nat, j: nat, n: nat,
                           takeLeft: bool, takeRight: bool, key: K)
    requires Union(left, right, all, lt) && n <= |all| && Cursor(left, i, all, n) && Cursor(right, j, all, n)
    requires i < |left| || j < |right|
    requires takeLeft <==> i < |left| && (j == |right| || !lt(right[j], left[i]))
    requires takeRight <==> j < |right| && (i == |left| || !lt(left[i], right[j]))
    requires key == if takeLeft then left[i] else right[j]
    ensures n < |all| && key == all[n]
    ensures Cursor(left, if takeLeft then i + 1 else i, all, n + 1)
    ensures Cursor(right, if takeRight then j + 1 else j, all, n + 1)
    ensures (takeLeft <==> key in left) && (takeRight <==> key in right) && (takeLeft || takeRight)
  {
    NextKey(left, right, all, lt, i, j, n, key);
    CursorStep(left, i, all, lt, n, takeLeft);
    CursorStep(right, j, all, lt, n, takeRight);
  }
}
