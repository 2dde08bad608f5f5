/** Strict total orders and the ascending enumeration of a finite set.

    The recorder relies on ordered maps, ordered sets and stable sorts by distinct keys. All of
    them enumerate a finite set in the unique ascending order of some strict total order.
 */
module Ordered {

  datatype Option<+T> = None | Some(value: T)

  ghost predicate StrictTotal<K(!new)>(lt: (K, K) -> bool) {
    && (forall a :: !lt(a, a))
    && (forall a, b :: a == b || lt(a, b) || lt(b, a))
    && (forall a, b, c :: lt(a, b) && lt(b, c) ==> lt(a, c))
  }

  ghost predicate Ascending<K>(s: seq<K>, lt: (K, K) -> bool) {
    forall i, j :: 0 <= i < j < |s| ==> lt(s[i], s[j])
  }

  ghost function Elements<K>(s: seq<K>): set<K> {
    set x | x in s
  }

  ghost predicate IsLeast<K(!new)>(s: set<K>, lt: (K, K) -> bool, x: K) {
    x in s && forall y :: y in s ==> y == x || lt(x, y)
  }

  /** The least element of a nonempty finite set exists. */
  lemma LeastExists<K(!new)>(s: set<K>, lt: (K, K) -> bool) returns (least: K)
    requires StrictTotal(lt) && s != {}
    ensures IsLeast(s, lt, least)
    decreases |s|
  {
    var x :| x in s;
    var rest := s - {x};
    if rest == {} {
      assert s == rest + {x};
      least := x;
    } else {
      var m := LeastExists(rest, lt);
      least := if lt(x, m) then x else m;
      forall y | y in s ensures y == least || lt(least, y) {
        if y != x { assert y in rest; }
      }
    }
  }

  ghost function Least<K(!new)>(s: set<K>, lt: (K, K) -> bool): (x: K)
    requires StrictTotal(lt) && s != {}
    ensures x in s && forall y :: y in s ==> y == x || lt(x, y)
  {
    assert exists x :: IsLeast(s, lt, x) by { var x := LeastExists(s, lt); }
    var x :| IsLeast(s, lt, x);
    x
  }

  /** The ascending enumeration of a finite set: what iterating an ordered map yields. */
  ghost function Sorted<K(!new)>(s: set<K>, lt: (K, K) -> bool): (r: seq<K>)
    requires StrictTotal(lt)
    ensures Ascending(r, lt) && |r| == |s|
    ensures forall x :: x in r <==> x in s
    decreases |s|
  {
    if s == {} then []
    else
      var x := Least(s, lt);
      [x] + Sorted(s - {x}, lt)
  }

  /** Ascending order leaves no freedom: equal membership forces equal sequences. */
  lemma {:induction false} AscendingUnique<K(!new)>(a: seq<K>, b: seq<K>, lt: (K, K) -> bool)
    requires StrictTotal(lt) && Ascending(a, lt) && Ascending(b, lt)
    requires forall x :: x in a <==> x in b
    ensures a == b
    decreases |a|
  {
    if a == [] {
      assert forall j :: 0 <= j < |b| ==> b[j] in b;
    } else {
      assert a[0] in a && a[0] in b;
      assert b[0] in b && b[0] in a;
      assert a[0] == b[0];
      forall x ensures x in a[1..] <==> x in b[1..] {
        if x in a[1..] {
          assert x in a && x != a[0];
          assert x in b;
        }
        if x in b[1..] {
          assert x in b && x != b[0];
          assert x in a;
        }
      }
      AscendingUnique(a[1..], b[1..], lt);
      assert a == [a[0]] + a[1..] && b == [b[0]] + b[1..];
    }
  }

  lemma SortedIs<K(!new)>(a: seq<K>, s: set<K>, lt: (K, K) -> bool)
    requires StrictTotal(lt) && Ascending(a, lt)
    requires forall x :: x in a <==> x in s
    ensures a == Sorted(s, lt)
  {
    AscendingUnique(a, Sorted(s, lt), lt);
  }

  /** Insert one new key at its place. */
  method Insert<K(!new)>(s: seq<K>, lt: (K, K) -> bool, key: K) returns (r: seq<K>)
    requires StrictTotal(lt) && Ascending(s, lt) && key !in s
    ensures Ascending(r, lt) && |r| == |s| + 1 && forall k :: k in r <==> k in s || k == key
  {
    var at := |s|;
    while at > 0 && !lt(s[at - 1], key)
      invariant 0 <= at <= |s|
      invariant forall b :: at <= b < |s| ==> lt(key, s[b])
    {
      assert s[at - 1] in s;
      at := at - 1;
    }
    assert at > 0 ==> lt(s[at - 1], key);
    Inserted(s, lt, at, key);
    r := s[..at] + [key] + s[at..];
  }

  lemma Inserted<K(!new)>(s: seq<K>, lt: (K, K) -> bool, at: nat, key: K)
    requires StrictTotal(lt) && Ascending(s, lt) && at <= |s|
    requires at > 0 ==> lt(s[at - 1], key)
    requires forall b :: at <= b < |s| ==> lt(key, s[b])
    ensures var r := s[..at] + [key] + s[at..]; Ascending(r, lt) && forall k :: k in r <==> k in s || k == key
  {
    hide StrictTotal;
    hide Ascending;
    var r := s[..at] + [key] + s[at..];
    forall k ensures k in r <==> k in s || k == key { InsertedMembers(s, at, key, k); }
    assert Ascending(r, lt) by { InsertedAscends(s, lt, at, key); }
  }

  lemma InsertedMembers<K>(s: seq<K>, at: nat, key: K, k: K)
    requires at <= |s|
    ensures k in s[..at] + [key] + s[at..] <==> k in s || k == key
  {
    assert s == s[..at] + s[at..];
  }

  lemma InsertedAscends<K(!new)>(s: seq<K>, lt: (K, K) -> bool, at: nat, key: K)
    requires StrictTotal(lt) && Ascending(s, lt) && at <= |s|
    requires at > 0 ==> lt(s[at - 1], key)
    requires forall b :: at <= b < |s| ==> lt(key, s[b])
    ensures Ascending(s[..at] + [key] + s[at..], lt)
  {
    hide StrictTotal;
    forall i, j | 0 <= i < j <= |s| ensures lt((s[..at] + [key] + s[at..])[i], (s[..at] + [key] + s[at..])[j]) {
      InsertedOrder(s, lt, at, key, i, j);
    }
  }

  lemma InsertedOrder<K(!new)>(s: seq<K>, lt: (K, K) -> bool, at: nat, key: K, i: nat, j: nat)
    requires StrictTotal(lt) && Ascending(s, lt) && at <= |s| && i < j <= |s|
    requires at > 0 ==> lt(s[at - 1], key)
    requires forall b :: at <= b < |s| ==> lt(key, s[b])
    ensures var r := s[..at] + [key] + s[at..]; lt(r[i], r[j])
  {
    if i < at {
      assert lt(s[i], key) by { assert i == at - 1 || lt(s[i], s[at - 1]); }
      if j > at { assert lt(s[i], s[j - 1]); }
    }
  }

  /** Enumerate a set in ascending order. */
  method Enumerate<K(!new, ==)>(s: set<K>, lt: (K, K) -> bool) returns (r: seq<K>)
    requires StrictTotal(lt)
    ensures r == Sorted(s, lt)
  {
    r := [];
    var rest := s;
    while rest != {}
      invariant rest <= s && Ascending(r, lt)
      invariant forall k :: k in r <==> k in s && k !in rest
      decreases |rest|
    {
      var key :| key in rest;
      r := Insert(r, lt, key);
      rest := rest - {key};
    }
    SortedIs(r, s, lt);
  }

  /** The indices of a sequence of length `n`. */
  function Below(n: nat): (r: set<nat>)
    ensures |r| == n && forall i: nat :: i in r <==> i < n
  {
    if n == 0 then {} else Below(n - 1) + {n - 1}
  }

  /** An ascending sequence repeats nothing. */
  lemma AscendingDistinct<K(!new)>(a: seq<K>, lt: (K, K) -> bool)
    requires StrictTotal(lt) && Ascending(a, lt)
    ensures forall i, j :: 0 <= i < |a| && 0 <= j < |a| && a[i] == a[j] ==> i == j
  {
    forall i, j | 0 <= i < j < |a|
      ensures a[i] != a[j]
    {
      assert lt(a[i], a[j]);
    }
  }

  /** Elements of an ascending prefix are exactly those at earlier positions. */
  lemma PositionIn<K(!new)>(a: seq<K>, lt: (K, K) -> bool, p: nat, n: nat)
    requires StrictTotal(lt) && Ascending(a, lt) && p < |a| && n <= |a|
    ensures a[p] in a[..n] <==> p < n
  {
    AscendingDistinct(a, lt);
    if a[p] in a[..n] {
      var x :| 0 <= x < n && a[..n][x] == a[p];
      assert a[x] == a[p];
    }
    if p < n { assert a[..n][p] == a[p]; }
  }

  /** Whatever is at most the head of the rest is at most everything in the rest. */
  lemma HeadBelow<K(!new)>(a: seq<K>, lt: (K, K) -> bool, i: nat, p: nat, key: K)
    requires StrictTotal(lt) && Ascending(a, lt) && i <= p < |a|
    requires key == a[i] || lt(key, a[i])
    ensures key == a[p] || lt(key, a[p])
    ensures p != i ==> lt(key, a[p])
  {
    if i < p { assert lt(a[i], a[p]); }
  }

  /** Lexicographic order on character sequences, the order of string keys. */
  predicate LexLess(a: string, b: string) {
    if b == [] then false
    else if a == [] then true
    else a[0] < b[0] || (a[0] == b[0] && LexLess(a[1..], b[1..]))
  }

  lemma {:induction false} LexIrreflexive(a: string)
    ensures !LexLess(a, a)
  {
    if a != [] { LexIrreflexive(a[1..]); }
  }

  lemma {:induction false} LexTotal(a: string, b: string)
    ensures a == b || LexLess(a, b) || LexLess(b, a)
  {
    if a != [] && b != [] && a[0] == b[0] {
      LexTotal(a[1..], b[1..]);
      assert a == [a[0]] + a[1..] && b == [b[0]] + b[1..];
    }
  }

  lemma {:induction false} LexTransitive(a: string, b: string, c: string)
    requires LexLess(a, b) && LexLess(b, c)
    ensures LexLess(a, c)
  {
    if a != [] && a[0] == b[0] == c[0] {
      LexTransitive(a[1..], b[1..], c[1..]);
    }
  }

  lemma LexStrictTotal()
    ensures StrictTotal(LexLess)
  {
    forall a: string ensures !LexLess(a, a) { LexIrreflexive(a); }
    forall a: string, b: string ensures a == b || LexLess(a, b) || LexLess(b, a) { LexTotal(a, b); }
    forall a: string, b: string, c: string | LexLess(a, b) && LexLess(b, c) ensures LexLess(a, c) {
      LexTransitive(a, b, c);
    }
  }
}
