/** The export check's walk over a repository's commit graph.

    The walk is listed by an external tool; these checks decide whether the list is a complete,
    acyclic history with one known root. Object contents and their scans are not modelled.
 */
module History {
  import opened Ordered

  const MAX_COMMITS: nat := 4096
  const MAX_EDGES: nat := 16384

  type Oid = string

  datatype Commit = Commit(oid: Oid, parents: seq<Oid>)

  predicate Lists(walk: seq<Commit>, oid: Oid) { exists i :: 0 <= i < |walk| && walk[i].oid == oid }

  predicate DistinctOids(walk: seq<Commit>) { forall i, j :: 0 <= i < j < |walk| ==> walk[i].oid != walk[j].oid }

  predicate OneRoot(walk: seq<Commit>, baseline: Oid) {
    && (exists i :: 0 <= i < |walk| && walk[i].oid == baseline && walk[i].parents == [])
    && (forall i :: 0 <= i < |walk| && walk[i].parents == [] ==> walk[i].oid == baseline)
  }

  /** Every parent is listed before its child. */
  predicate ParentsFirst(walk: seq<Commit>) {
    forall i, p :: 0 <= i < |walk| && p in walk[i].parents ==> Lists(walk[..i], p)
  }

  /** `oid` is reached from `head` in exactly `n` parent steps. */
  ghost predicate Ancestor(walk: seq<Commit>, head: Oid, oid: Oid, n: nat)
    decreases n
  {
    if n == 0 then oid == head && Lists(walk, oid)
    else exists i :: 0 <= i < |walk| && oid in walk[i].parents && Ancestor(walk, head, walk[i].oid, n - 1)
  }

  ghost predicate Reached(walk: seq<Commit>, head: Oid, oid: Oid) { exists n: nat :: Ancestor(walk, head, oid, n) }

  /** A complete history: distinct commits, one known root, parents first, nothing unrelated to the head. */
  ghost predicate Complete(walk: seq<Commit>, head: Oid, baseline: Oid) {
    && DistinctOids(walk) && Lists(walk, head) && OneRoot(walk, baseline) && ParentsFirst(walk)
    && forall i :: 0 <= i < |walk| ==> Reached(walk, head, walk[i].oid)
  }

  function Edges(walk: seq<Commit>): nat {
    if walk == [] then 0 else Edges(walk[..|walk| - 1]) + |walk[|walk| - 1].parents|
  }

  datatype Verdict = Accepted | CommitBudget | ParentBudget | InvalidGraph | UnexpectedRoot

  // ---------- the parent map ----------

  type Graph = map<Oid, seq<Oid>>

  ghost predicate Maps(graph: Graph, walk: seq<Commit>, n: nat)
    requires n <= |walk|
  {
    && (forall oid :: oid in graph <==> Lists(walk[..n], oid))
    && |graph| <= n && (|graph| == n <==> DistinctOids(walk[..n]))
    && (DistinctOids(walk[..n]) ==> forall i :: 0 <= i < n ==> walk[i].oid in graph && graph[walk[i].oid] == walk[i].parents)
  }

  lemma ListsMore(walk: seq<Commit>, n: nat, oid: Oid)
    requires n < |walk|
    ensures Lists(walk[..n + 1], oid) <==> Lists(walk[..n], oid) || walk[n].oid == oid
  {
    if Lists(walk[..n], oid) {
      var i :| 0 <= i < n && walk[..n][i].oid == oid;
      assert walk[..n + 1][i].oid == oid;
    }
    if walk[n].oid == oid { assert walk[..n + 1][n].oid == oid; }
    if Lists(walk[..n + 1], oid) && walk[n].oid != oid {
      var i :| 0 <= i < n + 1 && walk[..n + 1][i].oid == oid;
      assert walk[..n][i].oid == oid;
    }
  }

  lemma DistinctMore(walk: seq<Commit>, n: nat)
    requires n < |walk|
    ensures DistinctOids(walk[..n + 1]) <==> DistinctOids(walk[..n]) && !Lists(walk[..n], walk[n].oid)
  {
    if DistinctOids(walk[..n + 1]) {
      forall i, j | 0 <= i < j < n ensures walk[..n][i].oid != walk[..n][j].oid {
        assert walk[..n + 1][i].oid != walk[..n + 1][j].oid;
      }
      forall i | 0 <= i < n ensures walk[..n][i].oid != walk[n].oid {
        assert walk[..n + 1][i].oid != walk[..n + 1][n].oid;
      }
    }
    if DistinctOids(walk[..n]) && !Lists(walk[..n], walk[n].oid) {
      var front, all := walk[..n], walk[..n + 1];
      assert forall i :: 0 <= i < n ==> all[i] == front[i];
      forall i, j | 0 <= i < j < |all| ensures all[i].oid != all[j].oid {
        if j < n { assert front[i].oid != front[j].oid; } else { assert front[i].oid != walk[n].oid; }
      }
    }
  }

  /** A new key grows the map by one; a repeated one does not. */
  lemma GraphGrows(graph: Graph, oid: Oid, parents: seq<Oid>)
    ensures |graph[oid := parents]| == |graph| + (if oid in graph then 0 else 1)
  {
    var after := graph[oid := parents];
    assert after.Keys == graph.Keys + {oid};
    assert |after| == |after.Keys| && |graph| == |graph.Keys|;
    if oid in graph { assert after.Keys == graph.Keys; }
  }

  lemma MapsMore(graph: Graph, walk: seq<Commit>, n: nat)
    requires n < |walk| && Maps(graph, walk, n)
    ensures Maps(graph[walk[n].oid := walk[n].parents], walk, n + 1)
  {
    hide Lists;
    hide DistinctOids;
    var c := walk[n];
    var after := graph[c.oid := c.parents];
    forall oid ensures oid in after <==> Lists(walk[..n + 1], oid) { ListsMore(walk, n, oid); }
    DistinctMore(walk, n);
    GraphGrows(graph, c.oid, c.parents);
    forall i | 0 <= i < n ensures Lists(walk[..n], walk[i].oid) { ListedAt(walk, n, i); }
  }

  lemma ListedAt(walk: seq<Commit>, n: nat, i: nat)
    requires i < n <= |walk|
    ensures Lists(walk[..n], walk[i].oid)
  {
    assert walk[..n][i].oid == walk[i].oid;
  }

  lemma NothingMapped(walk: seq<Commit>)
    ensures Maps(map[], walk, 0)
  {
  }

  /** Later entries overwrite earlier ones; a repeated commit shows as a smaller map. */
  method ParentsByOid(walk: seq<Commit>) returns (graph: Graph)
    ensures Maps(graph, walk, |walk|)
  {
    hide Maps;
    NothingMapped(walk);
    graph := map[];
    var n := 0;
    while n < |walk|
      invariant 0 <= n <= |walk| && Maps(graph, walk, n)
    {
      MapsMore(graph, walk, n);
      graph := graph[walk[n].oid := walk[n].parents];
      n := n + 1;
    }
  }

  // ---------- reachability ----------

  /** The graph is the walk's parent map. */
  ghost predicate GraphOf(graph: Graph, walk: seq<Commit>) {
    && DistinctOids(walk)
    && (forall oid :: oid in graph <==> Lists(walk, oid))
    && (forall i :: 0 <= i < |walk| ==> walk[i].oid in graph && graph[walk[i].oid] == walk[i].parents)
  }

  lemma GraphFrom(graph: Graph, walk: seq<Commit>)
    requires Maps(graph, walk, |walk|)
    ensures |graph| == |walk| <==> DistinctOids(walk)
    ensures forall oid :: oid in graph <==> Lists(walk, oid)
    ensures DistinctOids(walk) ==> GraphOf(graph, walk)
  {
    assert walk[..|walk|] == walk;
  }

  predicate ParentsListed(graph: Graph) { forall oid, p :: oid in graph && p in graph[oid] ==> p in graph }

  lemma StepAncestor(graph: Graph, walk: seq<Commit>, head: Oid, oid: Oid, p: Oid)
    requires GraphOf(graph, walk) && oid in graph && p in graph[oid] && Reached(walk, head, oid)
    ensures Reached(walk, head, p)
  {
    var n: nat :| Ancestor(walk, head, oid, n);
    assert Lists(walk, oid);
    var i :| 0 <= i < |walk| && walk[i].oid == oid;
    assert Ancestor(walk, head, walk[i].oid, n);
    assert Ancestor(walk, head, p, n + 1);
  }

  /** Closed under parents, apart from what is still pending. */
  ghost predicate Searching(graph: Graph, walk: seq<Commit>, head: Oid, reachable: set<Oid>, pending: seq<Oid>) {
    && (forall x :: x in reachable ==> x in graph && Reached(walk, head, x))
    && (forall i :: 0 <= i < |pending| ==> pending[i] in graph && Reached(walk, head, pending[i]))
    && (head in reachable || head in pending)
    && forall x, p :: x in reachable && p in graph[x] ==> p in reachable || p in pending
  }

  lemma Popped(graph: Graph, walk: seq<Commit>, head: Oid, reachable: set<Oid>, pending: seq<Oid>)
    requires GraphOf(graph, walk) && ParentsListed(graph) && Searching(graph, walk, head, reachable, pending)
    requires pending != []
    ensures var x, rest := pending[|pending| - 1], pending[..|pending| - 1];
            if x in reachable then Searching(graph, walk, head, reachable, rest)
            else x in graph && Searching(graph, walk, head, reachable + {x}, rest + graph[x])
  {
    hide Reached;
    hide GraphOf;
    var x, rest := pending[|pending| - 1], pending[..|pending| - 1];
    assert pending == rest + [x];
    assert forall y :: y in pending <==> y in rest || y == x;
    if x !in reachable {
      forall p | p in graph[x] ensures p in graph && Reached(walk, head, p) { StepAncestor(graph, walk, head, x, p); }
      var after := rest + graph[x];
      assert forall y :: y in after <==> y in rest || y in graph[x];
      forall i | 0 <= i < |after| ensures after[i] in graph && Reached(walk, head, after[i]) { assert after[i] in after; }
    }
  }

  lemma {:induction false} SearchedAll(graph: Graph, walk: seq<Commit>, head: Oid, reachable: set<Oid>, oid: Oid, n: nat)
    requires GraphOf(graph, walk) && Searching(graph, walk, head, reachable, []) && Ancestor(walk, head, oid, n)
    ensures oid in reachable
    decreases n
  {
    if n > 0 {
      var i :| 0 <= i < |walk| && oid in walk[i].parents && Ancestor(walk, head, walk[i].oid, n - 1);
      SearchedAll(graph, walk, head, reachable, walk[i].oid, n - 1);
    }
  }

  /** Walk parent links from the head; each commit is expanded once. */
  method Reachable(graph: Graph, head: Oid, ghost walk: seq<Commit>) returns (reachable: set<Oid>)
    requires GraphOf(graph, walk) && ParentsListed(graph) && head in graph
    ensures forall oid :: oid in reachable <==> Reached(walk, head, oid)
  {
    hide GraphOf;
    hide ParentsListed;
    hide Searching;
    hide Reached;
    reachable := {};
    var pending := [head];
    SearchStarts(graph, walk, head);
    while pending != []
      invariant Searching(graph, walk, head, reachable, pending) && reachable <= graph.Keys
      decreases |graph.Keys - reachable|, |pending|
    {
      var x, rest := pending[|pending| - 1], pending[..|pending| - 1];
      Popped(graph, walk, head, reachable, pending);
      if x !in reachable {
        assert graph.Keys - (reachable + {x}) == graph.Keys - reachable - {x};
        assert |graph.Keys - reachable - {x}| == |graph.Keys - reachable| - 1;
        reachable := reachable + {x};
        rest := rest + graph[x];
      }
      pending := rest;
    }
    SearchEnds(graph, walk, head, reachable);
  }

  lemma SearchStarts(graph: Graph, walk: seq<Commit>, head: Oid)
    requires GraphOf(graph, walk) && head in graph
    ensures Searching(graph, walk, head, {}, [head])
  {
    assert Ancestor(walk, head, head, 0);
  }

  lemma SearchEnds(graph: Graph, walk: seq<Commit>, head: Oid, reachable: set<Oid>)
    requires GraphOf(graph, walk) && Searching(graph, walk, head, reachable, [])
    ensures forall oid :: oid in reachable <==> Reached(walk, head, oid)
  {
    forall oid | Reached(walk, head, oid) ensures oid in reachable {
      var n: nat :| Ancestor(walk, head, oid, n);
      SearchedAll(graph, walk, head, reachable, oid, n);
    }
  }

  // ---------- the decision ----------

  method CountEdges(walk: seq<Commit>) returns (within: bool)
    ensures within <==> Edges(walk) <= MAX_EDGES
  {
    var edges, n := 0, 0;
    while n < |walk|
      invariant 0 <= n <= |walk| && edges == Edges(walk[..n]) <= MAX_EDGES
    {
      edges := edges + |walk[n].parents|;
      assert walk[..n + 1][..n] == walk[..n];
      n := n + 1;
      if edges > MAX_EDGES {
        EdgesGrow(walk, n);
        return false;
      }
    }
    assert walk[..n] == walk;
    within := true;
  }

  lemma {:induction false} EdgesGrow(walk: seq<Commit>, n: nat)
    requires n <= |walk|
    ensures Edges(walk[..n]) <= Edges(walk)
    decreases |walk|
  {
    if n < |walk| {
      EdgesGrow(walk[..|walk| - 1], n);
      assert walk[..|walk| - 1][..n] == walk[..n];
    } else {
      assert walk[..n] == walk;
    }
  }

  /** Commits without parents, in walk order. */
  function Roots(walk: seq<Commit>): seq<Oid> {
    if walk == [] then []
    else Roots(walk[..|walk| - 1]) + (if walk[|walk| - 1].parents == [] then [walk[|walk| - 1].oid] else [])
  }

  lemma {:induction false} RootsMeaning(walk: seq<Commit>, oid: Oid)
    ensures oid in Roots(walk) <==> exists i :: 0 <= i < |walk| && walk[i].oid == oid && walk[i].parents == []
  {
    if walk != [] {
      var front, last := walk[..|walk| - 1], walk[|walk| - 1];
      RootsMeaning(front, oid);
      assert oid in Roots(walk) <==> oid in Roots(front) || (last.parents == [] && last.oid == oid);
      if exists i :: 0 <= i < |walk| && walk[i].oid == oid && walk[i].parents == [] {
        var i :| 0 <= i < |walk| && walk[i].oid == oid && walk[i].parents == [];
        if i < |front| { assert front[i] == walk[i]; }
      }
    }
  }

  lemma {:induction false} NoRoots(walk: seq<Commit>)
    requires forall i :: 0 <= i < |walk| ==> walk[i].parents != []
    ensures Roots(walk) == []
  {
    if walk != [] {
      assert walk[|walk| - 1].parents != [];
      NoRoots(walk[..|walk| - 1]);
    }
  }

  lemma {:induction false} OneRootOnly(walk: seq<Commit>, baseline: Oid)
    requires DistinctOids(walk) && forall i :: 0 <= i < |walk| && walk[i].parents == [] ==> walk[i].oid == baseline
    ensures |Roots(walk)| <= 1
  {
    if walk != [] {
      var front, last := walk[..|walk| - 1], walk[|walk| - 1];
      assert DistinctOids(front);
      OneRootOnly(front, baseline);
      if last.parents == [] {
        forall i | 0 <= i < |front| ensures front[i].parents != [] { assert walk[i].oid != last.oid; }
        NoRoots(front);
      }
    }
  }

  lemma RootsDecide(walk: seq<Commit>, baseline: Oid)
    requires DistinctOids(walk)
    ensures Roots(walk) == [baseline] <==> OneRoot(walk, baseline)
  {
    var roots := Roots(walk);
    forall oid { RootsMeaning(walk, oid); }
    if roots == [baseline] {
      assert baseline in roots;
      forall i | 0 <= i < |walk| && walk[i].parents == [] ensures walk[i].oid == baseline {
        assert walk[i].oid in roots;
      }
    }
    if OneRoot(walk, baseline) {
      assert baseline in roots;
      OneRootOnly(walk, baseline);
    }
  }

  /** Each commit's parents were verified before it. */
  method InOrder(walk: seq<Commit>) returns (ok: bool)
    ensures ok <==> ParentsFirst(walk)
  {
    var verified: set<Oid> := {};
    var n := 0;
    while n < |walk|
      invariant 0 <= n <= |walk|
      invariant forall oid :: oid in verified <==> Lists(walk[..n], oid)
      invariant forall i, p :: 0 <= i < n && p in walk[i].parents ==> Lists(walk[..i], p)
    {
      if exists p :: p in walk[n].parents && p !in verified { return false; }
      forall oid { ListsMore(walk, n, oid); }
      verified := verified + {walk[n].oid};
      n := n + 1;
    }
    ok := true;
  }

  lemma ParentsFirstListed(graph: Graph, walk: seq<Commit>)
    requires GraphOf(graph, walk) && ParentsFirst(walk)
    ensures ParentsListed(graph)
  {
    forall oid, p | oid in graph && p in graph[oid] ensures p in graph {
      assert Lists(walk, oid);
      var i :| 0 <= i < |walk| && walk[i].oid == oid;
      assert Lists(walk[..i], p);
      var j :| 0 <= j < i && walk[..i][j].oid == p;
      assert walk[j].oid == p;
    }
  }

  /** The graph checks, in order. A walk within the budgets is accepted exactly when it is a complete
      history. */
  method CheckHistory(walk: seq<Commit>, head: Oid, baseline: Oid) returns (v: Verdict)
    ensures v.Accepted? <==> |walk| <= 4096 && Edges(walk) <= 16384 && Complete(walk, head, baseline)
    ensures v.CommitBudget? <==> |walk| > 4096
    ensures v.ParentBudget? <==> |walk| <= 4096 && Edges(walk) > 16384
    ensures v.UnexpectedRoot? <==>
              && |walk| <= 4096 && Edges(walk) <= 16384
              && DistinctOids(walk) && Lists(walk, head) && !OneRoot(walk, baseline)
  {
    hide Maps;
    hide Edges;
    hide Lists;
    hide DistinctOids;
    hide OneRoot;
    hide ParentsFirst;
    hide Reached;
    hide Roots;
    hide GraphOf;
    if |walk| > MAX_COMMITS { return CommitBudget; }
    var within := CountEdges(walk);
    if !within { return ParentBudget; }
    var graph := ParentsByOid(walk);
    GraphFrom(graph, walk);
    if |graph| != |walk| || head !in graph { return InvalidGraph; }
    RootsDecide(walk, baseline);
    if Roots(walk) != [baseline] { return UnexpectedRoot; }
    if !ParentsListed(graph) {
      if ParentsFirst(walk) { ParentsFirstListed(graph, walk); }
      return InvalidGraph;
    }
    var reachable := Reachable(graph, head, walk);
    AllReached(graph, walk, head, reachable);
    if reachable != graph.Keys { return InvalidGraph; }
    var ordered := InOrder(walk);
    v := if ordered then Accepted else InvalidGraph;
  }

  lemma AllReached(graph: Graph, walk: seq<Commit>, head: Oid, reachable: set<Oid>)
    requires GraphOf(graph, walk) && ParentsListed(graph)
    requires forall oid :: oid in reachable <==> Reached(walk, head, oid)
    ensures reachable == graph.Keys <==> forall i :: 0 <= i < |walk| ==> Reached(walk, head, walk[i].oid)
  {
    forall oid | oid in reachable ensures oid in graph {
      var n: nat :| Ancestor(walk, head, oid, n);
      AncestorListed(graph, walk, head, oid, n);
    }
    if forall i :: 0 <= i < |walk| ==> Reached(walk, head, walk[i].oid) {
      forall oid | oid in graph ensures oid in reachable {
        assert Lists(walk, oid);
        var i :| 0 <= i < |walk| && walk[i].oid == oid;
      }
    }
  }

  lemma AncestorListed(graph: Graph, walk: seq<Commit>, head: Oid, oid: Oid, n: nat)
    requires GraphOf(graph, walk) && ParentsListed(graph) && Ancestor(walk, head, oid, n)
    ensures oid in graph
  {
    if n > 0 {
      var i :| 0 <= i < |walk| && oid in walk[i].parents && Ancestor(walk, head, walk[i].oid, n - 1);
      assert walk[i].oid in graph;
    }
  }

  // ---------- what an accepted history means ----------

  /** Position of a commit in a distinct walk grows along every child step, so no commit is its own proper
      ancestor. */
  lemma {:induction false} AncestorsEarlier(walk: seq<Commit>, i: nat, j: nat, n: nat)
    requires DistinctOids(walk) && ParentsFirst(walk) && i < |walk| && j < |walk|
    requires Ancestor(walk, walk[i].oid, walk[j].oid, n)
    ensures j <= i && (n > 0 ==> j < i)
    decreases n
  {
    if n > 0 {
      var k :| 0 <= k < |walk| && walk[j].oid in walk[k].parents && Ancestor(walk, walk[i].oid, walk[k].oid, n - 1);
      AncestorsEarlier(walk, i, k, n - 1);
      var l := EarlierParent(walk, k, walk[j].oid);
      assert l == j;
    }
  }

  lemma EarlierParent(walk: seq<Commit>, i: nat, p: Oid) returns (j: nat)
    requires ParentsFirst(walk) && i < |walk| && p in walk[i].parents
    ensures j < i && walk[j].oid == p
  {
    assert Lists(walk[..i], p);
    j :| 0 <= j < i && walk[..i][j].oid == p;
  }

  /** Every commit of a complete history descends from the known root. */
  lemma {:induction false} DescendsFromRoot(walk: seq<Commit>, head: Oid, baseline: Oid, i: nat) returns (n: nat)
    requires Complete(walk, head, baseline) && i < |walk|
    ensures Ancestor(walk, walk[i].oid, baseline, n)
    decreases i
  {
    hide ParentsFirst;
    hide DistinctOids;
    hide Reached;
    if walk[i].parents == [] {
      n := 0;
      assert walk[i].oid == baseline && Lists(walk, baseline);
    } else {
      hide OneRoot;
      hide Lists;
      var j := EarlierParent(walk, i, walk[i].parents[0]);
      var m := DescendsFromRoot(walk, head, baseline, j);
      n := m + 1;
      hide Complete;
      ThroughChild(walk, i, j, baseline, m);
    }
  }

  /** An ancestor of a parent is an ancestor of the child, one step further. */
  lemma {:induction false} ThroughChild(walk: seq<Commit>, i: nat, j: nat, oid: Oid, m: nat)
    requires i < |walk| && j < |walk| && walk[j].oid in walk[i].parents
    requires Ancestor(walk, walk[j].oid, oid, m)
    ensures Ancestor(walk, walk[i].oid, oid, m + 1)
    decreases m
  {
    assert Lists(walk, walk[i].oid);
    if m == 0 {
      assert Ancestor(walk, walk[i].oid, walk[i].oid, 0);
      assert Ancestor(walk, walk[i].oid, oid, 1);
    } else {
      var k :| 0 <= k < |walk| && oid in walk[k].parents && Ancestor(walk, walk[j].oid, walk[k].oid, m - 1);
      ThroughChild(walk, i, j, walk[k].oid, m - 1);
      assert Ancestor(walk, walk[i].oid, walk[k].oid, m);
    }
  }
}
