/** The recorder's annotation passes over a parsed trace, and their acceptance by the reader. */
module Findings {
  import opened Ordered
  import opened Records
  import opened Timeline
  import opened Lifetimes
  import opened Agreement
  import opened LifetimeLaws
  import opened Provenance

  // ---------- evidence order, computed ----------

  /** The stable sort by (line, end line, index), as an insertion into an ascending prefix. */
  method SortByEvidence(events: seq<Event>) returns (order: seq<nat>)
    ensures order == EvidenceOrder(events)
  {
    EarlierStrictTotal(events);
    order := [];
    var n := 0;
    while n < |events|
      invariant 0 <= n <= |events|
      invariant Ascending(order, Earlier(events))
      invariant forall i: nat :: i in order <==> i < n
    {
      order := Insert<nat>(order, Earlier(events), n);
      n := n + 1;
    }
    SortedIs(order, Below(|events|), Earlier(events));
  }

  // ---------- identity findings ----------

  ghost predicate Fits(t: Builder, events: seq<Event>, order: seq<nat>) {
    && Visits(events, order) && |order| == |events| == |t.actors| == |t.spawned|
    && (forall a :: 0 <= a < |order| ==> t.actors[a] < |t.generations|)
    && (forall a :: 0 <= a < |order| && t.spawned[a].Some? ==> t.spawned[a].value < |t.generations|)
    && (forall g :: 0 <= g < |t.generations| ==> t.generations[g].event < |events|)
  }

  /** Position `a` acts in an untrusted lifetime. */
  predicate ActsUntrusted(t: Builder, order: seq<nat>, k: nat, i: nat)
    requires k <= |order| == |t.actors|
    requires forall a :: 0 <= a < |order| ==> t.actors[a] < |t.generations|
  {
    exists a :: 0 <= a < k && order[a] == i && Untrusted(t.generations[t.actors[a]])
  }

  predicate ExposesUntrusted(t: Builder, k: nat, i: nat)
    requires k <= |t.generations|
  {
    exists g :: 0 <= g < k && t.generations[g].event == i && Untrusted(t.generations[g])
  }

  /** Same observation, uncertainty raised where `flagged`. */
  predicate RaisedAt(before: Event, after: Event, flagged: bool) {
    after == before.(contextUncertain := before.contextUncertain || flagged)
  }

  /** Every event of an untrusted lifetime, and the event that exposed it, becomes uncertain. */
  ghost predicate Identified(events: seq<Event>, marked: seq<Event>, t: Builder, order: seq<nat>)
    requires Fits(t, events, order)
  {
    && |marked| == |events|
    && forall i :: 0 <= i < |events| ==>
         RaisedAt(events[i], marked[i], ActsUntrusted(t, order, |order|, i) || ExposesUntrusted(t, |t.generations|, i))
  }

  const IDENTITY_WARNING := "task.identity: generation identity is incomplete"

  function UntrustedCount(generations: seq<Generation>): nat {
    if generations == [] then 0
    else UntrustedCount(generations[..|generations| - 1]) +
         (if Untrusted(generations[|generations| - 1]) then 1 else 0)
  }

  lemma {:induction false} NoneUntrusted(generations: seq<Generation>)
    ensures UntrustedCount(generations) == 0 <==> forall g :: 0 <= g < |generations| ==> !Untrusted(generations[g])
  {
    if generations != [] { NoneUntrusted(generations[..|generations| - 1]); }
  }

  method ApplyIdentityFindings(events: seq<Event>, t: Builder, order: seq<nat>)
    returns (marked: seq<Event>, warnings: seq<string>)
    requires Fits(t, events, order)
    ensures Identified(events, marked, t, order)
    ensures |warnings| == UntrustedCount(t.generations)
  {
    hide Untrusted;
    marked := events;
    var a := 0;
    while a < |order|
      invariant 0 <= a <= |order| && |marked| == |events|
      invariant forall i :: 0 <= i < |events| ==> RaisedAt(events[i], marked[i], ActsUntrusted(t, order, a, i))
    {
      ghost var was := marked;
      if Untrusted(t.generations[t.actors[a]]) {
        marked := marked[order[a] := marked[order[a]].(contextUncertain := true)];
      }
      forall i | 0 <= i < |events| ensures RaisedAt(events[i], marked[i], ActsUntrusted(t, order, a + 1, i)) {
        assert RaisedAt(events[i], was[i], ActsUntrusted(t, order, a, i));
        assert ActsUntrusted(t, order, a + 1, i) <==>
               ActsUntrusted(t, order, a, i) || (order[a] == i && Untrusted(t.generations[t.actors[a]]));
      }
      a := a + 1;
    }
    warnings := [];
    var g := 0;
    while g < |t.generations|
      invariant 0 <= g <= |t.generations| && |marked| == |events|
      invariant forall i :: 0 <= i < |events| ==>
                  RaisedAt(events[i], marked[i], ActsUntrusted(t, order, |order|, i) || ExposesUntrusted(t, g, i))
      invariant |warnings| == UntrustedCount(t.generations[..g])
    {
      ghost var was := marked;
      var event := t.generations[g].event;
      if Untrusted(t.generations[g]) {
        marked := marked[event := marked[event].(contextUncertain := true)];
        warnings := warnings + [IDENTITY_WARNING];
      }
      forall i | 0 <= i < |events|
        ensures RaisedAt(events[i], marked[i], ActsUntrusted(t, order, |order|, i) || ExposesUntrusted(t, g + 1, i))
      {
        assert ExposesUntrusted(t, g + 1, i) <==>
               ExposesUntrusted(t, g, i) || (t.generations[g].event == i && Untrusted(t.generations[g]));
      }
      g := g + 1;
      assert t.generations[..g][..g - 1] == t.generations[..g - 1];
    }
    assert t.generations[..g] == t.generations;
  }

  // ---------- binding ----------

  function BoundEvent(e: Event, t: Builder, a: nat): Event
    requires a < |t.actors| && a < |t.spawned| && t.actors[a] < |t.generations|
    requires t.spawned[a].Some? ==> t.spawned[a].value < |t.generations|
  {
    e.(schemaVersion := 3,
       taskGeneration := Some(t.generations[t.actors[a]].ordinal),
       childGeneration := (match t.spawned[a] case Some(g) => Some(t.generations[g].ordinal) case None => None))
  }

  /** Every event carries its lifetimes' ordinals and nothing else changed. */
  ghost predicate Bound(events: seq<Event>, bound: seq<Event>, t: Builder, order: seq<nat>)
    requires Fits(t, events, order)
  {
    && |bound| == |events|
    && forall a :: 0 <= a < |order| ==> bound[order[a]] == BoundEvent(events[order[a]], t, a)
  }

  method BindTaskGenerations(events: seq<Event>, t: Builder, order: seq<nat>) returns (bound: seq<Event>)
    requires Fits(t, events, order)
    ensures Bound(events, bound, t, order)
  {
    bound := events;
    var k := 0;
    while k < |order|
      invariant 0 <= k <= |order| && |bound| == |events|
      invariant forall a :: 0 <= a < k ==> bound[order[a]] == BoundEvent(events[order[a]], t, a)
      invariant forall a :: k <= a < |order| ==> bound[order[a]] == events[order[a]]
    {
      bound := bound[order[k] := BoundEvent(bound[order[k]], t, k)];
      k := k + 1;
    }
  }

  // ---------- the builder remembers the introducing event ----------

  ghost predicate SpawnEvents(b: Builder, slots: seq<nat>, k: nat)
    requires k <= |slots|
  {
    && |b.spawned| == k
    && forall a :: 0 <= a < k && b.spawned[a].Some? ==>
         b.spawned[a].value < |b.generations| && b.generations[b.spawned[a].value].event == slots[a]
  }

  ghost predicate EventsWithin(b: Builder, slots: seq<nat>) {
    forall g :: 0 <= g < |b.generations| ==> b.generations[g].event in slots
  }

  /** A step keeps introducing events and records its own. */
  ghost predicate StepEvents(b: Builder, r: Builder, i: nat) {
    && |b.generations| <= |r.generations|
    && (forall g :: 0 <= g < |b.generations| ==> r.generations[g].event == b.generations[g].event)
    && (forall g :: |b.generations| <= g < |r.generations| ==> r.generations[g].event == i)
  }

  lemma ResolveEvents(b: Builder, pid: string, i: nat)
    requires Indexed(b)
    ensures StepEvents(b, Resolve(b, pid, i), i)
  {
  }

  lemma AttributeEvents(b: Builder, e: Event, i: nat)
    requires Indexed(b) && e.pid in b.active
    ensures StepEvents(b, Attribute(b, e, i), i)
    ensures Attribute(b, e, i).spawned == b.spawned && |Attribute(b, e, i).generations| == |b.generations|
  {
  }

  lemma SpawnStepEvents(b: Builder, child: string, parent: nat, i: nat)
    requires Indexed(b)
    ensures StepEvents(b, Spawn(b, child, parent, i), i)
    ensures Spawn(b, child, parent, i).spawned == b.spawned + [Some(|b.generations|)]
    ensures |Spawn(b, child, parent, i).generations| == |b.generations| + 1
  {
  }

  lemma ResolveKeepsSpawned(b: Builder, pid: string, i: nat)
    requires Indexed(b)
    ensures Resolve(b, pid, i).spawned == b.spawned
  {
  }

  lemma BuildStepEvents(b: Builder, e: Event, i: nat)
    requires Indexed(b)
    ensures var r := BuildStep(b, e, i);
            && StepEvents(b, r, i)
            && |r.spawned| == |b.spawned| + 1 && r.spawned[..|b.spawned|] == b.spawned
            && (r.spawned[|b.spawned|].Some? ==> |b.generations| <= r.spawned[|b.spawned|].value < |r.generations|)
  {
    var resolved := Resolve(b, e.pid, i);
    ResolveEvents(b, e.pid, i);
    ResolveKeepsSpawned(b, e.pid, i);
    AttributeEvents(resolved, e, i);
    hide Resolve;
    var acted := Attribute(resolved, e, i);
    hide Attribute;
    if e.childPid.Some? { SpawnStepEvents(acted, e.childPid.value, resolved.active[e.pid], i); }
    hide Spawn;
  }

  lemma SpawnEventsStep(b: Builder, r: Builder, slots: seq<nat>, k: nat)
    requires k < |slots| && SpawnEvents(b, slots, k) && EventsWithin(b, slots) && StepEvents(b, r, slots[k])
    requires |r.spawned| == k + 1 && r.spawned[..k] == b.spawned
    requires r.spawned[k].Some? ==> |b.generations| <= r.spawned[k].value < |r.generations|
    ensures SpawnEvents(r, slots, k + 1) && EventsWithin(r, slots)
  {
    assert forall a :: 0 <= a < k ==> r.spawned[a] == r.spawned[..k][a];
  }

  lemma {:induction false} BuildEvents(replay: seq<Event>, slots: seq<nat>, k: nat)
    requires k <= |replay| == |slots|
    ensures SpawnEvents(BuildTo(replay, slots, k), slots, k)
    ensures EventsWithin(BuildTo(replay, slots, k), slots)
  {
    hide BuildStep;
    hide SpawnEvents;
    hide EventsWithin;
    hide StepEvents;
    if k == 0 {
      NoEvents(slots);
    } else {
      BuildEvents(replay, slots, k - 1);
      var b := BuildTo(replay, slots, k - 1);
      BuildStepEvents(b, replay[k - 1], slots[k - 1]);
      assert |b.spawned| == k - 1 by { SpawnEventsLength(b, slots, k - 1); }
      SpawnEventsStep(b, BuildStep(b, replay[k - 1], slots[k - 1]), slots, k - 1);
    }
  }

  lemma NoEvents(slots: seq<nat>)
    ensures SpawnEvents(EMPTY, slots, 0) && EventsWithin(EMPTY, slots)
  {
  }

  lemma SpawnEventsLength(b: Builder, slots: seq<nat>, k: nat)
    requires k <= |slots| && SpawnEvents(b, slots, k)
    ensures |b.spawned| == k
  {
  }

  /** The recorder's own timeline satisfies what its annotation passes need. */
  lemma TimelineFits(events: seq<Event>, order: seq<nat>) returns (t: Builder)
    requires Visits(events, order) && |order| == |events|
    ensures t == BuildTo(Along(events, order), order, |order|) && Fits(t, events, order)
    ensures SpawnEvents(t, order, |order|) && Located(t, Along(events, order), |order|)
  {
    t := BuildTo(Along(events, order), order, |order|);
    BuildHistory(Along(events, order), order, |order|);
    BuildEvents(Along(events, order), order, |order|);
    hide BuildTo;
    hide Sound;
    hide ExitsLocated;
    hide Chronological;
  }
}
