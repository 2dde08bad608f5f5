/** Task lifetimes in evidence order: how the recorder assigns them.

    One numeric PID can name several lifetimes in a trace. The builder walks the events in
    evidence order and gives every event one lifetime and every successful spawn a new one.
 */
module Timeline {
  import opened Ordered
  import opened Records

  // ---------- evidence order ----------

  function EvidenceAt(events: seq<Event>, i: nat): Evidence {
    if i < |events| then events[i].evidence else Evidence("", 0, 0)
  }

  function Earlier(events: seq<Event>): (nat, nat) -> bool {
    (i: nat, j: nat) => CoordinatesBefore(EvidenceAt(events, i), i, EvidenceAt(events, j), j)
  }

  lemma EarlierStrictTotal(events: seq<Event>)
    ensures StrictTotal(Earlier(events))
  {
  }

  /** Vector indices by (line, end line, index). */
  ghost function EvidenceOrder(events: seq<Event>): (order: seq<nat>)
    ensures |order| == |events|
    ensures forall i: nat :: i in order <==> i < |events|
    ensures Ascending(order, Earlier(events))
  {
    EarlierStrictTotal(events);
    Sorted(Below(|events|), Earlier(events))
  }

  /** A replay order: indices of the vector, none repeated. */
  ghost predicate Visits(events: seq<Event>, order: seq<nat>) {
    && (forall a :: 0 <= a < |order| ==> order[a] < |events|)
    && (forall a, b :: 0 <= a < b < |order| ==> order[a] != order[b])
  }

  lemma EvidenceOrderVisits(events: seq<Event>)
    ensures Visits(events, EvidenceOrder(events))
  {
    var order := EvidenceOrder(events);
    EarlierStrictTotal(events);
    AscendingDistinct(order, Earlier(events));
    assert forall a :: 0 <= a < |order| ==> order[a] in order;
  }

  // ---------- the builder ----------

  datatype Origin =
    | Initial
    | Spawned(parent: nat)
    | Unintroduced
    | Reappeared(previous: nat)
    | LiveCollision(previous: nat)

  datatype Generation = Generation(
    pid: string, ordinal: nat, origin: Origin, event: nat,
    firstActorEvent: Option<nat>, exitEvent: Option<nat>)

  /** `actors` and `spawned` list the assignments of the replayed events in replay order. */
  datatype Builder = Builder(
    generations: seq<Generation>, actors: seq<nat>, spawned: seq<Option<nat>>,
    active: map<string, nat>, latest: map<string, nat>, ordinals: map<string, nat>, hasInitial: bool)

  const EMPTY := Builder([], [], [], map[], map[], map[], false)

  predicate Untrusted(g: Generation) {
    g.origin.Unintroduced? || g.origin.Reappeared? || g.origin.LiveCollision?
  }

  ghost predicate Indexed(b: Builder) {
    && (forall p :: p in b.active ==> b.active[p] < |b.generations|)
    && (forall p :: p in b.latest ==> b.latest[p] < |b.generations|)
  }

  /** Append the next lifetime of a PID and make it the live one. */
  function Introduce(b: Builder, pid: string, origin: Origin, event: nat): (r: Builder)
    requires Indexed(b)
    ensures Indexed(r)
  {
    var ordinal := (if pid in b.ordinals then b.ordinals[pid] else 0) + 1;
    var id := |b.generations|;
    b.(generations := b.generations + [Generation(pid, ordinal, origin, event, None, None)],
       ordinals := b.ordinals[pid := ordinal],
       active := b.active[pid := id],
       latest := b.latest[pid := id])
  }

  /** Ensure the event's PID has a live lifetime. */
  function Resolve(b: Builder, pid: string, event: nat): (r: Builder)
    requires Indexed(b)
    ensures Indexed(r) && pid in r.active
  {
    if pid in b.active then b
    else if !b.hasInitial then Introduce(b, pid, Initial, event).(hasInitial := true)
    else if pid in b.latest then Introduce(b, pid, Reappeared(b.latest[pid]), event)
    else Introduce(b, pid, Unintroduced, event)
  }

  /** Attribute the event to the live lifetime of its PID; an exit ends that lifetime. */
  function Attribute(b: Builder, e: Event, event: nat): (r: Builder)
    requires Indexed(b) && e.pid in b.active
    ensures Indexed(r)
  {
    var id := b.active[e.pid];
    var g := b.generations[id];
    var first := if g.firstActorEvent.None? then Some(event) else g.firstActorEvent;
    var exit := if e.kind == "exit" then Some(event) else g.exitEvent;
    b.(actors := b.actors + [id],
       generations := b.generations[id := g.(firstActorEvent := first, exitEvent := exit)],
       active := if e.kind == "exit" then b.active - {e.pid} else b.active)
  }

  /** A successful spawn always allocates, even over a PID that is still live. */
  function Spawn(b: Builder, child: string, parent: nat, event: nat): (r: Builder)
    requires Indexed(b)
    ensures Indexed(r)
  {
    var origin := if child in b.active then LiveCollision(b.active[child]) else Spawned(parent);
    var next := Introduce(b, child, origin, event);
    next.(spawned := next.spawned + [Some(|b.generations|)])
  }

  function BuildStep(b: Builder, e: Event, event: nat): (r: Builder)
    requires Indexed(b)
    ensures Indexed(r)
  {
    var resolved := Resolve(b, e.pid, event);
    var acted := Attribute(resolved, e, event);
    match e.childPid
    case Some(child) => Spawn(acted, child, resolved.active[e.pid], event)
    case None => acted.(spawned := acted.spawned + [None])
  }

  /** The vector's events in replay order. */
  function Along(events: seq<Event>, order: seq<nat>): (r: seq<Event>)
    requires forall a :: 0 <= a < |order| ==> order[a] < |events|
    ensures |r| == |order| && forall a :: 0 <= a < |r| ==> r[a] == events[order[a]]
  {
    seq(|order|, a requires 0 <= a < |order| => events[order[a]])
  }

  /** The builder after the first `k` replayed events; `slots` are their vector indices. */
  function BuildTo(replay: seq<Event>, slots: seq<nat>, k: nat): (r: Builder)
    requires k <= |replay| == |slots|
    ensures Indexed(r)
  {
    if k == 0 then EMPTY
    else BuildStep(BuildTo(replay, slots, k - 1), replay[k - 1], slots[k - 1])
  }

  /** The recorder's builder loop. */
  method FromObservations(events: seq<Event>, order: seq<nat>) returns (timeline: Builder)
    requires Visits(events, order)
    ensures timeline == BuildTo(Along(events, order), order, |order|)
  {
    hide BuildStep;
    timeline := EMPTY;
    var k := 0;
    while k < |order|
      invariant 0 <= k <= |order|
      invariant timeline == BuildTo(Along(events, order), order, k)
    {
      timeline := Advance(timeline, events[order[k]], order[k]);
      k := k + 1;
    }
  }

  method Advance(before: Builder, event: Event, index: nat) returns (timeline: Builder)
    requires Indexed(before)
    ensures timeline == BuildStep(before, event, index)
  {
    timeline := Resolve(before, event.pid, index);
    var actor := timeline.active[event.pid];
    timeline := Attribute(timeline, event, index);
    if event.childPid.Some? {
      timeline := Spawn(timeline, event.childPid.value, actor, index);
    } else {
      timeline := timeline.(spawned := timeline.spawned + [None]);
    }
  }
}
