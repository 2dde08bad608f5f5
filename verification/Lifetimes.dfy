/** Invariants of the lifetime builder over every prefix of every trace. */
module Lifetimes {
  import opened Ordered
  import opened Records
  import opened Timeline

  // ---------- structure of the builder ----------

  /** The latest lifetime of a PID is its newest, and the live one if any lives. */
  ghost predicate LatestSound(b: Builder) {
    && b.latest.Keys == b.ordinals.Keys
    && (forall p :: p in b.latest ==>
          && b.latest[p] < |b.generations|
          && b.generations[b.latest[p]].pid == p
          && b.ordinals[p] == b.generations[b.latest[p]].ordinal)
    && (forall p :: p in b.active ==>
          p in b.latest && b.active[p] == b.latest[p] && b.generations[b.active[p]].exitEvent.None?)
  }

  /** Every lifetime is at most the latest of its PID; ordinals grow with identity. */
  ghost predicate OrdinalsSound(b: Builder) {
    && (forall g :: 0 <= g < |b.generations| ==>
          && 1 <= b.generations[g].ordinal <= g + 1
          && b.generations[g].pid in b.latest && g <= b.latest[b.generations[g].pid])
    && (forall g, h :: 0 <= g < h < |b.generations| && b.generations[g].pid == b.generations[h].pid ==>
          b.generations[g].ordinal < b.generations[h].ordinal)
  }

  ghost predicate HasLifetime(b: Builder, pid: string, ordinal: nat) {
    exists g :: 0 <= g < |b.generations| && b.generations[g].pid == pid && b.generations[g].ordinal == ordinal
  }

  /** Ordinals of a PID are contiguous from one. */
  ghost predicate Contiguous(b: Builder) {
    forall p, o: nat :: p in b.ordinals && 1 <= o <= b.ordinals[p] ==> HasLifetime(b, p, o)
  }

  /** Only the very first lifetime is Initial; other origins refer to earlier lifetimes. */
  ghost predicate OriginsSound(b: Builder) {
    && (b.hasInitial <==> b.generations != [])
    && (forall g :: 0 <= g < |b.generations| ==> (b.generations[g].origin.Initial? <==> g == 0))
    && (forall g :: 0 <= g < |b.generations| && b.generations[g].origin.Spawned? ==>
          b.generations[g].origin.parent < g)
    && (forall g :: 0 <= g < |b.generations| && b.generations[g].origin.LiveCollision? ==>
          b.generations[g].origin.previous < g &&
          b.generations[b.generations[g].origin.previous].pid == b.generations[g].pid)
  }

  ghost predicate Sound(b: Builder) {
    LatestSound(b) && OrdinalsSound(b) && Contiguous(b) && OriginsSound(b)
  }

  lemma SoundIndexed(b: Builder)
    requires LatestSound(b)
    ensures Indexed(b)
  {
  }

  ghost predicate OriginFits(b: Builder, pid: string, origin: Origin) {
    && (origin.Initial? <==> b.generations == [])
    && (origin.Spawned? ==> origin.parent < |b.generations|)
    && (origin.LiveCollision? ==> pid in b.active && origin.previous == b.active[pid])
  }

  // ---------- the three phases of one step keep it ----------

  lemma IntroduceLatest(b: Builder, pid: string, origin: Origin, event: nat)
    requires LatestSound(b)
    ensures LatestSound(Introduce(b, pid, origin, event))
  {
    var r := Introduce(b, pid, origin, event);
    assert r.latest.Keys == r.ordinals.Keys;
  }

  /** The next ordinal of a PID exceeds all its earlier ones and stays within the identity bound. */
  lemma FreshOrdinal(b: Builder, pid: string)
    requires LatestSound(b) && OrdinalsSound(b)
    ensures var next := (if pid in b.ordinals then b.ordinals[pid] else 0) + 1;
            && next <= |b.generations| + 1
            && forall g :: 0 <= g < |b.generations| && b.generations[g].pid == pid ==> b.generations[g].ordinal < next
  {
    if pid in b.ordinals {
      var last := b.latest[pid];
      forall g | 0 <= g < |b.generations| && b.generations[g].pid == pid
        ensures b.generations[g].ordinal <= b.generations[last].ordinal
      {
        assert g <= last;
      }
    }
  }

  lemma AppendedOrdinals(b: Builder, r: Builder, added: Generation)
    requires OrdinalsSound(b) && r.generations == b.generations + [added]
    requires r.latest == b.latest[added.pid := |b.generations|]
    requires 1 <= added.ordinal <= |b.generations| + 1
    requires forall g :: 0 <= g < |b.generations| && b.generations[g].pid == added.pid ==>
               b.generations[g].ordinal < added.ordinal
    ensures OrdinalsSound(r)
  {
  }

  lemma IntroduceOrdinals(b: Builder, pid: string, origin: Origin, event: nat)
    requires LatestSound(b) && OrdinalsSound(b)
    ensures OrdinalsSound(Introduce(b, pid, origin, event))
  {
    FreshOrdinal(b, pid);
    var r := Introduce(b, pid, origin, event);
    hide LatestSound;
    hide OrdinalsSound;
    AppendedOrdinals(b, r, r.generations[|b.generations|]);
  }

  lemma IntroduceContiguous(b: Builder, pid: string, origin: Origin, event: nat)
    requires LatestSound(b) && Contiguous(b)
    ensures Contiguous(Introduce(b, pid, origin, event))
  {
    hide LatestSound;
    SoundIndexed(b);
    var r := Introduce(b, pid, origin, event);
    forall p, o: nat | p in r.ordinals && 1 <= o <= r.ordinals[p] ensures HasLifetime(r, p, o) {
      if p == pid && o == r.ordinals[p] {
        var added := r.generations[|b.generations|];
        assert added.pid == pid && added.ordinal == o;
      } else {
        assert HasLifetime(b, p, o);
        KeepLifetime(b, r, p, o);
      }
    }
  }

  /** Lifetimes keep their PID and ordinal as the builder grows. */
  ghost predicate Extends(b: Builder, r: Builder) {
    && |b.generations| <= |r.generations|
    && forall g :: 0 <= g < |b.generations| ==>
         && r.generations[g].pid == b.generations[g].pid
         && r.generations[g].ordinal == b.generations[g].ordinal
         && r.generations[g].origin == b.generations[g].origin
  }

  lemma KeepLifetime(b: Builder, r: Builder, pid: string, ordinal: nat)
    requires Extends(b, r) && HasLifetime(b, pid, ordinal)
    ensures HasLifetime(r, pid, ordinal)
  {
    var g :| 0 <= g < |b.generations| && b.generations[g].pid == pid && b.generations[g].ordinal == ordinal;
    assert r.generations[g].pid == pid;
  }

  lemma IntroduceOrigins(b: Builder, pid: string, origin: Origin, event: nat)
    requires LatestSound(b) && OriginsSound(b) && OriginFits(b, pid, origin)
    ensures OriginsSound(Introduce(b, pid, origin, event).(hasInitial := true))
  {
  }

  lemma IntroduceSound(b: Builder, pid: string, origin: Origin, event: nat)
    requires Sound(b) && OriginFits(b, pid, origin)
    ensures Indexed(b) && Sound(Introduce(b, pid, origin, event).(hasInitial := true))
  {
    IntroduceLatest(b, pid, origin, event);
    IntroduceOrdinals(b, pid, origin, event);
    IntroduceContiguous(b, pid, origin, event);
    IntroduceOrigins(b, pid, origin, event);
    SoundIndexed(b);
    var r := Introduce(b, pid, origin, event);
    var s := r.(hasInitial := true);
    assert Extends(r, s) && Extends(s, r);
    SameShape(r, s);
  }

  /** Soundness does not depend on attribution or on exits of lifetimes that are not live. */
  lemma SameShape(r: Builder, s: Builder)
    requires LatestSound(r) && OrdinalsSound(r) && Contiguous(r)
    requires Extends(r, s) && |r.generations| == |s.generations|
    requires s.latest == r.latest && s.ordinals == r.ordinals
    requires forall p :: p in s.active ==>
               p in r.active && s.active[p] == r.active[p] && s.generations[r.active[p]].exitEvent.None?
    ensures LatestSound(s) && OrdinalsSound(s) && Contiguous(s)
  {
    forall p, o: nat | p in s.ordinals && 1 <= o <= s.ordinals[p] ensures HasLifetime(s, p, o) {
      assert HasLifetime(r, p, o);
      KeepLifetime(r, s, p, o);
    }
  }

  lemma ResolveSound(b: Builder, pid: string, event: nat)
    requires Sound(b)
    ensures Indexed(b) && Sound(Resolve(b, pid, event))
  {
    SoundIndexed(b);
    if pid !in b.active {
      var origin := if !b.hasInitial then Initial
                    else if pid in b.latest then Reappeared(b.latest[pid])
                    else Unintroduced;
      IntroduceSound(b, pid, origin, event);
      hide Sound;
      hide OriginFits;
      assert Resolve(b, pid, event) == Introduce(b, pid, origin, event).(hasInitial := true);
    }
  }

  lemma AttributeSound(b: Builder, e: Event, event: nat)
    requires Sound(b) && Indexed(b) && e.pid in b.active
    ensures Sound(Attribute(b, e, event))
  {
    var r := Attribute(b, e, event);
    AttributeExtends(b, e, event);
    AttributeKeepsOtherLives(b, e, event);
    SameShape(b, r);
    assert OriginsSound(r);
  }

  lemma AttributeExtends(b: Builder, e: Event, event: nat)
    requires Indexed(b) && e.pid in b.active
    ensures Extends(b, Attribute(b, e, event)) && |b.generations| == |Attribute(b, e, event).generations|
  {
  }

  lemma AttributeKeepsOtherLives(b: Builder, e: Event, event: nat)
    requires LatestSound(b) && Indexed(b) && e.pid in b.active
    ensures var r := Attribute(b, e, event);
            forall p :: p in r.active ==>
              p in b.active && r.active[p] == b.active[p] && r.generations[b.active[p]].exitEvent.None?
  {
    var r := Attribute(b, e, event);
    forall p | p in r.active
      ensures p in b.active && r.active[p] == b.active[p] && r.generations[b.active[p]].exitEvent.None?
    {
      assert b.generations[b.active[p]].pid == p;
    }
  }

  lemma InitialSeen(b: Builder, pid: string, origin: Origin, event: nat)
    requires Sound(b) && Indexed(b) && b.generations != []
    ensures var next := Introduce(b, pid, origin, event); next == next.(hasInitial := true)
  {
    hide LatestSound;
    hide OrdinalsSound;
    hide Contiguous;
  }

  lemma SpawnSound(b: Builder, child: string, parent: nat, event: nat)
    requires Sound(b) && Indexed(b) && parent < |b.generations|
    ensures Sound(Spawn(b, child, parent, event))
  {
    hide Introduce;
    hide Sound;
    var origin := if child in b.active then LiveCollision(b.active[child]) else Spawned(parent);
    InitialSeen(b, child, origin, event);
    IntroduceSound(b, child, origin, event);
    SpawnedIrrelevant(Introduce(b, child, origin, event),
                      Introduce(b, child, origin, event).spawned + [Some(|b.generations|)]);
  }

  lemma SpawnedIrrelevant(b: Builder, spawned: seq<Option<nat>>)
    requires Sound(b)
    ensures Sound(b.(spawned := spawned))
  {
    SameShape(b, b.(spawned := spawned));
  }

  lemma StepSound(b: Builder, e: Event, event: nat)
    requires Sound(b) && Indexed(b)
    ensures Sound(BuildStep(b, e, event))
  {
    hide Sound;
    var resolved := Resolve(b, e.pid, event);
    ResolveSound(b, e.pid, event);
    AttributeSound(resolved, e, event);
    var acted := Attribute(resolved, e, event);
    AttributeExtends(resolved, e, event);
    hide Resolve;
    hide Attribute;
    if e.childPid.Some? {
      SpawnSound(acted, e.childPid.value, resolved.active[e.pid], event);
    } else {
      SpawnedIrrelevant(acted, acted.spawned + [None]);
    }
  }

  // ---------- what one step records ----------

  ghost function ActorOf(b: Builder, e: Event, event: nat): nat
    requires Indexed(b)
  {
    Resolve(b, e.pid, event).active[e.pid]
  }

  /** The step's actor `g` is the live lifetime or a fresh one; only it can exit. */
  ghost predicate Acted(b: Builder, r: Builder, e: Event, i: nat, g: nat) {
    && Extends(b, r)
    && g < |r.generations| && r.generations[g].pid == e.pid
    && (g < |b.generations| ==> b.generations[g].exitEvent.None?)
    && r.generations[g].exitEvent == (if e.kind == "exit" then Some(i) else None)
    && r.actors == b.actors + [g]
    && (forall x :: 0 <= x < |b.generations| && x != g ==> r.generations[x].exitEvent == b.generations[x].exitEvent)
    && (forall x :: |b.generations| <= x < |r.generations| && x != g ==> r.generations[x].exitEvent.None?)
    && (forall x :: 0 <= x < |b.generations| && b.generations[x].pid == e.pid ==> x <= g)
  }

  ghost predicate Recorded(b: Builder, r: Builder, e: Event, i: nat, g: nat) {
    && Acted(b, r, e, i, g)
    && |r.spawned| == |b.spawned| + 1 && r.spawned[..|b.spawned|] == b.spawned
    && (e.childPid.None? ==> r.spawned[|b.spawned|].None?)
    && (e.childPid.Some? ==>
          && r.spawned[|b.spawned|] == Some(|r.generations| - 1)
          && g < |r.generations| - 1 && |b.generations| < |r.generations|
          && r.generations[|r.generations| - 1].pid == e.childPid.value)
  }

  /** A fresh lifetime is appended live and open; everything else stays. */
  ghost predicate Appended(b: Builder, r: Builder, pid: string) {
    && |r.generations| == |b.generations| + 1
    && (forall x :: 0 <= x < |b.generations| ==> r.generations[x] == b.generations[x])
    && r.generations[|b.generations|].pid == pid
    && r.generations[|b.generations|].exitEvent.None?
    && r.actors == b.actors
    && pid in r.active && r.active[pid] == |b.generations|
  }

  lemma IntroduceAppends(b: Builder, pid: string, origin: Origin, event: nat)
    requires Indexed(b)
    ensures Appended(b, Introduce(b, pid, origin, event), pid)
    ensures Introduce(b, pid, origin, event).spawned == b.spawned
  {
  }

  lemma ResolveAppends(b: Builder, pid: string, event: nat)
    requires Indexed(b)
    ensures var r := Resolve(b, pid, event);
            && (pid in b.active ==> r == b)
            && (pid !in b.active ==> Appended(b, r, pid) && r.spawned == b.spawned)
  {
    forall origin ensures Appended(b, Introduce(b, pid, origin, event), pid)
                  ensures Introduce(b, pid, origin, event).spawned == b.spawned
    { IntroduceAppends(b, pid, origin, event); }
    hide Introduce;
  }

  lemma ResolveRecords(b: Builder, pid: string, i: nat)
    requires Sound(b) && Indexed(b)
    ensures var r := Resolve(b, pid, i); var g := r.active[pid];
            && Extends(b, r) && r.actors == b.actors && r.spawned == b.spawned
            && g < |r.generations| && r.generations[g].pid == pid && r.generations[g].exitEvent.None?
            && (g < |b.generations| ==> b.generations[g].exitEvent.None?)
            && (forall x :: 0 <= x < |b.generations| ==> r.generations[x].exitEvent == b.generations[x].exitEvent)
            && |r.generations| <= |b.generations| + 1
            && (|r.generations| == |b.generations| + 1 ==> g == |b.generations|)
            && (forall x :: 0 <= x < |b.generations| && b.generations[x].pid == pid ==> x <= g)
  {
    ResolveAppends(b, pid, i);
    hide Resolve;
    hide Contiguous;
    hide OriginsSound;
  }

  lemma AttributeRecords(b: Builder, e: Event, i: nat)
    requires Sound(b) && Indexed(b)
    ensures var resolved := Resolve(b, e.pid, i); var acted := Attribute(resolved, e, i);
            Acted(b, acted, e, i, resolved.active[e.pid]) && acted.spawned == b.spawned
  {
    var resolved := Resolve(b, e.pid, i);
    ResolveRecords(b, e.pid, i);
    hide Resolve;
    hide Sound;
    AttributeExtends(resolved, e, i);
  }

  lemma SpawnRecords(b: Builder, acted: Builder, e: Event, i: nat, g: nat)
    requires Indexed(acted) && e.childPid.Some?
    requires Acted(b, acted, e, i, g) && acted.spawned == b.spawned
    ensures Recorded(b, Spawn(acted, e.childPid.value, g, i), e, i, g)
  {
    var child := e.childPid.value;
    forall origin ensures Appended(acted, Introduce(acted, child, origin, i), child)
                  ensures Introduce(acted, child, origin, i).spawned == acted.spawned
    { IntroduceAppends(acted, child, origin, i); }
    hide Introduce;
    var r := Spawn(acted, child, g, i);
    assert Appended(acted, r, child);
    assert r.spawned == acted.spawned + [Some(|acted.generations|)];
    assert Extends(b, r);
  }

  lemma StepRecords(b: Builder, e: Event, i: nat)
    requires Sound(b) && Indexed(b)
    ensures Recorded(b, BuildStep(b, e, i), e, i, ActorOf(b, e, i))
  {
    hide Resolve;
    hide Attribute;
    hide Spawn;
    hide Sound;
    hide Acted;
    AttributeRecords(b, e, i);
    var resolved := Resolve(b, e.pid, i);
    var acted := Attribute(resolved, e, i);
    if e.childPid.Some? {
      SpawnRecords(b, acted, e, i, resolved.active[e.pid]);
    } else {
      UnspawnedRecords(b, acted, BuildStep(b, e, i), e, i, resolved.active[e.pid]);
    }
  }

  lemma UnspawnedRecords(b: Builder, acted: Builder, r: Builder, e: Event, i: nat, g: nat)
    requires Acted(b, acted, e, i, g) && acted.spawned == b.spawned && e.childPid.None?
    requires r == acted.(spawned := acted.spawned + [None])
    ensures Recorded(b, r, e, i, g)
  {
  }

  // ---------- where every event went ----------

  /** Events replayed so far carry a lifetime of their own PID, spawns a fresh one of the child's. */
  ghost predicate Located(b: Builder, replay: seq<Event>, k: nat)
    requires k <= |replay|
  {
    && |b.actors| == |b.spawned| == k
    && (forall a :: 0 <= a < k ==>
          b.actors[a] < |b.generations| && b.generations[b.actors[a]].pid == replay[a].pid)
    && (forall a :: 0 <= a < k ==> b.spawned[a].Some? == replay[a].childPid.Some?)
    && (forall a :: 0 <= a < k && b.spawned[a].Some? ==>
          && b.spawned[a].value < |b.generations|
          && b.generations[b.spawned[a].value].pid == replay[a].childPid.value)
  }

  ghost predicate ExitedAt(b: Builder, replay: seq<Event>, slots: seq<nat>, g: nat, a: nat)
    requires |replay| == |slots| && g < |b.generations|
  {
    && a < |replay| && a < |b.actors| && b.actors[a] == g
    && replay[a].kind == "exit" && b.generations[g].exitEvent == Some(slots[a])
  }

  /** A lifetime's recorded exit is exactly the exit event it performed. */
  ghost predicate ExitsLocated(b: Builder, replay: seq<Event>, slots: seq<nat>, k: nat)
    requires k <= |replay| == |slots| && Located(b, replay, k)
  {
    && (forall a :: 0 <= a < k && replay[a].kind == "exit" ==> ExitedAt(b, replay, slots, b.actors[a], a))
    && (forall g :: 0 <= g < |b.generations| && b.generations[g].exitEvent.Some? ==>
          exists a :: 0 <= a < k && ExitedAt(b, replay, slots, g, a))
  }

  /** Per PID the acting lifetime only advances, and an exited lifetime never acts again. */
  ghost predicate Advancing(b: Builder, replay: seq<Event>, k: nat)
    requires k <= |replay| && k <= |b.actors|
  {
    forall a, c :: 0 <= a < c < k && replay[a].pid == replay[c].pid ==>
      && b.actors[a] <= b.actors[c]
      && (replay[a].kind == "exit" ==> b.actors[a] < b.actors[c])
  }

  /** Once a spawn introduces a lifetime, older lifetimes of that PID never act again. */
  ghost predicate Displacing(b: Builder, replay: seq<Event>, k: nat)
    requires k <= |replay| && Located(b, replay, k)
  {
    forall a, c :: 0 <= a < c < k && replay[a].childPid == Some(replay[c].pid) ==>
      b.spawned[a].value <= b.actors[c]
  }

  /** A spawn introduces a lifetime newer than everything of its PID seen before. */
  ghost predicate Introducing(b: Builder, replay: seq<Event>, k: nat)
    requires k <= |replay| && Located(b, replay, k)
  {
    && (forall a, c :: 0 <= a <= c < k && b.spawned[c].Some? ==> b.actors[a] < b.spawned[c].value)
    && (forall a, c :: 0 <= a < c < k && b.spawned[a].Some? && b.spawned[c].Some? ==>
          b.spawned[a].value < b.spawned[c].value)
  }

  ghost predicate Chronological(b: Builder, replay: seq<Event>, k: nat)
    requires k <= |replay| && Located(b, replay, k)
  {
    Advancing(b, replay, k) && Displacing(b, replay, k) && Introducing(b, replay, k)
  }

  lemma LocatedStep(b: Builder, r: Builder, replay: seq<Event>, k: nat, i: nat, g: nat)
    requires k < |replay| && Located(b, replay, k) && Recorded(b, r, replay[k], i, g)
    ensures Located(r, replay, k + 1)
  {
    assert forall a :: 0 <= a < k ==> r.spawned[a] == r.spawned[..k][a];
  }

  lemma ExitsStep(b: Builder, r: Builder, replay: seq<Event>, slots: seq<nat>, k: nat, g: nat)
    requires k < |replay| == |slots| && Located(b, replay, k) && Located(r, replay, k + 1)
    requires Recorded(b, r, replay[k], slots[k], g) && ExitsLocated(b, replay, slots, k)
    ensures ExitsLocated(r, replay, slots, k + 1)
  {
    assert |b.actors| == k && r.actors == b.actors + [g];
    forall a | 0 <= a < k + 1 && replay[a].kind == "exit" ensures ExitedAt(r, replay, slots, r.actors[a], a) {
      if a < k {
        assert ExitedAt(b, replay, slots, b.actors[a], a);
        assert b.actors[a] != g;
      }
    }
    forall x | 0 <= x < |r.generations| && r.generations[x].exitEvent.Some?
      ensures exists a :: 0 <= a < k + 1 && ExitedAt(r, replay, slots, x, a)
    {
      if x == g {
        assert ExitedAt(r, replay, slots, x, k);
      } else {
        var a :| 0 <= a < k && ExitedAt(b, replay, slots, x, a);
        assert ExitedAt(r, replay, slots, x, a);
      }
    }
  }

  lemma AdvancingStep(b: Builder, r: Builder, replay: seq<Event>, slots: seq<nat>, k: nat, g: nat)
    requires k < |replay| == |slots| && Located(b, replay, k) && |r.actors| == k + 1
    requires Acted(b, r, replay[k], slots[k], g)
    requires ExitsLocated(b, replay, slots, k) && Advancing(b, replay, k)
    ensures Advancing(r, replay, k + 1)
  {
    forall a | 0 <= a < k && replay[a].pid == replay[k].pid
      ensures r.actors[a] <= g && (replay[a].kind == "exit" ==> r.actors[a] < g)
    {
      assert r.actors[a] == b.actors[a];
      if replay[a].kind == "exit" { assert ExitedAt(b, replay, slots, b.actors[a], a); }
    }
  }

  lemma DisplacingStep(b: Builder, r: Builder, replay: seq<Event>, k: nat, i: nat, g: nat)
    requires k < |replay| && Located(b, replay, k) && Located(r, replay, k + 1)
    requires Recorded(b, r, replay[k], i, g) && Displacing(b, replay, k)
    ensures Displacing(r, replay, k + 1)
  {
    assert forall a :: 0 <= a < k ==> r.actors[a] == b.actors[a];
    assert forall a :: 0 <= a < k ==> r.spawned[a] == r.spawned[..k][a];
    assert r.actors[k] == g;
    forall a | 0 <= a < k && replay[a].childPid == Some(replay[k].pid) ensures r.spawned[a].value <= g {
      assert b.spawned[a].Some?;
      assert b.generations[b.spawned[a].value].pid == replay[k].pid;
    }
  }

  lemma IntroducingStep(b: Builder, r: Builder, replay: seq<Event>, k: nat, i: nat, g: nat)
    requires k < |replay| && Located(b, replay, k) && Located(r, replay, k + 1)
    requires Recorded(b, r, replay[k], i, g) && Introducing(b, replay, k)
    ensures Introducing(r, replay, k + 1)
  {
    assert forall a :: 0 <= a < k ==> r.actors[a] == b.actors[a];
    assert forall a :: 0 <= a < k ==> r.spawned[a] == r.spawned[..k][a];
    assert r.actors[k] == g;
    if r.spawned[k].Some? { NewestSpawn(b, r, replay, k, i, g); }
    hide Located;
    hide Recorded;
  }

  /** The spawned lifetime of the last step is newer than everything before it. */
  lemma NewestSpawn(b: Builder, r: Builder, replay: seq<Event>, k: nat, i: nat, g: nat)
    requires k < |replay| && Located(b, replay, k) && Located(r, replay, k + 1)
    requires Recorded(b, r, replay[k], i, g) && r.spawned[k].Some?
    ensures forall a :: 0 <= a <= k ==> r.actors[a] < r.spawned[k].value
    ensures forall a :: 0 <= a < k && b.spawned[a].Some? ==> b.spawned[a].value < r.spawned[k].value
  {
    assert forall a :: 0 <= a < k ==> r.actors[a] == b.actors[a];
    assert r.actors[k] == g;
  }

  ghost predicate History(b: Builder, replay: seq<Event>, slots: seq<nat>, k: nat)
    requires k <= |replay| == |slots|
  {
    Sound(b) && Located(b, replay, k) && ExitsLocated(b, replay, slots, k) && Chronological(b, replay, k)
  }

  lemma HistoryStep(b: Builder, replay: seq<Event>, slots: seq<nat>, k: nat)
    requires k < |replay| == |slots| && Indexed(b) && History(b, replay, slots, k)
    ensures History(BuildStep(b, replay[k], slots[k]), replay, slots, k + 1)
  {
    var e, i := replay[k], slots[k];
    var r := BuildStep(b, e, i);
    var g := ActorOf(b, e, i);
    hide BuildStep;
    hide ActorOf;
    hide Sound;
    StepRecords(b, e, i);
    StepSound(b, e, i);
    LocatedStep(b, r, replay, k, i, g);
    hide Located;
    hide ExitsLocated;
    ExitsStep(b, r, replay, slots, k, g);
    assert |r.actors| == k + 1 && Acted(b, r, e, i, g) by { LocatedLength(r, replay, k + 1); }
    hide Recorded;
    hide Acted;
    AdvancingStep(b, r, replay, slots, k, g);
    DisplacingStep(b, r, replay, k, i, g);
    IntroducingStep(b, r, replay, k, i, g);
    hide Advancing;
    hide Displacing;
    hide Introducing;
  }

  lemma LocatedLength(b: Builder, replay: seq<Event>, k: nat)
    requires k <= |replay| && Located(b, replay, k)
    ensures |b.actors| == |b.spawned| == k
  {
  }

  lemma EmptyHistory(replay: seq<Event>, slots: seq<nat>)
    requires |replay| == |slots|
    ensures History(EMPTY, replay, slots, 0)
  {
  }

  lemma {:induction false} BuildHistory(replay: seq<Event>, slots: seq<nat>, k: nat)
    requires k <= |replay| == |slots|
    ensures History(BuildTo(replay, slots, k), replay, slots, k)
  {
    hide BuildStep;
    hide History;
    if k == 0 {
      EmptyHistory(replay, slots);
    } else {
      BuildHistory(replay, slots, k - 1);
      HistoryStep(BuildTo(replay, slots, k - 1), replay, slots, k - 1);
    }
  }

  // ---------- who introduced every lifetime ----------

  predicate BySpawn(origin: Origin) { origin.Spawned? || origin.LiveCollision? }

  /** A step adds its acting lifetime when it is not live, and its spawned one. */
  ghost predicate Grew(b: Builder, r: Builder, e: Event, g: nat) {
    && |b.generations| <= |r.generations| <= |b.generations| + (if e.childPid.Some? then 2 else 1)
    && forall x :: |b.generations| <= x < |r.generations| ==>
         if BySpawn(r.generations[x].origin)
         then e.childPid.Some? && x == |r.generations| - 1 &&
              (r.generations[x].origin.Spawned? ==> r.generations[x].origin.parent == g)
         else x == g
  }

  lemma ResolveGrows(b: Builder, e: Event, i: nat)
    requires Indexed(b)
    ensures var r := Resolve(b, e.pid, i);
            Grew(b, Attribute(r, e, i), e.(childPid := None), r.active[e.pid])
  {
    var r := Resolve(b, e.pid, i);
    AttributeExtends(r, e, i);
    assert Grew(b, r, e.(childPid := None), r.active[e.pid]);
    hide Resolve;
    hide Attribute;
  }

  lemma GrewPlain(b: Builder, acted: Builder, r: Builder, e: Event, g: nat)
    requires Grew(b, acted, e.(childPid := None), g) && r.generations == acted.generations
    ensures e.childPid.None? ==> Grew(b, r, e, g)
  {
  }

  lemma GrewSpawn(b: Builder, acted: Builder, r: Builder, e: Event, g: nat)
    requires Grew(b, acted, e.(childPid := None), g) && e.childPid.Some?
    requires |r.generations| == |acted.generations| + 1
    requires forall x :: 0 <= x < |acted.generations| ==> r.generations[x] == acted.generations[x]
    requires var origin := r.generations[|acted.generations|].origin;
             BySpawn(origin) && (origin.Spawned? ==> origin.parent == g)
    ensures Grew(b, r, e, g)
  {
  }

  lemma StepGrows(b: Builder, e: Event, i: nat)
    requires Indexed(b)
    ensures Grew(b, BuildStep(b, e, i), e, ActorOf(b, e, i))
  {
    hide Resolve;
    hide Attribute;
    hide Grew;
    ResolveGrows(b, e, i);
    var resolved := Resolve(b, e.pid, i);
    var acted := Attribute(resolved, e, i);
    if e.childPid.Some? {
      GrewSpawn(b, acted, BuildStep(b, e, i), e, ActorOf(b, e, i));
    } else {
      GrewPlain(b, acted, BuildStep(b, e, i), e, ActorOf(b, e, i));
    }
  }

  /** Replayed event `a` brought lifetime `g` into the trace. */
  ghost predicate Introduces(b: Builder, a: nat, g: nat)
    requires g < |b.generations|
  {
    && a < |b.actors| && a < |b.spawned|
    && if BySpawn(b.generations[g].origin)
       then b.spawned[a] == Some(g) &&
            (b.generations[g].origin.Spawned? ==> b.generations[g].origin.parent == b.actors[a])
       else b.actors[a] == g
  }

  ghost predicate Accounted(b: Builder) {
    forall g :: 0 <= g < |b.generations| ==> HasIntroducer(b, g)
  }

  ghost predicate HasIntroducer(b: Builder, g: nat)
    requires g < |b.generations|
  {
    exists a: nat :: Introduces(b, a, g)
  }

  lemma AccountedStep(b: Builder, r: Builder, replay: seq<Event>, k: nat, i: nat, g: nat)
    requires k < |replay| && Located(b, replay, k) && Recorded(b, r, replay[k], i, g)
    requires Grew(b, r, replay[k], g) && Accounted(b)
    ensures Accounted(r)
  {
    forall x | 0 <= x < |r.generations| ensures HasIntroducer(r, x) {
      if x < |b.generations| {
        assert HasIntroducer(b, x);
        var a: nat :| Introduces(b, a, x);
        assert r.spawned[a] == r.spawned[..k][a] == b.spawned[a] && r.actors[a] == b.actors[a];
        assert Introduces(r, a, x);
      } else {
        assert Introduces(r, k, x);
      }
    }
  }

  lemma {:induction false} BuildAccounted(replay: seq<Event>, slots: seq<nat>, k: nat)
    requires k <= |replay| == |slots|
    ensures Accounted(BuildTo(replay, slots, k)) && |BuildTo(replay, slots, k).generations| <= 2 * k
  {
    hide BuildStep;
    hide Accounted;
    hide History;
    hide Grew;
    hide Recorded;
    hide ActorOf;
    if k == 0 {
      assert Accounted(EMPTY) by { NothingToAccount(); }
    } else {
      BuildAccounted(replay, slots, k - 1);
      BuildHistory(replay, slots, k - 1);
      var b := BuildTo(replay, slots, k - 1);
      var e, i := replay[k - 1], slots[k - 1];
      var g := ActorOf(b, e, i);
      HistoryParts(b, replay, slots, k - 1);
      StepRecords(b, e, i);
      StepGrows(b, e, i);
      AccountedStep(b, BuildStep(b, e, i), replay, k - 1, i, g);
      assert |BuildStep(b, e, i).generations| <= |b.generations| + 2 by { GrewByTwo(b, BuildStep(b, e, i), e, g); }
    }
  }

  lemma NothingToAccount()
    ensures Accounted(EMPTY)
  {
  }

  lemma GrewByTwo(b: Builder, r: Builder, e: Event, g: nat)
    requires Grew(b, r, e, g)
    ensures |r.generations| <= |b.generations| + 2
  {
  }

  lemma HistoryParts(b: Builder, replay: seq<Event>, slots: seq<nat>, k: nat)
    requires k <= |replay| == |slots| && History(b, replay, slots, k)
    ensures Sound(b) && Located(b, replay, k)
  {
  }
}
