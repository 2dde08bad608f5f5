/** The reader accepts exactly the annotations the recorder's timeline assigns. */
module Agreement {
  import opened Ordered
  import opened Records
  import opened Timeline
  import opened Lifetimes
  import opened Replay

  ghost function NameOf(g: Generation): TaskIdentity { TaskIdentity(g.pid, g.ordinal) }

  /** Lifetimes without an exit. */
  ghost function Open(b: Builder): set<TaskIdentity> {
    set g | 0 <= g < |b.generations| && b.generations[g].exitEvent.None? :: NameOf(b.generations[g])
  }

  ghost predicate SomeUntrusted(b: Builder) {
    exists g :: 0 <= g < |b.generations| && Untrusted(b.generations[g])
  }

  /** Validator state and builder describe the same lifetimes. */
  ghost predicate Linked(b: Builder, s: State)
    requires Indexed(b)
  {
    && s.latest == b.ordinals
    && s.active.Keys == b.active.Keys
    && (forall p :: p in b.active ==>
          s.active[p] == (b.generations[b.active[p]].ordinal, Untrusted(b.generations[b.active[p]])))
    && s.missing == Open(b)
    && s.hasInitial == b.hasInitial
    && (s.uncertain <==> SomeUntrusted(b))
  }

  /** The event carries the identity of its acting lifetime, and its uncertainty. */
  ghost predicate ActorNoted(g: Generation, e: Event) {
    e.taskGeneration == Some(g.ordinal) && (Untrusted(g) ==> e.contextUncertain)
  }

  ghost predicate ChildNoted(g: Generation, e: Event) {
    e.childGeneration == Some(g.ordinal) && (Untrusted(g) ==> e.contextUncertain)
  }

  // ---------- effect of the builder phases on open lifetimes and trust ----------

  lemma IntroduceOpen(b: Builder, pid: string, origin: Origin, event: nat)
    requires Indexed(b)
    ensures var r := Introduce(b, pid, origin, event); var g := r.generations[|b.generations|];
            && Open(r) == Open(b) + {NameOf(g)}
            && (SomeUntrusted(r) <==> SomeUntrusted(b) || Untrusted(g))
            && g.pid == pid && g.origin == origin && g.ordinal == r.ordinals[pid]
            && g.ordinal == (if pid in b.ordinals then b.ordinals[pid] else 0) + 1
  {
    var r := Introduce(b, pid, origin, event);
    var id := |b.generations|;
    assert forall x :: 0 <= x < id ==> r.generations[x] == b.generations[x];
    forall n ensures n in Open(r) <==> n in Open(b) + {NameOf(r.generations[id])} {
      if n in Open(b) {
        var x :| 0 <= x < id && b.generations[x].exitEvent.None? && NameOf(b.generations[x]) == n;
        assert r.generations[x].exitEvent.None?;
      }
    }
    if SomeUntrusted(b) {
      var x :| 0 <= x < id && Untrusted(b.generations[x]);
      assert Untrusted(r.generations[x]);
    }
  }

  /** (PID, ordinal) names one lifetime. */
  lemma UniqueName(b: Builder, id: nat)
    requires OrdinalsSound(b) && id < |b.generations|
    ensures forall x :: 0 <= x < |b.generations| && NameOf(b.generations[x]) == NameOf(b.generations[id]) ==> x == id
  {
  }

  lemma CloseOpen(b: Builder, r: Builder, id: nat)
    requires id < |b.generations| == |r.generations| && b.generations[id].exitEvent.None?
    requires forall x :: 0 <= x < |b.generations| ==> NameOf(r.generations[x]) == NameOf(b.generations[x])
    requires forall x :: 0 <= x < |b.generations| && x != id ==>
               r.generations[x].exitEvent == b.generations[x].exitEvent &&
               NameOf(b.generations[x]) != NameOf(b.generations[id])
    ensures NameOf(b.generations[id]) in Open(b)
    ensures Open(r) == if r.generations[id].exitEvent.Some? then Open(b) - {NameOf(b.generations[id])} else Open(b)
  {
    forall n | n in Open(b) && n != NameOf(b.generations[id]) ensures n in Open(r) {
      var x :| 0 <= x < |b.generations| && b.generations[x].exitEvent.None? && NameOf(b.generations[x]) == n;
      assert r.generations[x].exitEvent.None?;
    }
    if r.generations[id].exitEvent.None? {
      assert NameOf(r.generations[id]) in Open(r);
    }
  }

  lemma AttributeOpen(b: Builder, e: Event, event: nat)
    requires Sound(b) && Indexed(b) && e.pid in b.active
    ensures var r := Attribute(b, e, event); var self := NameOf(b.generations[b.active[e.pid]]);
            && Open(r) == (if e.kind == "exit" then Open(b) - {self} else Open(b))
            && (SomeUntrusted(r) <==> SomeUntrusted(b))
  {
    var r := Attribute(b, e, event);
    var id := b.active[e.pid];
    assert b.generations[id].exitEvent.None?;
    UniqueName(b, id);
    hide Sound;
    AttributeExtends(b, e, event);
    CloseOpen(b, r, id);
    hide Open;
    if SomeUntrusted(b) {
      var x :| 0 <= x < |b.generations| && Untrusted(b.generations[x]);
      assert Untrusted(r.generations[x]);
    }
  }

  // ---------- one step ----------

  /** What both machines expect of the acting lifetime `g` once it is resolved. */
  ghost predicate Expects(b: Builder, r: Builder, s: State, pid: string, g: Generation) {
    && Expected(s, pid) == (g.ordinal, Untrusted(g)) && g.ordinal >= 1 && g.pid == pid
    && Open(r) == Open(b) + {NameOf(g)}
    && (SomeUntrusted(r) <==> SomeUntrusted(b) || Untrusted(g))
    && r.ordinals == b.ordinals[pid := g.ordinal]
    && r.hasInitial && r.hasInitial == (s.hasInitial || pid !in s.active)
    && r.active.Keys == b.active.Keys + {pid}
    && (forall p :: p in b.active && p != pid ==>
          p in r.active && r.active[p] == b.active[p] && b.active[p] < |b.generations| <= |r.generations| &&
          r.generations[b.active[p]] == b.generations[b.active[p]])
  }

  lemma LiveExpected(b: Builder, s: State, pid: string)
    requires Sound(b) && Indexed(b) && Linked(b, s) && pid in b.active
    ensures Expects(b, b, s, pid, b.generations[b.active[pid]])
  {
    var g := b.active[pid];
    assert b.generations[g].exitEvent.None? && NameOf(b.generations[g]) in Open(b);
    assert b.ordinals == b.ordinals[pid := b.generations[g].ordinal];
  }

  lemma FreshExpected(b: Builder, s: State, pid: string, origin: Origin, i: nat)
    requires Sound(b) && Indexed(b) && Linked(b, s) && pid !in b.active
    requires if b.hasInitial then origin.Reappeared? || origin.Unintroduced? else origin.Initial?
    ensures var r := Introduce(b, pid, origin, i).(hasInitial := true);
            Expects(b, r, s, pid, r.generations[|b.generations|])
  {
    hide Sound;
    IntroduceOpen(b, pid, origin, i);
    var m := Introduce(b, pid, origin, i);
    var r := m.(hasInitial := true);
    SameOpen(m, r);
    hide Open;
    hide SomeUntrusted;
    hide NameOf;
  }

  lemma SameOpen(m: Builder, r: Builder)
    requires r.generations == m.generations
    ensures Open(r) == Open(m) && SomeUntrusted(r) == SomeUntrusted(m)
  {
  }

  lemma ResolveExpected(b: Builder, s: State, pid: string, i: nat)
    requires Sound(b) && Indexed(b) && Linked(b, s)
    ensures var r := Resolve(b, pid, i); Expects(b, r, s, pid, r.generations[r.active[pid]])
  {
    if pid in b.active {
      LiveExpected(b, s, pid);
    } else {
      var origin := if !b.hasInitial then Initial
                    else if pid in b.latest then Reappeared(b.latest[pid])
                    else Unintroduced;
      FreshExpected(b, s, pid, origin, i);
      hide Sound;
      hide Linked;
      hide Expects;
      assert Resolve(b, pid, i) == Introduce(b, pid, origin, i).(hasInitial := true);
    }
  }

  /** What the validator's actor step does when it accepts lifetime `g`. */
  ghost predicate ActorTaken(s: State, t: State, e: Event, g: Generation) {
    && t.latest == s.latest[e.pid := g.ordinal]
    && t.active == (if e.kind == "exit" then s.active - {e.pid} else s.active[e.pid := (g.ordinal, Untrusted(g))])
    && t.missing == (if e.kind == "exit" then s.missing - {NameOf(g)} else s.missing + {NameOf(g)})
    && t.hasInitial
    && t.uncertain == (s.uncertain || Untrusted(g))
  }

  lemma ActorAccepts(b: Builder, r: Builder, s: State, e: Event, g: Generation)
    requires Expects(b, r, s, e.pid, g)
    ensures ActorStep(s, e).Some? <==> ActorNoted(g, e)
    ensures ActorNoted(g, e) ==> ActorTaken(s, ActorStep(s, e).value, e, g)
  {
    hide Open;
    hide SomeUntrusted;
  }

  /** What attribution does to the resolved builder `r`. */
  ghost predicate ActorClosed(r: Builder, acted: Builder, e: Event, g: Generation) {
    && acted.ordinals == r.ordinals && acted.hasInitial == r.hasInitial
    && acted.active == (if e.kind == "exit" then r.active - {e.pid} else r.active)
    && Open(acted) == (if e.kind == "exit" then Open(r) - {NameOf(g)} else Open(r))
    && (SomeUntrusted(acted) <==> SomeUntrusted(r))
    && |acted.generations| == |r.generations|
    && (forall x :: 0 <= x < |r.generations| ==>
          acted.generations[x].ordinal == r.generations[x].ordinal &&
          Untrusted(acted.generations[x]) == Untrusted(r.generations[x]))
  }

  lemma AttributeCloses(r: Builder, e: Event, i: nat)
    requires Indexed(r) && Sound(r) && e.pid in r.active
    ensures ActorClosed(r, Attribute(r, e, i), e, r.generations[r.active[e.pid]])
  {
    hide Sound;
    hide Open;
    hide SomeUntrusted;
    hide NameOf;
    AttributeOpen(r, e, i);
  }

  /** The acting PID's live entry after its event, when it did not exit. */
  lemma ActorEntry(b: Builder, r: Builder, acted: Builder, s: State, t: State, e: Event, g: Generation, p: string)
    requires Indexed(b) && Indexed(r) && Indexed(acted) && Linked(b, s)
    requires e.pid in r.active && g == r.generations[r.active[e.pid]]
    requires Expects(b, r, s, e.pid, g) && ActorTaken(s, t, e, g) && ActorClosed(r, acted, e, g)
    requires p in acted.active
    ensures p in t.active
    ensures t.active[p] == (acted.generations[acted.active[p]].ordinal, Untrusted(acted.generations[acted.active[p]]))
  {
    hide Expected;
    hide Open;
    hide SomeUntrusted;
    hide Untrusted;
    hide NameOf;
    if p != e.pid { assert p in b.active && r.active[p] == b.active[p]; }
  }

  lemma ActorLinked(b: Builder, r: Builder, acted: Builder, s: State, t: State, e: Event, g: Generation)
    requires Indexed(b) && Indexed(r) && Indexed(acted) && Linked(b, s)
    requires e.pid in r.active && g == r.generations[r.active[e.pid]]
    requires Expects(b, r, s, e.pid, g) && ActorTaken(s, t, e, g) && ActorClosed(r, acted, e, g)
    ensures Linked(acted, t)
  {
    hide Expected;
    hide Open;
    hide SomeUntrusted;
    hide Untrusted;
    hide NameOf;
    forall p | p in acted.active
      ensures p in t.active
      ensures t.active[p] == (acted.generations[acted.active[p]].ordinal, Untrusted(acted.generations[acted.active[p]]))
    {
      ActorEntry(b, r, acted, s, t, e, g, p);
    }
    ActorSets(b, r, acted, s, t, e, g);
  }

  lemma ActorSets(b: Builder, r: Builder, acted: Builder, s: State, t: State, e: Event, g: Generation)
    requires Indexed(b) && Linked(b, s)
    requires Expects(b, r, s, e.pid, g) && ActorTaken(s, t, e, g) && ActorClosed(r, acted, e, g)
    ensures t.latest == acted.ordinals && t.missing == Open(acted) && t.active.Keys == acted.active.Keys
    ensures t.hasInitial == acted.hasInitial && (t.uncertain <==> SomeUntrusted(acted))
  {
    hide Expected;
    hide Open;
    hide SomeUntrusted;
    hide Untrusted;
    hide NameOf;
    var self := NameOf(g);
    assert Open(b) + {self} - {self} == Open(b) - {self};
  }

  lemma ActorAgrees(b: Builder, s: State, e: Event, i: nat)
    requires Sound(b) && Indexed(b) && Linked(b, s)
    ensures var r := Resolve(b, e.pid, i); var g := r.generations[r.active[e.pid]];
            && (ActorStep(s, e).Some? <==> ActorNoted(g, e))
            && (ActorNoted(g, e) ==> Linked(Attribute(r, e, i), ActorStep(s, e).value))
  {
    var r := Resolve(b, e.pid, i);
    var g := r.generations[r.active[e.pid]];
    ResolveExpected(b, s, e.pid, i);
    ResolveSound(b, e.pid, i);
    ActorAccepts(b, r, s, e, g);
    AttributeCloses(r, e, i);
    hide *;
    if ActorNoted(g, e) {
      ActorLinked(b, r, Attribute(r, e, i), s, ActorStep(s, e).value, e, g);
    }
  }

  /** The spawned lifetime `h` as both machines see it. */
  ghost predicate ChildAdded(b: Builder, r: Builder, s: State, child: string, h: Generation) {
    && h.ordinal == NextOrdinal(s, child) && h.pid == child && Untrusted(h) == (child in s.active)
    && r.generations == b.generations + [h]
    && r.ordinals == b.ordinals[child := h.ordinal] && r.hasInitial == b.hasInitial
    && r.active == b.active[child := |b.generations|]
    && Open(r) == Open(b) + {NameOf(h)}
    && (SomeUntrusted(r) <==> SomeUntrusted(b) || Untrusted(h))
  }

  lemma SpawnAdds(b: Builder, s: State, child: string, parent: nat, i: nat)
    requires Indexed(b) && Linked(b, s)
    ensures var r := Spawn(b, child, parent, i); ChildAdded(b, r, s, child, r.generations[|b.generations|])
  {
    var origin := if child in b.active then LiveCollision(b.active[child]) else Spawned(parent);
    IntroduceOpen(b, child, origin, i);
    var m := Introduce(b, child, origin, i);
    var r := Spawn(b, child, parent, i);
    assert Open(r) == Open(m) && SomeUntrusted(r) == SomeUntrusted(m);
    hide Open;
    hide SomeUntrusted;
  }

  lemma ChildLinked(b: Builder, r: Builder, s: State, e: Event, child: string, h: Generation)
    requires Indexed(b) && Indexed(r) && Linked(b, s) && ChildAdded(b, r, s, child, h)
    ensures ChildStep(s, e, child).Some? <==> ChildNoted(h, e)
    ensures ChildNoted(h, e) ==> Linked(r, ChildStep(s, e, child).value)
  {
    hide Open;
    hide SomeUntrusted;
    if ChildNoted(h, e) {
      var t := ChildStep(s, e, child).value;
      assert t.latest == r.ordinals && t.active.Keys == r.active.Keys;
    }
  }

  lemma ChildAgrees(b: Builder, s: State, e: Event, child: string, parent: nat, i: nat)
    requires Indexed(b) && Linked(b, s)
    ensures var r := Spawn(b, child, parent, i); var h := r.generations[|b.generations|];
            && (ChildStep(s, e, child).Some? <==> ChildNoted(h, e))
            && (ChildNoted(h, e) ==> Linked(r, ChildStep(s, e, child).value))
  {
    SpawnAdds(b, s, child, parent, i);
    var r := Spawn(b, child, parent, i);
    var h := r.generations[|b.generations|];
    hide *;
    ChildLinked(b, r, s, e, child, h);
  }

  lemma SpawnedFree(b: Builder, spawned: seq<Option<nat>>, s: State)
    requires Indexed(b) && Linked(b, s)
    ensures Linked(b.(spawned := spawned), s)
  {
    assert Open(b) == Open(b.(spawned := spawned)) && SomeUntrusted(b) == SomeUntrusted(b.(spawned := spawned));
  }

  lemma SpawnExtends(b: Builder, child: string, parent: nat, i: nat)
    requires Indexed(b)
    ensures Extends(b, Spawn(b, child, parent, i))
    ensures |Spawn(b, child, parent, i).generations| == |b.generations| + 1
  {
  }

  /** The step's event carries what the step assigned. */
  ghost predicate StepNoted(r: Builder, g: nat, e: Event) {
    && g < |r.generations| && ActorNoted(r.generations[g], e)
    && (e.childPid.Some? ==> ChildNoted(r.generations[|r.generations| - 1], e))
  }

  /** Both machines take the actor's half of the step first. */
  lemma ActorHalf(b: Builder, s: State, e: Event, i: nat)
    requires Sound(b) && Indexed(b) && Linked(b, s)
    ensures var resolved := Resolve(b, e.pid, i); var g := resolved.active[e.pid];
            var acted := Attribute(resolved, e, i);
            && ActorOf(b, e, i) == g
            && g < |acted.generations|
            && (ActorStep(s, e).Some? <==> ActorNoted(acted.generations[g], e))
            && (ActorStep(s, e).Some? ==> Linked(acted, ActorStep(s, e).value))
  {
    ActorAgrees(b, s, e, i);
    AttributeExtends(Resolve(b, e.pid, i), e, i);
    hide Resolve;
    hide Attribute;
    hide Linked;
    hide Sound;
    hide ActorStep;
  }

  lemma SpawnedFreeForAll(b: Builder, spawned: seq<Option<nat>>)
    requires Indexed(b)
    ensures forall s :: Linked(b, s) ==> Linked(b.(spawned := spawned), s)
  {
    forall s | Linked(b, s) { SpawnedFree(b, spawned, s); }
  }

  lemma ChildlessStepAgrees(b: Builder, s: State, e: Event, i: nat)
    requires Sound(b) && Indexed(b) && Linked(b, s) && e.childPid.None?
    ensures ReplayStep(s, e).Some? <==> StepNoted(BuildStep(b, e, i), ActorOf(b, e, i), e)
    ensures ReplayStep(s, e).Some? ==> Linked(BuildStep(b, e, i), ReplayStep(s, e).value)
  {
    hide Resolve;
    hide Attribute;
    hide Sound;
    hide Linked;
    hide ActorStep;
    hide ActorNoted;
    hide ActorOf;
    ActorHalf(b, s, e, i);
    var acted := Attribute(Resolve(b, e.pid, i), e, i);
    SpawnedFreeForAll(acted, acted.spawned + [None]);
  }

  lemma SpawningStepAgrees(b: Builder, s: State, e: Event, i: nat)
    requires Sound(b) && Indexed(b) && Linked(b, s) && e.childPid.Some?
    ensures ReplayStep(s, e).Some? <==> StepNoted(BuildStep(b, e, i), ActorOf(b, e, i), e)
    ensures ReplayStep(s, e).Some? ==> Linked(BuildStep(b, e, i), ReplayStep(s, e).value)
  {
    hide Resolve;
    hide Attribute;
    hide Spawn;
    hide Sound;
    hide Linked;
    hide ActorStep;
    hide ChildStep;
    hide ActorOf;
    ActorHalf(b, s, e, i);
    var acted := Attribute(Resolve(b, e.pid, i), e, i);
    var g := ActorOf(b, e, i);
    SpawnExtends(acted, e.childPid.value, g, i);
    if ActorStep(s, e).Some? {
      ChildAgrees(acted, ActorStep(s, e).value, e, e.childPid.value, g, i);
    }
  }

  lemma StepAgrees(b: Builder, s: State, e: Event, i: nat)
    requires Sound(b) && Indexed(b) && Linked(b, s)
    ensures ReplayStep(s, e).Some? <==> StepNoted(BuildStep(b, e, i), ActorOf(b, e, i), e)
    ensures ReplayStep(s, e).Some? ==> Linked(BuildStep(b, e, i), ReplayStep(s, e).value)
  {
    hide *;
    if e.childPid.None? { ChildlessStepAgrees(b, s, e, i); } else { SpawningStepAgrees(b, s, e, i); }
  }

  // ---------- whole runs ----------

  /** Position `a` carries what builder `b` assigned to it. */
  ghost predicate Noted(b: Builder, replay: seq<Event>, a: nat) {
    && a < |replay| && a < |b.actors| && a < |b.spawned| && b.actors[a] < |b.generations|
    && ActorNoted(b.generations[b.actors[a]], replay[a])
    && (replay[a].childPid.Some? ==>
          && b.spawned[a].Some? && b.spawned[a].value < |b.generations|
          && ChildNoted(b.generations[b.spawned[a].value], replay[a]))
  }

  ghost predicate AllNoted(b: Builder, replay: seq<Event>, k: nat) {
    forall a :: 0 <= a < k ==> Noted(b, replay, a)
  }

  lemma NotedPersists(b: Builder, r: Builder, replay: seq<Event>, k: nat, i: nat, g: nat)
    requires k < |replay| && Located(b, replay, k) && Recorded(b, r, replay[k], i, g)
    ensures forall a :: 0 <= a < k ==> (Noted(b, replay, a) <==> Noted(r, replay, a))
  {
    forall a | 0 <= a < k ensures Noted(b, replay, a) <==> Noted(r, replay, a) {
      assert r.actors[a] == b.actors[a];
      assert r.spawned[a] == r.spawned[..k][a] == b.spawned[a];
    }
  }

  lemma NotedLast(b: Builder, r: Builder, replay: seq<Event>, k: nat, i: nat, g: nat)
    requires k < |replay| && Located(b, replay, k) && Recorded(b, r, replay[k], i, g)
    ensures Noted(r, replay, k) <==> StepNoted(r, g, replay[k])
  {
    hide ActorNoted;
    hide ChildNoted;
    assert r.actors[k] == g;
  }

  lemma AllNotedStep(b: Builder, r: Builder, replay: seq<Event>, k: nat, i: nat, g: nat)
    requires k < |replay| && Located(b, replay, k) && Recorded(b, r, replay[k], i, g)
    ensures AllNoted(r, replay, k + 1) <==> AllNoted(b, replay, k) && StepNoted(r, g, replay[k])
  {
    NotedPersists(b, r, replay, k, i, g);
    NotedLast(b, r, replay, k, i, g);
    hide Noted;
    hide StepNoted;
    hide Located;
    hide Recorded;
    assert AllNoted(r, replay, k + 1) ==> Noted(r, replay, k);
  }

  /** After `k` events the reader has accepted iff every event carries the builder's assignment,
      and then it knows exactly the builder's lifetimes. */
  lemma {:induction false} PrefixAgrees(replay: seq<Event>, slots: seq<nat>, k: nat)
    requires k <= |replay| == |slots|
    ensures ReplayTo(replay, k).Some? <==> AllNoted(BuildTo(replay, slots, k), replay, k)
    ensures ReplayTo(replay, k).Some? ==> Linked(BuildTo(replay, slots, k), ReplayTo(replay, k).value)
  {
    hide BuildStep;
    hide ReplayStep;
    hide Linked;
    hide Noted;
    hide History;
    hide Sound;
    hide Located;
    hide Recorded;
    hide StepNoted;
    hide ActorOf;
    if k == 0 {
      StartLinked();
    } else {
      PrefixAgrees(replay, slots, k - 1);
      hide AllNoted;
      BuildHistory(replay, slots, k - 1);
      var b := BuildTo(replay, slots, k - 1);
      var e, i := replay[k - 1], slots[k - 1];
      HistoryParts(b, replay, slots, k - 1);
      StepRecords(b, e, i);
      AllNotedStep(b, BuildStep(b, e, i), replay, k - 1, i, ActorOf(b, e, i));
      if ReplayTo(replay, k - 1).Some? {
        StepAgrees(b, ReplayTo(replay, k - 1).value, e, i);
      }
    }
  }

  lemma StartLinked()
    ensures Linked(EMPTY, START)
  {
    assert Open(EMPTY) == {};
  }
}
