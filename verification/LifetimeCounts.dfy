/** Lifetimes counted on the trace alone: no timeline, no maps, no saved annotation.

    A PID lives when the last event that touched it was not its exit. It gets a new lifetime from every
    spawn of it and from every event that finds it not living. The reader accepts exactly the annotations
    these counts give.
 */
module LifetimeCounts {
  import opened Ordered
  import opened Records
  import opened Timeline
  import opened Lifetimes
  import opened Replay
  import opened Agreement
  import opened LifetimeLaws

  // ---------- evidence order on lines ----------

  /** Entry lines first, then end lines, then vector positions. */
  predicate ReadsBefore(events: seq<Event>, i: nat, j: nat) {
    && i < |events| && j < |events|
    && events[i].evidence.line <= events[j].evidence.line
    && (events[i].evidence.line == events[j].evidence.line ==>
          && events[i].evidence.endLine <= events[j].evidence.endLine
          && (events[i].evidence.endLine == events[j].evidence.endLine ==> i < j))
  }

  lemma OrderedByLines(events: seq<Event>, a: nat, c: nat)
    requires a < c < |events|
    ensures ReadsBefore(events, EvidenceOrder(events)[a], EvidenceOrder(events)[c])
  {
    var order := EvidenceOrder(events);
    assert order[a] in order && order[c] in order;
    assert Earlier(events)(order[a], order[c]);
  }

  /** What reads earlier is replayed earlier. */
  lemma ReplayedByLines(events: seq<Event>, i: nat, j: nat) returns (a: nat, c: nat)
    requires ReadsBefore(events, i, j)
    ensures a < c < |events| && EvidenceOrder(events)[a] == i && EvidenceOrder(events)[c] == j
  {
    a := PositionOf(events, i);
    c := PositionOf(events, j);
    if c < a { OrderedByLines(events, c, a); }
    hide EvidenceOrder;
  }

  lemma PositionOf(events: seq<Event>, i: nat) returns (a: nat)
    requires i < |events|
    ensures a < |events| && EvidenceOrder(events)[a] == i
  {
    hide Earlier;
    hide Ascending;
    assert i in EvidenceOrder(events);
    a :| 0 <= a < |events| && EvidenceOrder(events)[a] == i;
  }

  // ---------- the counts ----------

  /** The last of the first `k` events that touched the PID was not its exit. */
  predicate Lives(replay: seq<Event>, k: nat, pid: string)
    requires k <= |replay|
  {
    k > 0 &&
    if replay[k - 1].childPid == Some(pid) then true
    else if replay[k - 1].pid == pid then replay[k - 1].kind != "exit"
    else Lives(replay, k - 1, pid)
  }

  /** How many lifetimes of the PID the first `k` events show. */
  function LifetimeCount(replay: seq<Event>, k: nat, pid: string): nat
    requires k <= |replay|
  {
    if k == 0 then 0
    else
      LifetimeCount(replay, k - 1, pid)
      + (if replay[k - 1].pid == pid && !Lives(replay, k - 1, pid) then 1 else 0)
      + (if replay[k - 1].childPid == Some(pid) then 1 else 0)
  }

  /** The event at `a` finds its PID not living, and is not the trace's first. */
  predicate Unannounced(replay: seq<Event>, a: nat)
    requires a < |replay|
  {
    a > 0 && !Lives(replay, a, replay[a].pid)
  }

  /** The event at `a` spawns a PID that still lives. */
  predicate Collides(replay: seq<Event>, a: nat)
    requires a < |replay|
  {
    replay[a].childPid.Some? &&
    if replay[a].childPid.value == replay[a].pid then replay[a].kind != "exit"
    else Lives(replay, a, replay[a].childPid.value)
  }

  /** The newest lifetime of the PID began without an announcement or by a collision. */
  predicate Doubtful(replay: seq<Event>, k: nat, pid: string)
    requires k <= |replay|
  {
    k > 0 &&
    if replay[k - 1].childPid == Some(pid) then Collides(replay, k - 1)
    else if replay[k - 1].pid == pid && !Lives(replay, k - 1, pid) then Unannounced(replay, k - 1)
    else Doubtful(replay, k - 1, pid)
  }

  /** The ordinal the event at `a` acts under, and whether its lifetime is doubtful. */
  function ActingOrdinal(replay: seq<Event>, a: nat): nat
    requires a < |replay|
  {
    LifetimeCount(replay, a, replay[a].pid) + (if Lives(replay, a, replay[a].pid) then 0 else 1)
  }

  predicate ActsInDoubt(replay: seq<Event>, a: nat)
    requires a < |replay|
  {
    if Lives(replay, a, replay[a].pid) then Doubtful(replay, a, replay[a].pid) else Unannounced(replay, a)
  }

  /** The saved annotations of one event are the counted ones, and doubt is admitted. */
  predicate Carries(replay: seq<Event>, a: nat)
    requires a < |replay|
  {
    && replay[a].taskGeneration == Some(ActingOrdinal(replay, a))
    && (replay[a].childPid.Some? ==>
          replay[a].childGeneration == Some(LifetimeCount(replay, a + 1, replay[a].childPid.value)))
    && (ActsInDoubt(replay, a) || Collides(replay, a) ==> replay[a].contextUncertain)
  }

  // ---------- the reader computes them ----------

  function Latest(s: State, pid: string): nat { if pid in s.latest then s.latest[pid] else 0 }

  ghost predicate Knows(s: State, replay: seq<Event>, k: nat, pid: string)
    requires k <= |replay|
  {
    && (pid in s.active <==> Lives(replay, k, pid))
    && Latest(s, pid) == LifetimeCount(replay, k, pid)
    && (pid in s.active ==> s.active[pid] == (LifetimeCount(replay, k, pid), Doubtful(replay, k, pid)))
  }

  /** The reader's state is the counts. */
  ghost predicate Counts(s: State, replay: seq<Event>, k: nat)
    requires k <= |replay|
  {
    && (forall pid :: Knows(s, replay, k, pid))
    && (s.hasInitial <==> k > 0)
    && (s.uncertain <==> exists a :: 0 <= a < k && (ActsInDoubt(replay, a) || Collides(replay, a)))
  }

  lemma ActorCounted(s: State, replay: seq<Event>, k: nat)
    requires k < |replay| && Counts(s, replay, k)
    ensures Expected(s, replay[k].pid) == (ActingOrdinal(replay, k), ActsInDoubt(replay, k))
    ensures ActingOrdinal(replay, k) >= 1
  {
    assert Knows(s, replay, k, replay[k].pid);
    LivesHasLifetime(replay, k, replay[k].pid);
  }

  lemma {:induction false} LivesHasLifetime(replay: seq<Event>, k: nat, pid: string)
    requires k <= |replay|
    ensures Lives(replay, k, pid) ==> LifetimeCount(replay, k, pid) >= 1
  {
    if k > 0 { LivesHasLifetime(replay, k - 1, pid); }
  }

  /** The reader's state after the actor's half of a step, in the counts of the step. */
  lemma ActorHalfCounted(s: State, replay: seq<Event>, k: nat, pid: string)
    requires k < |replay| && Counts(s, replay, k) && ActorStep(s, replay[k]).Some?
    ensures var t := ActorStep(s, replay[k]).value; var e := replay[k];
            && (pid in t.active <==> if e.pid == pid then e.kind != "exit" else Lives(replay, k, pid))
            && Latest(t, pid) == (if e.pid == pid then ActingOrdinal(replay, k) else LifetimeCount(replay, k, pid))
            && (pid in t.active ==>
                  t.active[pid] == if e.pid == pid then (ActingOrdinal(replay, k), ActsInDoubt(replay, k))
                                   else (LifetimeCount(replay, k, pid), Doubtful(replay, k, pid)))
            && t.hasInitial && (t.uncertain <==> s.uncertain || ActsInDoubt(replay, k))
  {
    ActorCounted(s, replay, k);
    assert Knows(s, replay, k, pid) && Knows(s, replay, k, replay[k].pid);
    hide Lives;
    hide LifetimeCount;
    hide Doubtful;
    hide ActingOrdinal;
    hide ActsInDoubt;
  }

  lemma NextKnown(s: State, replay: seq<Event>, k: nat, pid: string)
    requires k < |replay| && Counts(s, replay, k) && ReplayStep(s, replay[k]).Some?
    ensures Knows(ReplayStep(s, replay[k]).value, replay, k + 1, pid)
  {
    hide Counts;
    hide ActorStep;
    hide Expected;
    ActorHalfCounted(s, replay, k, pid);
    if replay[k].childPid.Some? { ActorHalfCounted(s, replay, k, replay[k].childPid.value); }
  }

  lemma StepCounted(s: State, replay: seq<Event>, k: nat)
    requires k < |replay| && Counts(s, replay, k)
    ensures ReplayStep(s, replay[k]).Some? <==> Carries(replay, k)
    ensures ReplayStep(s, replay[k]).Some? ==>
              var t := ReplayStep(s, replay[k]).value;
              t.hasInitial && (t.uncertain <==> s.uncertain || ActsInDoubt(replay, k) || Collides(replay, k))
  {
    ActorCounted(s, replay, k);
    ActorAccepted(s, replay[k], ActingOrdinal(replay, k), ActsInDoubt(replay, k));
    if ActorStep(s, replay[k]).Some? {
      var t := ActorStep(s, replay[k]).value;
      ActorHalfCounted(s, replay, k, replay[k].pid);
      if replay[k].childPid.Some? {
        ActorHalfCounted(s, replay, k, replay[k].childPid.value);
        ChildAccepted(t, replay, k);
      }
    }
    hide Counts;
    hide ActorStep;
    hide ChildStep;
    hide Lives;
    hide LifetimeCount;
    hide ActsInDoubt;
    hide ActingOrdinal;
  }

  lemma ActorAccepted(s: State, e: Event, ordinal: nat, doubt: bool)
    requires Expected(s, e.pid) == (ordinal, doubt) && ordinal >= 1
    ensures ActorStep(s, e).Some? <==> e.taskGeneration == Some(ordinal) && (doubt ==> e.contextUncertain)
  {
    hide Expected;
  }

  lemma ChildAccepted(t: State, replay: seq<Event>, k: nat)
    requires k < |replay| && replay[k].childPid.Some?
    requires var child := replay[k].childPid.value;
             && (child in t.active <==> Collides(replay, k))
             && Latest(t, child) == (if replay[k].pid == child then ActingOrdinal(replay, k) else LifetimeCount(replay, k, child))
    ensures var e := replay[k]; var child := e.childPid.value;
            ChildStep(t, e, child).Some? <==>
              e.childGeneration == Some(LifetimeCount(replay, k + 1, child)) && (Collides(replay, k) ==> e.contextUncertain)
    ensures ChildStep(t, replay[k], replay[k].childPid.value).Some? ==>
              var u := ChildStep(t, replay[k], replay[k].childPid.value).value;
              u.hasInitial == t.hasInitial && u.uncertain == (t.uncertain || Collides(replay, k))
  {
    hide Lives;
    hide Collides;
  }

  /** After any number of events the reader has accepted exactly when each of them carries the counted
      annotations, and then its state is the counts. */
  lemma {:induction false} PrefixCounted(replay: seq<Event>, k: nat)
    requires k <= |replay|
    ensures ReplayTo(replay, k).Some? <==> forall a :: 0 <= a < k ==> Carries(replay, a)
    ensures ReplayTo(replay, k).Some? ==> Counts(ReplayTo(replay, k).value, replay, k)
  {
    hide ReplayStep;
    hide Carries;
    hide Collides;
    hide ActsInDoubt;
    if k > 0 {
      PrefixCounted(replay, k - 1);
      if ReplayTo(replay, k - 1).Some? {
        var s := ReplayTo(replay, k - 1).value;
        StepCounted(s, replay, k - 1);
        if ReplayStep(s, replay[k - 1]).Some? {
          var t := ReplayStep(s, replay[k - 1]).value;
          forall pid ensures Knows(t, replay, k, pid) { NextKnown(s, replay, k - 1, pid); }
          hide Knows;
        }
      }
    }
  }

  /** The reader accepts a replay if and only if every event carries the counted annotations. */
  lemma AcceptedIsCounted(replay: seq<Event>)
    ensures Accepted(replay) <==> forall a :: 0 <= a < |replay| ==> Carries(replay, a)
  {
    hide *;
    PrefixCounted(replay, |replay|);
    AcceptedMeans(replay);
  }

  lemma AcceptedMeans(replay: seq<Event>)
    ensures Accepted(replay) <==> ReplayTo(replay, |replay|).Some?
  {
    hide ReplayTo;
  }

  // ---------- what the counts mean for annotations ----------

  /** No event of the PID's own exit, and no spawn of it, from `a` up to but without `c`. */
  predicate Undisturbed(replay: seq<Event>, a: nat, c: nat, pid: string)
    requires c <= |replay|
  {
    forall x :: a <= x < c ==>
      !(replay[x].pid == pid && replay[x].kind == "exit") && replay[x].childPid != Some(pid)
  }

  lemma {:induction false} LivesOn(replay: seq<Event>, a: nat, c: nat, pid: string)
    requires a <= c <= |replay| && Lives(replay, a, pid) && Undisturbed(replay, a, c, pid)
    ensures Lives(replay, c, pid) && LifetimeCount(replay, c, pid) == LifetimeCount(replay, a, pid)
    decreases c
  {
    if a < c { LivesOn(replay, a, c - 1, pid); }
  }

  lemma {:induction false} LifetimesGrow(replay: seq<Event>, a: nat, c: nat, pid: string)
    requires a <= c <= |replay|
    ensures LifetimeCount(replay, a, pid) <= LifetimeCount(replay, c, pid)
    decreases c
  {
    if a < c { LifetimesGrow(replay, a, c - 1, pid); }
  }

  /** What disturbed a PID leaves its later events in a later lifetime. */
  lemma DisturbedIsNewer(replay: seq<Event>, a: nat, x: nat, c: nat)
    requires a <= x < c < |replay| && replay[a].pid == replay[c].pid
    requires (replay[x].pid == replay[a].pid && replay[x].kind == "exit") || replay[x].childPid == Some(replay[a].pid)
    ensures ActingOrdinal(replay, a) < ActingOrdinal(replay, c)
  {
    var pid := replay[a].pid;
    ActedBy(replay, a);
    LifetimesGrow(replay, a + 1, x + 1, pid);
    LifetimesGrow(replay, x + 1, c, pid);
    if replay[x].childPid == Some(pid) {
      SpawnCounted(replay, a, x);
    } else {
      if Lives(replay, c, pid) { RevivedIsNewer(replay, x + 1, c, pid); }
    }
    hide Lives;
    hide LifetimeCount;
  }

  lemma ActedBy(replay: seq<Event>, a: nat)
    requires a < |replay|
    ensures ActingOrdinal(replay, a) <= LifetimeCount(replay, a + 1, replay[a].pid)
    ensures replay[a].childPid != Some(replay[a].pid) ==> ActingOrdinal(replay, a) == LifetimeCount(replay, a + 1, replay[a].pid)
  {
  }

  lemma SpawnCounted(replay: seq<Event>, a: nat, x: nat)
    requires a <= x < |replay| && replay[x].childPid == Some(replay[a].pid)
    ensures ActingOrdinal(replay, a) < LifetimeCount(replay, x + 1, replay[a].pid)
  {
    if a < x {
      ActedBy(replay, a);
      LifetimesGrow(replay, a + 1, x, replay[a].pid);
    }
  }

  lemma {:induction false} RevivedIsNewer(replay: seq<Event>, a: nat, c: nat, pid: string)
    requires a <= c <= |replay| && !Lives(replay, a, pid) && Lives(replay, c, pid)
    ensures LifetimeCount(replay, a, pid) < LifetimeCount(replay, c, pid)
    decreases c
  {
    if Lives(replay, c - 1, pid) { RevivedIsNewer(replay, a, c - 1, pid); } else { LifetimesGrow(replay, a, c - 1, pid); }
  }

  /** Two events of one PID are counted into one lifetime exactly when neither an exit nor a spawn of the
      PID lies between them. */
  lemma SameOrdinal(replay: seq<Event>, a: nat, c: nat)
    requires a < c < |replay| && replay[a].pid == replay[c].pid
    ensures ActingOrdinal(replay, a) == ActingOrdinal(replay, c) <==> Undisturbed(replay, a, c, replay[a].pid)
    ensures ActingOrdinal(replay, a) <= ActingOrdinal(replay, c)
  {
    var pid := replay[a].pid;
    if Undisturbed(replay, a, c, pid) {
      assert Lives(replay, a + 1, pid);
      LivesOn(replay, a + 1, c, pid);
      ActedBy(replay, a);
    } else {
      var x :| a <= x < c &&
               ((replay[x].pid == pid && replay[x].kind == "exit") || replay[x].childPid == Some(pid));
      DisturbedIsNewer(replay, a, x, c);
    }
    hide Lives;
    hide LifetimeCount;
  }

  /** The same on saved annotations. */
  lemma SharedLifetime(replay: seq<Event>, a: nat, c: nat)
    requires Accepted(replay) && a < c < |replay| && replay[a].pid == replay[c].pid
    ensures Self(replay[a]) == Self(replay[c]) <==> Undisturbed(replay, a, c, replay[a].pid)
  {
    hide Accepted;
    hide Undisturbed;
    AcceptedIsCounted(replay);
    assert Carries(replay, a) && Carries(replay, c);
    SameOrdinal(replay, a, c);
    hide ActingOrdinal;
    hide LifetimeCount;
  }

  /** A later event of a spawned PID acts in the spawned lifetime exactly when neither an exit nor another
      spawn of the PID lies between them. */
  lemma ActsAsSpawned(replay: seq<Event>, a: nat, c: nat)
    requires Accepted(replay) && a < c < |replay| && replay[a].childPid == Some(replay[c].pid)
    ensures Child(replay[a]) == Self(replay[c]) <==> Undisturbed(replay, a + 1, c, replay[c].pid)
  {
    AcceptedIsCounted(replay);
    assert Carries(replay, a) && Carries(replay, c);
    var pid := replay[c].pid;
    assert Lives(replay, a + 1, pid);
    if Undisturbed(replay, a + 1, c, pid) {
      LivesOn(replay, a + 1, c, pid);
    } else {
      var x :| a + 1 <= x < c &&
               ((replay[x].pid == pid && replay[x].kind == "exit") || replay[x].childPid == Some(pid));
      LifetimesGrow(replay, a + 1, x, pid);
      LifetimesGrow(replay, x + 1, c, pid);
      if replay[x].childPid != Some(pid) && Lives(replay, c, pid) { RevivedIsNewer(replay, x + 1, c, pid); }
      LifetimesGrow(replay, x, x + 1, pid);
    }
    hide Accepted;
    hide Carries;
  }

  /** On a saved vector: a child whose event is entered on a later line than its spawn acts in the spawned
      lifetime, wherever the spawn returned, unless the PID exited or was spawned again in between. */
  lemma EnteredSpawnIntroduces(events: seq<Event>, i: nat, j: nat)
    requires AcceptedVector(events) && i < |events| && j < |events|
    requires events[i].childPid == Some(events[j].pid) && events[i].evidence.line < events[j].evidence.line
    requires forall x :: 0 <= x < |events| && ReadsBefore(events, i, x) && ReadsBefore(events, x, j) ==>
               !(events[x].pid == events[j].pid && events[x].kind == "exit") && events[x].childPid != Some(events[j].pid)
    ensures events[i].childGeneration.Some? && events[j].taskGeneration == events[i].childGeneration
  {
    EvidenceOrderVisits(events);
    var order := EvidenceOrder(events);
    var a, c := ReplayedByLines(events, i, j);
    var replay := Along(events, order);
    assert Accepted(replay) && replay[a] == events[i] && replay[c] == events[j];
    forall x | a + 1 <= x < c
      ensures !(replay[x].pid == replay[c].pid && replay[x].kind == "exit") && replay[x].childPid != Some(replay[c].pid)
    {
      OrderedByLines(events, a, x);
      OrderedByLines(events, x, c);
    }
    hide EvidenceOrder;
    hide Accepted;
    hide AcceptedVector;
    ActsAsSpawned(replay, a, c);
    AcceptedIsCounted(replay);
    assert Carries(replay, a) && Carries(replay, c);
    hide Carries;
    hide Undisturbed;
    assert Undisturbed(replay, a + 1, c, replay[c].pid);
  }

  // ---------- the recorder assigns them ----------

  // Events with the same observations are counted alike.

  lemma {:induction false} SameCounts(xs: seq<Event>, ys: seq<Event>, k: nat, pid: string)
    requires SameObservations(xs, ys) && k <= |xs|
    ensures Lives(xs, k, pid) == Lives(ys, k, pid) && LifetimeCount(xs, k, pid) == LifetimeCount(ys, k, pid)
    ensures Doubtful(xs, k, pid) == Doubtful(ys, k, pid)
  {
    if k > 0 {
      SameCounts(xs, ys, k - 1, pid);
      if xs[k - 1].childPid.Some? { SameLives(xs, ys, k - 1, xs[k - 1].childPid.value); }
      SameLives(xs, ys, k - 1, xs[k - 1].pid);
    }
  }

  lemma {:induction false} SameLives(xs: seq<Event>, ys: seq<Event>, k: nat, pid: string)
    requires SameObservations(xs, ys) && k <= |xs|
    ensures Lives(xs, k, pid) == Lives(ys, k, pid)
  {
    if k > 0 { SameLives(xs, ys, k - 1, pid); }
  }

  lemma SameActing(xs: seq<Event>, ys: seq<Event>, a: nat)
    requires SameObservations(xs, ys) && a < |xs|
    ensures ActingOrdinal(xs, a) == ActingOrdinal(ys, a) && ActsInDoubt(xs, a) == ActsInDoubt(ys, a)
    ensures Collides(xs, a) == Collides(ys, a)
    ensures xs[a].childPid.Some? ==>
              LifetimeCount(xs, a + 1, xs[a].childPid.value) == LifetimeCount(ys, a + 1, ys[a].childPid.value)
  {
    SameCounts(xs, ys, a, xs[a].pid);
    if xs[a].childPid.Some? {
      SameCounts(xs, ys, a, xs[a].childPid.value);
      SameCounts(xs, ys, a + 1, xs[a].childPid.value);
    }
  }

  /** A timeline's assignments, as annotations of its own events. */
  function Stamp(e: Event, actor: Generation, spawned: Option<Generation>, doubt: bool): Event {
    e.(taskGeneration := Some(actor.ordinal),
       childGeneration := (match spawned case Some(g) => Some(g.ordinal) case None => None),
       contextUncertain := doubt)
  }

  ghost predicate Assigned(t: Builder, replay: seq<Event>) {
    |t.actors| == |t.spawned| == |replay| &&
    forall a :: 0 <= a < |replay| ==>
      && t.actors[a] < |t.generations|
      && (t.spawned[a].Some? ==> t.spawned[a].value < |t.generations|)
      && (t.spawned[a].Some? <==> replay[a].childPid.Some?)
  }

  function SpawnedAs(t: Builder, a: nat): Option<Generation> {
    if a < |t.spawned| && t.spawned[a].Some? && t.spawned[a].value < |t.generations|
    then Some(t.generations[t.spawned[a].value]) else None
  }

  function ActorAs(t: Builder, a: nat): (g: Option<Generation>) {
    if a < |t.actors| && t.actors[a] < |t.generations| then Some(t.generations[t.actors[a]]) else None
  }

  function Stamped(t: Builder, replay: seq<Event>, doubts: seq<bool>): (r: seq<Event>)
    requires |doubts| == |replay|
    ensures |r| == |replay|
  {
    seq(|replay|, a requires 0 <= a < |replay| && |doubts| == |replay| =>
      match ActorAs(t, a)
      case Some(g) => Stamp(replay[a], g, SpawnedAs(t, a), doubts[a])
      case None => replay[a])
  }

  predicate Suspected(g: Option<Generation>) { g.Some? && Untrusted(g.value) }

  lemma StampedIsNoted(t: Builder, replay: seq<Event>, doubts: seq<bool>)
    requires Assigned(t, replay) && |doubts| == |replay|
    ensures var r := Stamped(t, replay, doubts);
            SameObservations(replay, r) &&
            (AllNoted(t, r, |r|) <==>
               forall a :: 0 <= a < |replay| && (Suspected(ActorAs(t, a)) || Suspected(SpawnedAs(t, a))) ==> doubts[a])
  {
    hide Untrusted;
    var r := Stamped(t, replay, doubts);
    forall a | 0 <= a < |replay|
      ensures Noted(t, r, a) <==> (Suspected(ActorAs(t, a)) || Suspected(SpawnedAs(t, a)) ==> doubts[a])
    {
      assert r[a] == Stamp(replay[a], t.generations[t.actors[a]], SpawnedAs(t, a), doubts[a]);
    }
    hide Noted;
  }

  /** The timeline of a stamped replay is the original's. */
  lemma StampedAccepted(t: Builder, replay: seq<Event>, slots: seq<nat>, doubts: seq<bool>)
    requires |replay| == |slots| == |doubts| && t == BuildTo(replay, slots, |replay|) && Assigned(t, replay)
    ensures var r := Stamped(t, replay, doubts);
            (forall a :: 0 <= a < |replay| ==> Carries(r, a)) <==>
            forall a :: 0 <= a < |replay| && (Suspected(ActorAs(t, a)) || Suspected(SpawnedAs(t, a))) ==> doubts[a]
  {
    hide BuildTo;
    hide Carries;
    hide AllNoted;
    hide ReplayTo;
    hide Suspected;
    hide Stamp;
    var r := Stamped(t, replay, doubts);
    StampedIsNoted(t, replay, doubts);
    SameTimeline(replay, r, slots, |replay|);
    PrefixAgrees(r, slots, |r|);
    PrefixCounted(r, |r|);
  }

  lemma TimelineAssigned(replay: seq<Event>, slots: seq<nat>)
    requires |replay| == |slots|
    ensures Assigned(BuildTo(replay, slots, |replay|), replay)
  {
    hide BuildTo;
    hide Sound;
    hide Chronological;
    hide ExitsLocated;
    BuildHistory(replay, slots, |replay|);
  }

  /** The recorder's timeline gives every event its counted ordinals, and distrusts exactly the doubtful. */
  lemma TimelineIsCounted(replay: seq<Event>, slots: seq<nat>, a: nat)
    requires a < |replay| == |slots|
    ensures var t := BuildTo(replay, slots, |replay|);
            && Assigned(t, replay)
            && t.generations[t.actors[a]].ordinal == ActingOrdinal(replay, a)
            && (replay[a].childPid.Some? ==>
                  t.generations[t.spawned[a].value].ordinal == LifetimeCount(replay, a + 1, replay[a].childPid.value))
            && (Untrusted(t.generations[t.actors[a]]) || Suspected(SpawnedAs(t, a)) <==>
                  ActsInDoubt(replay, a) || Collides(replay, a))
  {
    TimelineAssigned(replay, slots);
    var t := BuildTo(replay, slots, |replay|);
    var suspected := seq(|replay|, (x: nat) => Suspected(ActorAs(t, x)) || Suspected(SpawnedAs(t, x)));
    var counted := seq(|replay|, x requires 0 <= x < |replay| => ActsInDoubt(replay, x) || Collides(replay, x));
    hide BuildTo;
    hide Assigned;
    hide Carries;
    hide Collides;
    hide ActsInDoubt;
    hide ActingOrdinal;
    hide LifetimeCount;
    hide Stamped;
    StampedAccepted(t, replay, slots, suspected);
    assert Carries(Stamped(t, replay, suspected), a);
    StampedCarries(t, replay, suspected, a);
    forall x | 0 <= x < |replay| ensures Carries(Stamped(t, replay, counted), x) {
      assert Carries(Stamped(t, replay, suspected), x);
      StampedCarries(t, replay, suspected, x);
      StampedCarries(t, replay, counted, x);
    }
    StampedAccepted(t, replay, slots, counted);
    AssignedAt(t, replay, a);
  }

  lemma AssignedAt(t: Builder, replay: seq<Event>, a: nat)
    requires Assigned(t, replay) && a < |replay|
    ensures t.actors[a] < |t.generations| && ActorAs(t, a) == Some(t.generations[t.actors[a]])
  {
  }

  lemma StampedCarries(t: Builder, replay: seq<Event>, doubts: seq<bool>, a: nat)
    requires Assigned(t, replay) && |doubts| == |replay| && a < |replay|
    ensures Carries(Stamped(t, replay, doubts), a) <==>
              && t.generations[t.actors[a]].ordinal == ActingOrdinal(replay, a)
              && (replay[a].childPid.Some? ==>
                    t.generations[t.spawned[a].value].ordinal == LifetimeCount(replay, a + 1, replay[a].childPid.value))
              && (ActsInDoubt(replay, a) || Collides(replay, a) ==> doubts[a])
  {
    var r := Stamped(t, replay, doubts);
    StampedIsNoted(t, replay, doubts);
    SameActing(replay, r, a);
    hide ActingOrdinal;
    hide LifetimeCount;
    hide ActsInDoubt;
    hide Collides;
    hide SameObservations;
    hide AllNoted;
    hide Suspected;
  }

  /** Two events act in one lifetime of the recorder's timeline exactly when they share a PID that neither
      exited nor was spawned from the first up to the second. */
  lemma SameActor(replay: seq<Event>, slots: seq<nat>, a: nat, c: nat)
    requires a < c < |replay| == |slots|
    ensures var t := BuildTo(replay, slots, |replay|);
            |t.actors| == |replay| &&
            (t.actors[a] == t.actors[c] <==>
               replay[a].pid == replay[c].pid && Undisturbed(replay, a, c, replay[a].pid))
  {
    var t := BuildTo(replay, slots, |replay|);
    TimelineIsCounted(replay, slots, a);
    TimelineIsCounted(replay, slots, c);
    hide Undisturbed;
    hide ActingOrdinal;
    hide LifetimeCount;
    if replay[a].pid == replay[c].pid { SameOrdinal(replay, a, c); }
    BuiltNames(replay, slots);
    hide BuildTo;
  }

  /** A lifetime is named by its PID and ordinal. */
  lemma BuiltNames(replay: seq<Event>, slots: seq<nat>)
    requires |replay| == |slots|
    ensures var t := BuildTo(replay, slots, |replay|);
            && Located(t, replay, |replay|) && ExitsLocated(t, replay, slots, |replay|)
            && forall g, h ::
                 (&& 0 <= g < |t.generations| && 0 <= h < |t.generations|
                  && t.generations[g].pid == t.generations[h].pid
                  && t.generations[g].ordinal == t.generations[h].ordinal)
                 ==> g == h
  {
    hide BuildTo;
    hide Located;
    hide ExitsLocated;
    hide Chronological;
    hide LatestSound;
    hide Contiguous;
    hide OriginsSound;
    BuildHistory(replay, slots, |replay|);
  }
}
