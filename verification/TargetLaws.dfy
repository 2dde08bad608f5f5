/** The selected target and the reader's verdict on it, on rows and saved fields alone. */
module TargetLaws {
  import opened Ordered
  import opened Records
  import opened Timeline
  import Lifetimes
  import opened Replay
  import opened Agreement
  import opened LifetimeLaws
  import opened LifetimeCounts
  import opened Provenance

  predicate ExecSucceeded(e: Event) { e.kind == "exec" && e.outcome == "success" }

  /** A successful exec, entered before every other one. */
  ghost predicate TargetExec(events: seq<Event>, i: nat) {
    && i < |events| && ExecSucceeded(events[i])
    && forall j :: 0 <= j < |events| && ExecSucceeded(events[j]) && j != i ==> ReadsBefore(events, i, j)
  }

  predicate Disturbs(e: Event, pid: string) { (e.pid == pid && e.kind == "exit") || e.childPid == Some(pid) }

  /** The exec's task exits at `x`, and its PID neither exited nor was spawned since the exec. */
  ghost predicate TargetExit(events: seq<Event>, i: nat, x: nat) {
    && ReadsBefore(events, i, x) && events[x].kind == "exit" && events[x].pid == events[i].pid
    && !Disturbs(events[i], events[i].pid)
    && forall y :: 0 <= y < |events| && ReadsBefore(events, i, y) && ReadsBefore(events, y, x) ==>
         !Disturbs(events[y], events[i].pid)
  }

  lemma OneTargetExec(events: seq<Event>, i: nat, j: nat)
    requires TargetExec(events, i) && TargetExec(events, j)
    ensures i == j
  {
  }

  // ---------- from positions to rows ----------

  /** Along evidence order, an undisturbed stretch is one on lines. */
  lemma {:induction false} UndisturbedOnLines(events: seq<Event>, a: nat, c: nat, pid: string)
    requires a < c < |events|
    requires Visits(events, EvidenceOrder(events))
    ensures var order := EvidenceOrder(events);
            Undisturbed(Along(events, order), a, c, pid) <==>
              && !Disturbs(events[order[a]], pid)
              && forall y :: 0 <= y < |events| && ReadsBefore(events, order[a], y) && ReadsBefore(events, y, order[c]) ==>
                   !Disturbs(events[y], pid)
  {
    hide ReadsBefore;
    hide EvidenceOrder;
    hide Disturbs;
    var order := EvidenceOrder(events);
    var replay := Along(events, order);
    UndisturbedMeans(replay, a, c, pid);
    hide Undisturbed;
    assert |order| == |events| && forall x :: 0 <= x < |replay| ==> replay[x] == events[order[x]];
    if Undisturbed(replay, a, c, pid) {
      forall y | 0 <= y < |events| && ReadsBefore(events, order[a], y) && ReadsBefore(events, y, order[c])
        ensures !Disturbs(events[y], pid)
      {
        var x := PositionOf(events, y);
        Between(events, a, x, c);
      }
    }
    if !Disturbs(events[order[a]], pid) &&
       forall y :: 0 <= y < |events| && ReadsBefore(events, order[a], y) && ReadsBefore(events, y, order[c]) ==>
         !Disturbs(events[y], pid)
    {
      forall x | a <= x < c ensures !Disturbs(replay[x], pid) {
        if a < x { OrderedByLines(events, a, x); }
        OrderedByLines(events, x, c);
      }
    }
  }

  lemma UndisturbedMeans(replay: seq<Event>, a: nat, c: nat, pid: string)
    requires c <= |replay|
    ensures Undisturbed(replay, a, c, pid) <==> forall x :: a <= x < c ==> !Disturbs(replay[x], pid)
  {
  }

  lemma Between(events: seq<Event>, a: nat, x: nat, c: nat)
    requires a < |events| && x < |events| && c < |events|
    requires ReadsBefore(events, EvidenceOrder(events)[a], EvidenceOrder(events)[x])
    requires ReadsBefore(events, EvidenceOrder(events)[x], EvidenceOrder(events)[c])
    ensures a < x < c
  {
    hide *;
    PositionsAgree(events, a, x);
    PositionsAgree(events, x, c);
  }

  lemma PositionsAgree(events: seq<Event>, a: nat, c: nat)
    requires a < |events| && c < |events|
    requires ReadsBefore(events, EvidenceOrder(events)[a], EvidenceOrder(events)[c])
    ensures a < c
  {
    hide EvidenceOrder;
    hide ReadsBefore;
    if c < a { OrderedByLines(events, c, a); }
    ReadsOneWay(events, EvidenceOrder(events)[a], EvidenceOrder(events)[c]);
  }

  lemma ReadsOneWay(events: seq<Event>, i: nat, j: nat)
    requires ReadsBefore(events, i, j)
    ensures i != j && !ReadsBefore(events, j, i)
  {
  }

  // ---------- the recorder's selection ----------

  /** The first successful exec of the replay is the target's on lines. */
  lemma FirstExecOnLines(events: seq<Event>, root: Option<nat>)
    requires Visits(events, EvidenceOrder(events)) && root == First(Along(events, EvidenceOrder(events)), RootExec)
    ensures root.Some? ==> root.value < |events| && TargetExec(events, EvidenceOrder(events)[root.value])
    ensures root.None? ==> forall i :: !TargetExec(events, i)
  {
    var order := EvidenceOrder(events);
    var replay := Along(events, order);
    if root.Some? {
      forall j | 0 <= j < |events| && ExecSucceeded(events[j]) && j != order[root.value]
        ensures ReadsBefore(events, order[root.value], j)
      {
        var c := PositionOf(events, j);
        assert RootExec(replay[c]);
        OrderedByLines(events, root.value, c);
      }
    } else {
      forall i: nat ensures !TargetExec(events, i) {
        if i < |events| {
          var c := PositionOf(events, i);
          assert !RootExec(replay[c]);
        }
      }
    }
    hide EvidenceOrder;
  }

  /** The recorded exit of a lifetime that acted at `a` without exiting, in the timeline of the replay. */
  lemma {:induction false} RecordedExit(replay: seq<Event>, slots: seq<nat>, a: nat, c: nat)
    requires a < |replay| == |slots| && c < |replay| && replay[a].kind != "exit"
    requires forall x, y :: 0 <= x < y < |slots| ==> slots[x] != slots[y]
    ensures var t := BuildTo(replay, slots, |replay|);
            |t.actors| == |replay| && t.actors[a] < |t.generations| &&
            (t.generations[t.actors[a]].exitEvent == Some(slots[c]) <==>
               && a < c && replay[c].kind == "exit" && replay[c].pid == replay[a].pid
               && Undisturbed(replay, a, c, replay[a].pid))
  {
    hide Undisturbed;
    hide BuildTo;
    var t := BuildTo(replay, slots, |replay|);
    BuiltNames(replay, slots);
    if a < c { SameActor(replay, slots, a, c); }
    if c < a {
      SameActor(replay, slots, c, a);
      ExitDisturbs(replay, c, a);
    }
    var g := t.actors[a];
    if t.generations[g].exitEvent == Some(slots[c]) {
      var d :| 0 <= d < |replay| && Lifetimes.ExitedAt(t, replay, slots, g, d);
      assert slots[d] == slots[c];
      assert d == c;
    }
    if replay[c].kind == "exit" && t.actors[c] == g { assert Lifetimes.ExitedAt(t, replay, slots, t.actors[c], c); }
  }

  lemma ExitDisturbs(replay: seq<Event>, c: nat, a: nat)
    requires c < a <= |replay|
    ensures replay[c].kind == "exit" ==> !Undisturbed(replay, c, a, replay[c].pid)
  {
  }

  lemma FirstExecAt(events: seq<Event>, root: Option<nat>)
    requires Visits(events, EvidenceOrder(events)) && root == First(Along(events, EvidenceOrder(events)), RootExec)
    ensures forall i: nat :: TargetExec(events, i) <==> IndexAt(EvidenceOrder(events), root) == Some(i)
  {
    hide TargetExec;
    FirstExecOnLines(events, root);
    hide EvidenceOrder;
    forall i: nat | TargetExec(events, i) ensures IndexAt(EvidenceOrder(events), root) == Some(i) {
      if root.Some? { OneTargetExec(events, i, EvidenceOrder(events)[root.value]); }
    }
  }

  lemma {:induction false} ExitOnLines(events: seq<Event>, a: nat, x: nat)
    requires Visits(events, EvidenceOrder(events)) && a < |events| && events[EvidenceOrder(events)[a]].kind != "exit"
    requires x < |events|
    ensures var order := EvidenceOrder(events); var t := BuildTo(Along(events, order), order, |order|);
            |t.actors| == |events| && t.actors[a] < |t.generations| &&
            (t.generations[t.actors[a]].exitEvent == Some(x) <==> TargetExit(events, order[a], x))
  {
    var order := EvidenceOrder(events);
    var replay := Along(events, order);
    var c := PositionOf(events, x);
    RecordedExit(replay, order, a, c);
    hide BuildTo;
    if a < c {
      OrderedByLines(events, a, c);
      UndisturbedOnLines(events, a, c, events[order[a]].pid);
    } else if c < a {
      OrderedByLines(events, c, a);
    }
    hide EvidenceOrder;
  }

  /** The recorder's completion scan on rows: its exec is the successful one entered first, and its exit is
      that task's, before anything else ended or reused its PID. */
  lemma CompletionOnRows(events: seq<Event>, t: Builder, order: seq<nat>)
    requires order == EvidenceOrder(events) && Visits(events, order)
    requires t == BuildTo(Along(events, order), order, |order|)
    ensures |t.actors| == |events| && forall a :: 0 <= a < |events| ==> t.actors[a] < |t.generations|
    ensures var c := CompletionOf(t, Along(events, order), order);
            && (forall i: nat :: c.rootExec == Some(i) <==> TargetExec(events, i))
            && (forall x: nat :: c.rootExit == Some(x) <==>
                  c.rootExec.Some? && TargetExit(events, c.rootExec.value, x))
  {
    hide BuildTo;
    hide TargetExec;
    hide TargetExit;
    hide MissingTo;
    var u := TimelineLocated(events, order);
    var root := First(Along(events, order), RootExec);
    FirstExecAt(events, root);
    if root.Some? {
      var c := CompletionOf(t, Along(events, order), order);
      assert c.rootExec == Some(order[root.value]) && c.rootExit == t.generations[t.actors[root.value]].exitEvent;
      forall x: nat ensures c.rootExit == Some(x) <==> TargetExit(events, c.rootExec.value, x) {
        if x < |events| { ExitOnLines(events, root.value, x); } else { ExitWithin(events, t, order, root.value, x); }
      }
      hide CompletionOf;
    }
    hide EvidenceOrder;
    hide First;
  }

  lemma ExitWithin(events: seq<Event>, t: Builder, order: seq<nat>, a: nat, x: nat)
    requires order == EvidenceOrder(events) && Visits(events, order) && a < |events| <= x
    requires t == BuildTo(Along(events, order), order, |order|)
    requires |t.actors| == |events| && t.actors[a] < |t.generations|
    ensures t.generations[t.actors[a]].exitEvent != Some(x) && !TargetExit(events, order[a], x)
  {
    BuiltNames(Along(events, order), order);
    ExitBounded(t, events, order, t.actors[a]);
    hide BuildTo;
    hide EvidenceOrder;
  }

  // ---------- the reader's verdict ----------

  /** The saved target on saved fields: the exec entered first and its task's exit, with that exit's own
      spelling; absence only when the task has no such exit. */
  ghost predicate TargetSaved(m: Metadata, events: seq<Event>) {
    match m.targetProvenance
    case None => forall i: nat, x: nat :: TargetExec(events, i) ==> !TargetExit(events, i, x)
    case Some(p) =>
      && p.schemaVersion == 1 && p.selectionRule == "first_successful_exec_evidence_order_v1"
      && p.identityContract == "task_generations_evidence_order_v1"
      && TargetExec(events, p.rootExec.index) && TargetExit(events, p.rootExec.index, p.targetExit.index)
      && p.rootExec.evidence == events[p.rootExec.index].evidence
      && p.targetExit.evidence == events[p.targetExit.index].evidence
      && p.root.pid == events[p.rootExec.index].pid
      && events[p.rootExec.index].taskGeneration == Some(p.root.generation)
      && m.targetExitRaw == Some(events[p.targetExit.index].outcome)
  }

  lemma TargetVerdict(m: Metadata, events: seq<Event>, t: Builder, order: seq<nat>)
    requires order == EvidenceOrder(events) && Visits(events, order) && Bounded(m, events)
    requires Understood(t, Along(events, order), order)
    requires t == BuildTo(Along(events, order), order, |order|)
    ensures ValidateTarget(m, events) == Pass <==> TargetSaved(m, events)
  {
    CompletionOnRows(events, t, order);
    TargetRecorded(m, events, t, order);
    var c := CompletionOf(t, Along(events, order), order);
    hide BuildTo;
    hide ValidateTarget;
    hide Bounded;
    hide TargetExit;
    hide TargetExec;
    if c.rootExec.Some? {
      assert TargetExec(events, c.rootExec.value);
      RootOrdinal(t, events, order);
    }
    hide Understood;
    hide EvidenceOrder;
    hide CompletionOf;
    ProvenanceOnRows(m, events, t, c);
  }

  lemma RootOrdinal(t: Builder, events: seq<Event>, order: seq<nat>)
    requires Visits(events, order) && Understood(t, Along(events, order), order)
    requires |t.actors| == |events| == |order| && forall a :: 0 <= a < |events| ==> t.actors[a] < |t.generations|
    ensures var c := CompletionOf(t, Along(events, order), order);
            c.rootExec.Some? ==>
              && c.rootExec.value < |events| && c.rootGeneration.Some? && c.rootGeneration.value < |t.generations|
              && t.generations[c.rootGeneration.value].pid == events[c.rootExec.value].pid
              && events[c.rootExec.value].taskGeneration == Some(t.generations[c.rootGeneration.value].ordinal)
  {
    var replay := Along(events, order);
    var root := First(replay, RootExec);
    if root.Some? { assert Noted(t, replay, root.value); }
    hide MissingTo;
    hide First;
  }

  lemma ProvenanceOnRows(m: Metadata, events: seq<Event>, t: Builder, c: Completion)
    requires InBounds(c, t, events)
    requires forall i: nat :: c.rootExec == Some(i) <==> TargetExec(events, i)
    requires forall x: nat :: c.rootExit == Some(x) <==> c.rootExec.Some? && TargetExit(events, c.rootExec.value, x)
    requires c.rootExec.Some? ==>
               && c.rootGeneration.Some?
               && t.generations[c.rootGeneration.value].pid == events[c.rootExec.value].pid
               && events[c.rootExec.value].taskGeneration == Some(t.generations[c.rootGeneration.value].ordinal)
    ensures Provenance.Recorded(m, c, t, events) <==> TargetSaved(m, events)
  {
    hide TargetExec;
    hide TargetExit;
    if c.rootExec.Some? {
      assert TargetExec(events, c.rootExec.value);
      if c.rootExit.Some? { assert TargetExit(events, c.rootExec.value, c.rootExit.value); }
    }
  }

  ghost predicate HasExit(events: seq<Event>, pid: string, generation: Option<nat>) {
    exists x :: 0 <= x < |events| && events[x].kind == "exit" && events[x].pid == pid && events[x].taskGeneration == generation
  }

  /** Every lifetime that acted or was spawned has its exit row. */
  ghost predicate EverythingExits(events: seq<Event>) {
    forall i :: 0 <= i < |events| ==>
      && HasExit(events, events[i].pid, events[i].taskGeneration)
      && (events[i].childPid.Some? ==> HasExit(events, events[i].childPid.value, events[i].childGeneration))
  }

  ghost predicate NothingDoubtful(replay: seq<Event>) {
    forall a :: 0 <= a < |replay| ==> !ActsInDoubt(replay, a) && !Collides(replay, a)
  }

  predicate AllCarry(replay: seq<Event>) { forall a :: 0 <= a < |replay| ==> Carries(replay, a) }

  lemma CarriedGenerations(replay: seq<Event>, a: nat)
    requires AllCarry(replay) && a < |replay|
    ensures replay[a].taskGeneration.Some? && (replay[a].childPid.Some? ==> replay[a].childGeneration.Some?)
  {
    assert Carries(replay, a);
    hide ActingOrdinal;
    hide ActsInDoubt;
  }

  lemma ExitedHasExit(replay: seq<Event>, pid: string, generation: nat)
    requires AllCarry(replay)
    ensures TaskIdentity(pid, generation) in Exited(replay) <==> HasExit(replay, pid, Some(generation))
  {
    hide Carries;
    forall x | 0 <= x < |replay| ensures replay[x].taskGeneration.Some? { CarriedGenerations(replay, x); }
    hide AllCarry;
    if HasExit(replay, pid, Some(generation)) {
      var x :| 0 <= x < |replay| && replay[x].kind == "exit" && replay[x].pid == pid &&
               replay[x].taskGeneration == Some(generation);
      assert Exits(replay[x]) && Self(replay[x]) == TaskIdentity(pid, generation);
    }
  }

  lemma NothingMissing(replay: seq<Event>)
    requires Accepted(replay) && AllCarry(replay)
    ensures Introduced(replay) - Exited(replay) == {} <==> EverythingExits(replay)
  {
    hide Accepted;
    hide AllCarry;
    hide HasExit;
    hide Exited;
    forall i | 0 <= i < |replay|
      ensures Self(replay[i]) in Exited(replay) <==> HasExit(replay, replay[i].pid, replay[i].taskGeneration)
      ensures Self(replay[i]) in Introduced(replay)
      ensures replay[i].childPid.Some? ==>
                (Child(replay[i]) in Exited(replay) <==>
                   HasExit(replay, replay[i].childPid.value, replay[i].childGeneration))
      ensures replay[i].childPid.Some? ==> Child(replay[i]) in Introduced(replay)
    {
      CarriedGenerations(replay, i);
      ExitedHasExit(replay, replay[i].pid, Or0(replay[i].taskGeneration));
      if replay[i].childPid.Some? {
        ExitedHasExit(replay, replay[i].childPid.value, Or0(replay[i].childGeneration));
      }
    }
    var left := Introduced(replay) - Exited(replay);
    if EverythingExits(replay) {
      forall id | id in Introduced(replay) ensures id in Exited(replay) {
        if id in Actors(replay) {
          var i :| 0 <= i < |replay| && Self(replay[i]) == id;
        } else {
          var i :| 0 <= i < |replay| && replay[i].childPid.Some? && Child(replay[i]) == id;
        }
      }
    }
    if left == {} {
      forall i | 0 <= i < |replay|
        ensures Self(replay[i]) in Exited(replay) && (replay[i].childPid.Some? ==> Child(replay[i]) in Exited(replay))
      {
        assert Self(replay[i]) !in left;
        assert replay[i].childPid.Some? ==> Child(replay[i]) !in left;
      }
    }
  }

  lemma ExitsOfSameRows(xs: seq<Event>, ys: seq<Event>)
    requires forall e :: e in xs <==> e in ys
    ensures EverythingExits(xs) ==> EverythingExits(ys)
  {
    forall pid, generation | HasExit(xs, pid, generation) ensures HasExit(ys, pid, generation) {
      var x :| 0 <= x < |xs| && xs[x].kind == "exit" && xs[x].pid == pid && xs[x].taskGeneration == generation;
      assert xs[x] in ys;
      var y :| 0 <= y < |ys| && ys[y] == xs[x];
    }
    hide HasExit;
    if EverythingExits(xs) {
      forall i | 0 <= i < |ys|
        ensures HasExit(ys, ys[i].pid, ys[i].taskGeneration)
        ensures ys[i].childPid.Some? ==> HasExit(ys, ys[i].childPid.value, ys[i].childGeneration)
      {
        assert ys[i] in xs;
        var x :| 0 <= x < |xs| && xs[x] == ys[i];
      }
    }
  }

  /** Exits of a vector and of its replay are the same rows. */
  lemma ExitsAlong(events: seq<Event>, order: seq<nat>)
    requires order == EvidenceOrder(events) && Visits(events, order)
    ensures EverythingExits(Along(events, order)) <==> EverythingExits(events)
  {
    hide EverythingExits;
    SameRows(events, order);
    ExitsOfSameRows(Along(events, order), events);
    ExitsOfSameRows(events, Along(events, order));
    hide EvidenceOrder;
  }

  lemma SameRows(events: seq<Event>, order: seq<nat>)
    requires order == EvidenceOrder(events) && Visits(events, order)
    ensures forall e :: e in Along(events, order) <==> e in events
  {
    var replay := Along(events, order);
    forall e | e in events ensures e in replay {
      var i :| 0 <= i < |events| && events[i] == e;
      var a := PositionOf(events, i);
      assert replay[a] == e;
    }
    hide EvidenceOrder;
  }

  /** The reader's whole verdict on a vector: the counted annotations, no claim over a lifetime without exit
      or in doubt, and the target on lines. */
  ghost predicate TraceAdmits(m: Metadata, events: seq<Event>) {
    EvidenceOrderVisits(events);
    var replay := Along(events, EvidenceOrder(events));
    && AllCarry(replay)
    && (m.completeness == Some("complete_for_supported_events") || m.warnings == [] ==>
          EverythingExits(events) && NothingDoubtful(replay))
    && TargetSaved(m, events)
  }

  lemma StateOnRows(replay: seq<Event>)
    requires ReplayTo(replay, |replay|).Some?
    ensures var s := ReplayTo(replay, |replay|).value;
            && AllCarry(replay)
            && (s.missing == {} <==> EverythingExits(replay))
            && (s.uncertain <==> !NothingDoubtful(replay))
  {
    hide ReplayTo;
    hide Carries;
    PrefixCounted(replay, |replay|);
    MissingIsIntroducedMinusExited(replay);
    NothingMissing(replay);
    hide Introduced;
    hide Exited;
    hide EverythingExits;
    hide Collides;
    hide ActsInDoubt;
    hide Knows;
  }

  lemma AcceptedUnderstood(replay: seq<Event>, order: seq<nat>) returns (t: Builder)
    requires |replay| == |order| && forall a, c :: 0 <= a < c < |order| ==> order[a] != order[c]
    requires ReplayTo(replay, |replay|).Some?
    ensures t == BuildTo(replay, order, |replay|) && Understood(t, replay, order)
  {
    hide Understood;
    hide ReplayTo;
    hide BuildTo;
    hide AllNoted;
    PrefixAgrees(replay, order, |replay|);
    t := UnderstoodWhenNoted(replay, order);
  }

  lemma TraceVerdict(m: Metadata, events: seq<Event>)
    requires Bounded(m, events)
    ensures ValidateTraceProvenance(m, events) == Pass <==> TraceAdmits(m, events)
  {
    EvidenceOrderVisits(events);
    var order := EvidenceOrder(events);
    var replay := Along(events, order);
    CheckSplits(m, events, order);
    hide EvidenceOrder;
    hide Bounded;
    hide ValidateTarget;
    hide ValidateTraceProvenance;
    hide TargetSaved;
    hide NothingDoubtful;
    hide ReplayTo;
    hide BuildTo;
    hide EverythingExits;
    hide Understood;
    hide Carries;
    PrefixCounted(replay, |replay|);
    if ReplayTo(replay, |replay|).Some? {
      StateOnRows(replay);
      ExitsAlong(events, order);
      var t := AcceptedUnderstood(replay, order);
      TargetVerdict(m, events, t, order);
    }
    hide Counts;
  }
}
