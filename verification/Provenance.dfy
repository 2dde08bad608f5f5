/** Target selection: the recorder's choice of root exec and exit, and the reader's check of it. */
module Provenance {
  import opened Ordered
  import opened Text
  import opened Records
  import opened Timeline
  import opened Lifetimes
  import opened Replay
  import opened Agreement
  import opened LifetimeLaws

  predicate RootExec(e: Event) { e.kind == "exec" && e.outcome == "success" }

  predicate ExitOf(e: Event, root: Event) {
    e.kind == "exit" && e.pid == root.pid && e.taskGeneration == root.taskGeneration
  }

  /** First replay position satisfying `p`. */
  function First(replay: seq<Event>, p: Event -> bool): (r: Option<nat>)
    ensures r.Some? ==> r.value < |replay| && p(replay[r.value]) && forall a :: 0 <= a < r.value ==> !p(replay[a])
    ensures r.None? ==> forall a :: 0 <= a < |replay| ==> !p(replay[a])
  {
    if replay == [] then None
    else if p(replay[0]) then Some(0)
    else match First(replay[1..], p)
         case Some(a) => Some(a + 1)
         case None => None
  }

  // ---------- the reader ----------

  /** Selected positions on the saved fields: first successful exec, first exit of its lifetime. */
  function Selected(replay: seq<Event>): (r: (Option<nat>, Option<nat>))
    ensures r.0.Some? ==> r.0.value < |replay|
    ensures r.1.Some? ==> r.1.value < |replay| && r.0.Some?
  {
    var root := First(replay, RootExec);
    if root.None? then (None, None)
    else (root, First(replay, e => ExitOf(e, replay[root.value])))
  }

  predicate Claims(m: Metadata) { m.completeness == Some(COMPLETE) || m.warnings == [] }

  predicate References(events: seq<Event>, p: TargetProvenance, r: EventReference) {
    && r.index < |events|
    && events[r.index].evidence == r.evidence
    && events[r.index].pid == p.root.pid
    && events[r.index].taskGeneration == Some(p.root.generation)
  }

  /** First exit carrying a saved identity. */
  function ExitOfIdentity(replay: seq<Event>, id: TaskIdentity): Option<nat> {
    First(replay, (e: Event) => e.kind == "exit" && e.pid == id.pid && e.taskGeneration == Some(id.generation))
  }

  /** Vector index visited at a replay position. */
  function IndexAt(order: seq<nat>, position: Option<nat>): Option<nat> {
    if position.Some? && position.value < |order| then Some(order[position.value]) else None
  }

  /** The reader's decision on the saved target, given the vector indices its searches found:
      the first successful exec, that lifetime's exit, and the exit of the saved identity. */
  function TargetCheck(m: Metadata, events: seq<Event>, firstExec: Option<nat>, rootExit: Option<nat>,
                       selectedExit: Option<nat>): Check {
    match m.targetProvenance
    case None => Need(rootExit.None?)
    case Some(p) =>
      var envelope := ValidateEnvelope(m);
      if envelope.Fail? then envelope else
      :- Need(References(events, p, p.rootExec) && References(events, p, p.targetExit));
      :- Need(RootExec(events[p.rootExec.index]) && firstExec == Some(p.rootExec.index));
      Need(events[p.targetExit.index].kind == "exit" && selectedExit == Some(p.targetExit.index) &&
           m.targetExitRaw == Some(events[p.targetExit.index].outcome))
  }

  ghost function ValidateTarget(m: Metadata, events: seq<Event>): Check {
    var order := EvidenceOrder(events);
    EvidenceOrderVisits(events);
    var replay := Along(events, order);
    var (root, exit) := Selected(replay);
    var selected := if m.targetProvenance.None? then None else ExitOfIdentity(replay, m.targetProvenance.value.root);
    TargetCheck(m, events, IndexAt(order, root), IndexAt(order, exit), IndexAt(order, selected))
  }

  ghost function ValidateTraceProvenance(m: Metadata, events: seq<Event>): Check {
    EvidenceOrderVisits(events);
    var replay := Along(events, EvidenceOrder(events));
    var s := ReplayTo(replay, |replay|);
    if s.None? then Fail(Corrupt)
    else if s.value.missing != {} && Claims(m) then Fail(Corrupt)
    else if s.value.uncertain && Claims(m) then Fail(Corrupt)
    else ValidateTarget(m, events)
  }

  // ---------- the recorder ----------

  /** A missing-exit label: the bare PID when it had one lifetime, PID#ordinal otherwise. */
  datatype Label = Bare(pid: string) | Numbered(pid: string, ordinal: nat)

  datatype Completion = Completion(
    rootExec: Option<nat>, rootGeneration: Option<nat>, rootExit: Option<nat>, missingExits: seq<Label>)

  /** How many lifetimes of a PID the timeline holds. */
  function PidCount(generations: seq<Generation>, pid: string): nat {
    if generations == [] then 0
    else PidCount(generations[..|generations| - 1], pid) +
         (if generations[|generations| - 1].pid == pid then 1 else 0)
  }

  function LabelOf(t: Builder, g: Generation): Label {
    if PidCount(t.generations, g.pid) == 1 then Bare(g.pid) else Numbered(g.pid, g.ordinal)
  }

  function MissingTo(t: Builder, k: nat): seq<Label>
    requires k <= |t.generations|
  {
    if k == 0 then []
    else if t.generations[k - 1].exitEvent.None?
    then MissingTo(t, k - 1) + [LabelOf(t, t.generations[k - 1])]
    else MissingTo(t, k - 1)
  }

  function CompletionOf(t: Builder, replay: seq<Event>, order: seq<nat>): Completion
    requires |t.actors| == |replay| == |order|
    requires forall a :: 0 <= a < |replay| ==> t.actors[a] < |t.generations|
  {
    var root := First(replay, RootExec);
    var missing := MissingTo(t, |t.generations|);
    if root.None? then Completion(None, None, None, missing)
    else
      var g := t.actors[root.value];
      Completion(Some(order[root.value]), Some(g), t.generations[g].exitEvent, missing)
  }

  /** The recorder's completion scan: one pass counts PIDs, a second collects missing labels. */
  method FromTimeline(t: Builder, replay: seq<Event>, order: seq<nat>) returns (c: Completion)
    requires |t.actors| == |replay| == |order|
    requires forall a :: 0 <= a < |replay| ==> t.actors[a] < |t.generations|
    ensures c == CompletionOf(t, replay, order)
  {
    var root := First(replay, RootExec);
    var counts: map<string, nat> := map[];
    var i := 0;
    while i < |t.generations|
      invariant 0 <= i <= |t.generations|
      invariant forall p :: (if p in counts then counts[p] else 0) == PidCount(t.generations[..i], p)
    {
      var pid := t.generations[i].pid;
      counts := counts[pid := (if pid in counts then counts[pid] else 0) + 1];
      i := i + 1;
      assert t.generations[..i][..i - 1] == t.generations[..i - 1];
    }
    assert t.generations[..i] == t.generations;
    var missing: seq<Label> := [];
    i := 0;
    while i < |t.generations|
      invariant 0 <= i <= |t.generations| && missing == MissingTo(t, i)
    {
      var g := t.generations[i];
      if g.exitEvent.None? {
        var count := if g.pid in counts then counts[g.pid] else 0;
        missing := missing + [if count == 1 then Bare(g.pid) else Numbered(g.pid, g.ordinal)];
      }
      i := i + 1;
    }
    if root.None? {
      c := Completion(None, None, None, missing);
    } else {
      var g := t.actors[root.value];
      c := Completion(Some(order[root.value]), Some(g), t.generations[g].exitEvent, missing);
    }
  }

  /** The recorder's saved references; absent without both a root exec and its exit. */
  function ProvenanceOf(c: Completion, t: Builder, events: seq<Event>): Option<TargetProvenance>
    requires c.rootExec.Some? ==> c.rootExec.value < |events|
    requires c.rootExit.Some? ==> c.rootExit.value < |events|
    requires c.rootGeneration.Some? ==> c.rootGeneration.value < |t.generations|
  {
    if c.rootGeneration.None? || c.rootExec.None? || c.rootExit.None? then None
    else
      var g := t.generations[c.rootGeneration.value];
      Some(TargetProvenance(
             1, SELECTION_RULE, IDENTITY_CONTRACT, TaskIdentity(g.pid, g.ordinal),
             EventReference(c.rootExec.value, events[c.rootExec.value].evidence),
             EventReference(c.rootExit.value, events[c.rootExit.value].evidence)))
  }

  lemma {:induction false} PidCountPositive(generations: seq<Generation>, pid: string, g: nat)
    requires g < |generations| && generations[g].pid == pid
    ensures PidCount(generations, pid) >= 1
    ensures PidCount(generations, pid) == 1 ==>
              forall h :: 0 <= h < |generations| && generations[h].pid == pid ==> h == g
  {
    var front := generations[..|generations| - 1];
    if g < |front| {
      PidCountPositive(front, pid, g);
    } else {
      forall h | 0 <= h < |front| && front[h].pid == pid ensures PidCount(front, pid) >= 1 {
        PidCountPositive(front, pid, h);
      }
    }
  }

  /** Missing labels are exactly those of unexited lifetimes, and no two lifetimes share one. */
  lemma {:induction false} MissingLabels(t: Builder, k: nat)
    requires k <= |t.generations|
    ensures forall l :: l in MissingTo(t, k) <==>
              exists g :: 0 <= g < k && t.generations[g].exitEvent.None? && LabelOf(t, t.generations[g]) == l
  {
    if k > 0 { MissingLabels(t, k - 1); }
  }

  lemma LabelsDistinct(t: Builder, g: nat, h: nat)
    requires OrdinalsSound(t) && g < h < |t.generations|
    ensures LabelOf(t, t.generations[g]) != LabelOf(t, t.generations[h])
  {
    PidCountPositive(t.generations, t.generations[g].pid, g);
    PidCountPositive(t.generations, t.generations[h].pid, h);
  }

  // ---------- what the timeline says about the selected target ----------

  /** What a timeline over an accepted vector is known to satisfy, in evidence order. */
  ghost predicate Understood(t: Builder, replay: seq<Event>, order: seq<nat>) {
    && |replay| == |order| && Located(t, replay, |replay|)
    && ExitsLocated(t, replay, order, |replay|) && Advancing(t, replay, |replay|)
    && OrderedNames(t) && AllNoted(t, replay, |replay|)
    && (forall g :: 0 <= g < |t.generations| ==> t.generations[g].ordinal >= 1)
    && (forall a, c :: 0 <= a < c < |order| ==> order[a] != order[c])
  }

  lemma UnderstoodWhenNoted(replay: seq<Event>, order: seq<nat>) returns (t: Builder)
    requires |replay| == |order| && forall a, c :: 0 <= a < c < |order| ==> order[a] != order[c]
    requires AllNoted(BuildTo(replay, order, |replay|), replay, |replay|)
    ensures t == BuildTo(replay, order, |replay|) && Understood(t, replay, order)
  {
    hide BuildTo;
    hide AllNoted;
    t := BuildTo(replay, order, |replay|);
    BuildHistory(replay, order, |replay|);
    OrderedNamesFrom(t);
    hide Located;
    hide ExitsLocated;
    hide Advancing;
    hide OrderedNames;
  }

  /** Same saved identity means same lifetime. */
  lemma SameLifetime(t: Builder, replay: seq<Event>, order: seq<nat>, a: nat, c: nat)
    requires Understood(t, replay, order) && a < |replay| && c < |replay|
    ensures replay[a].pid == replay[c].pid && replay[a].taskGeneration == replay[c].taskGeneration
            <==> t.actors[a] == t.actors[c]
  {
    hide ExitsLocated;
    hide Advancing;
    hide Untrusted;
    assert Noted(t, replay, a) && Noted(t, replay, c);
    var g, h := t.actors[a], t.actors[c];
    if t.generations[g].pid == t.generations[h].pid && g != h {
      assert t.generations[g].ordinal != t.generations[h].ordinal;
    }
  }

  /** The recorded exit of a lifetime is the only exit carrying its saved identity. */
  lemma ExitFound(t: Builder, replay: seq<Event>, order: seq<nat>, a: nat, d: nat)
    requires Understood(t, replay, order) && a < |replay| && d < |replay|
    ensures ExitOf(replay[d], replay[a]) <==> t.generations[t.actors[a]].exitEvent == Some(order[d])
  {
    SameLifetime(t, replay, order, a, d);
    hide OrderedNames;
    hide AllNoted;
    hide Advancing;
    var g := t.actors[a];
    if ExitOf(replay[d], replay[a]) { assert ExitedAt(t, replay, order, t.actors[d], d); }
    if t.generations[g].exitEvent == Some(order[d]) {
      var c :| 0 <= c < |replay| && ExitedAt(t, replay, order, g, c);
      assert order[c] == order[d];
      assert c == d;
    }
  }

  lemma ExitExists(t: Builder, replay: seq<Event>, order: seq<nat>, a: nat)
    requires Understood(t, replay, order) && a < |replay|
    ensures t.generations[t.actors[a]].exitEvent.Some? ==>
              exists d :: 0 <= d < |replay| && ExitOf(replay[d], replay[a])
  {
    if t.generations[t.actors[a]].exitEvent.Some? {
      var d :| 0 <= d < |replay| && ExitedAt(t, replay, order, t.actors[a], d);
      ExitFound(t, replay, order, a, d);
    }
  }

  /** The reader's search over saved fields finds the timeline's exit. */
  lemma SelectedExit(t: Builder, replay: seq<Event>, order: seq<nat>, a: nat)
    requires Understood(t, replay, order) && a < |replay|
    ensures var exit := First(replay, e => ExitOf(e, replay[a]));
            match t.generations[t.actors[a]].exitEvent
            case Some(i) => exit.Some? && order[exit.value] == i
            case None => exit.None?
  {
    ExitExists(t, replay, order, a);
    var exit := First(replay, e => ExitOf(e, replay[a]));
    if exit.Some? { ExitFound(t, replay, order, a, exit.value); }
    hide Understood;
  }

  /** A selected exit comes strictly after its exec in the trace, whatever the vector order. */
  lemma ExitFollowsExec(t: Builder, replay: seq<Event>, order: seq<nat>, a: nat, d: nat)
    requires Understood(t, replay, order) && a < |replay| && d < |replay|
    requires RootExec(replay[a]) && ExitOf(replay[d], replay[a])
    ensures a < d
  {
    SameLifetime(t, replay, order, a, d);
    hide Located;
    hide ExitsLocated;
    hide OrderedNames;
    hide AllNoted;
  }

  // ---------- the recorder's projection, for a whole vector ----------

  ghost function TimelineOf(events: seq<Event>): Builder {
    EvidenceOrderVisits(events);
    BuildTo(Along(events, EvidenceOrder(events)), EvidenceOrder(events), |events|)
  }

  /** Position facts about a selected pair of replay positions. */
  ghost predicate Chosen(replay: seq<Event>, root: Option<nat>, exit: Option<nat>) {
    && root == First(replay, RootExec)
    && (root.None? ==> exit.None?)
    && (root.Some? ==> exit == First(replay, e => ExitOf(e, replay[root.value])))
  }

  /** The provenance naming exec `i` and exit `j` of the vector, on saved fields alone. */
  function NamedPair(events: seq<Event>, i: nat, j: nat): TargetProvenance
    requires i < |events| && j < |events|
  {
    TargetProvenance(
      1, SELECTION_RULE, IDENTITY_CONTRACT,
      TaskIdentity(events[i].pid, Or0(events[i].taskGeneration)),
      EventReference(i, events[i].evidence), EventReference(j, events[j].evidence))
  }

  /** The provenance named by selected vector indices. */
  function Named(events: seq<Event>, root: Option<nat>, exit: Option<nat>): Option<TargetProvenance>
    requires root.Some? ==> root.value < |events|
    requires exit.Some? ==> exit.value < |events|
  {
    if root.None? || exit.None? then None else Some(NamedPair(events, root.value, exit.value))
  }

  /** The completion scan names exactly what the reader selects. */
  lemma CompletionSelects(t: Builder, events: seq<Event>, order: seq<nat>, root: Option<nat>, exit: Option<nat>)
    requires Visits(events, order) && Understood(t, Along(events, order), order)
    requires Chosen(Along(events, order), root, exit)
    ensures var c := CompletionOf(t, Along(events, order), order);
            && c.rootExit == IndexAt(order, exit)
            && (c.rootGeneration.Some? ==> c.rootGeneration.value < |t.generations|)
            && (c.rootExec.Some? ==> c.rootExec.value < |events|)
            && (c.rootExit.Some? ==> c.rootExit.value < |events|)
            && ProvenanceOf(c, t, events) == Named(events, IndexAt(order, root), IndexAt(order, exit))
  {
    var replay := Along(events, order);
    if root.Some? {
      SelectedExit(t, replay, order, root.value);
      assert Noted(t, replay, root.value);
    }
    hide ExitsLocated;
    hide Advancing;
    hide OrderedNames;
    hide MissingTo;
  }

  lemma FirstSame(replay: seq<Event>, p: Event -> bool, q: Event -> bool)
    requires forall a :: 0 <= a < |replay| ==> p(replay[a]) == q(replay[a])
    ensures First(replay, p) == First(replay, q)
  {
    var x, y := First(replay, p), First(replay, q);
    assert x.Some? && y.Some? ==> !(x.value < y.value) && !(y.value < x.value);
  }

  /** What metadata must say for its references to be within bounds. */
  ghost predicate Bounded(m: Metadata, events: seq<Event>) {
    && m.parsedEvents == |events|
    && forall i :: 0 <= i < |events| ==> CurrentShape(events[i]) && events[i].evidence.endLine <= m.rawLines
  }

  lemma ShapeGivesIdentity(e: Event)
    requires CurrentShape(e)
    ensures IsTaskId(e.pid) && e.evidence.file == RAW_FILE && EvidenceOrdered(e.evidence)
  {
  }

  lemma OrderedPositions(events: seq<Event>, order: seq<nat>, a: nat, d: nat)
    requires order == EvidenceOrder(events) && a < d < |events|
    ensures order[a] != order[d] && order[a] < |events| && order[d] < |events|
    ensures CoordinatesBefore(events[order[a]].evidence, order[a], events[order[d]].evidence, order[d])
  {
    EvidenceOrderVisits(events);
    assert Earlier(events)(order[a], order[d]);
  }

  lemma EnvelopePasses(m: Metadata, events: seq<Event>, i: nat, j: nat)
    requires Bounded(m, events) && i < |events| && j < |events| && i != j
    requires events[i].taskGeneration.Some? && events[i].taskGeneration.value >= 1
    requires CoordinatesBefore(events[i].evidence, i, events[j].evidence, j)
    requires m.targetProvenance == Some(NamedPair(events, i, j))
    ensures ValidateEnvelope(m) == Pass
  {
    ShapeGivesIdentity(events[i]);
    ShapeGivesIdentity(events[j]);
    hide CurrentShape;
    hide IsTaskId;
    hide CoordinatesBefore;
  }

  /** The projected references always pass the envelope check, including its evidence-order rule. */
  lemma NamedEnvelope(m: Metadata, events: seq<Event>, t: Builder, order: seq<nat>, root: nat, exit: nat)
    requires order == EvidenceOrder(events) && Visits(events, order) && Bounded(m, events)
    requires Understood(t, Along(events, order), order)
    requires Chosen(Along(events, order), Some(root), Some(exit))
    requires m.targetProvenance == Some(NamedPair(events, order[root], order[exit]))
    ensures ValidateEnvelope(m) == Pass
  {
    hide Understood;
    hide Bounded;
    hide ValidateEnvelope;
    hide CoordinatesBefore;
    hide NamedPair;
    var replay := Along(events, order);
    ExitFollowsExec(t, replay, order, root, exit);
    OrderedPositions(events, order, root, exit);
    RootNumbered(t, replay, order, root);
    hide EvidenceOrder;
    hide First;
    EnvelopePasses(m, events, order[root], order[exit]);
  }

  lemma RootNumbered(t: Builder, replay: seq<Event>, order: seq<nat>, a: nat)
    requires Understood(t, replay, order) && a < |replay|
    ensures replay[a].taskGeneration.Some? && replay[a].taskGeneration.value >= 1
  {
    assert Noted(t, replay, a);
  }

  /** Searching by saved identity is searching by the selected root, once they agree. */
  lemma SearchByIdentity(replay: seq<Event>, id: TaskIdentity, a: nat)
    requires a < |replay| && id.pid == replay[a].pid && replay[a].taskGeneration == Some(id.generation)
    ensures ExitOfIdentity(replay, id) == First(replay, e => ExitOf(e, replay[a]))
  {
    FirstSame(replay,
              (e: Event) => e.kind == "exit" && e.pid == id.pid && e.taskGeneration == Some(id.generation),
              e => ExitOf(e, replay[a]));
  }

  /** The metadata carries the selected pair's projection and that exit's own spelling. */
  predicate TargetIs(m: Metadata, events: seq<Event>, root: Option<nat>, exit: Option<nat>)
    requires root.Some? ==> root.value < |events|
    requires exit.Some? ==> exit.value < |events|
  {
    && m.targetProvenance == Named(events, root, exit)
    && (root.Some? && exit.Some? ==> m.targetExitRaw == Some(events[exit.value].outcome))
  }

  ghost predicate Selection(events: seq<Event>, root: Option<nat>, exit: Option<nat>) {
    && (root.Some? ==> root.value < |events| && events[root.value].taskGeneration.Some? && RootExec(events[root.value]))
    && (exit.Some? ==> root.Some? && exit.value < |events| && ExitOf(events[exit.value], events[root.value]))
  }

  lemma CheckDecides(m: Metadata, events: seq<Event>, root: Option<nat>, exit: Option<nat>, selected: Option<nat>)
    requires Selection(events, root, exit)
    requires m.targetProvenance.Some? && root.Some? &&
             m.targetProvenance.value.root == TaskIdentity(events[root.value].pid, events[root.value].taskGeneration.value)
             ==> selected == exit
    requires m.targetProvenance.Some? && m.targetProvenance == Named(events, root, exit) ==> ValidateEnvelope(m) == Pass
    ensures TargetCheck(m, events, root, exit, selected) == Pass <==> TargetIs(m, events, root, exit)
  {
    if m.targetProvenance.Some? { EnvelopeFixesRules(m); }
    hide ValidateEnvelope;
  }

  lemma EnvelopeFixesRules(m: Metadata)
    requires m.targetProvenance.Some?
    ensures ValidateEnvelope(m) == Pass ==>
              var p := m.targetProvenance.value;
              p.schemaVersion == 1 && p.selectionRule == SELECTION_RULE && p.identityContract == IDENTITY_CONTRACT
  {
  }

  lemma ChosenSelection(t: Builder, events: seq<Event>, order: seq<nat>, root: Option<nat>, exit: Option<nat>)
    requires Visits(events, order) && Understood(t, Along(events, order), order)
    requires Chosen(Along(events, order), root, exit)
    ensures Selection(events, IndexAt(order, root), IndexAt(order, exit))
  {
    if root.Some? { RootNumbered(t, Along(events, order), order, root.value); }
    hide Understood;
  }

  /** On accepted annotations the saved target is admitted exactly when it is the selected pair's
      projection together with that exit's own spelling; absence is admitted only when the
      selected lifetime has no exit. */
  lemma TargetDecided(m: Metadata, events: seq<Event>, t: Builder, order: seq<nat>)
    requires order == EvidenceOrder(events) && Visits(events, order) && Bounded(m, events)
    requires Understood(t, Along(events, order), order)
    ensures var (root, exit) := Selected(Along(events, order));
            && Selection(events, IndexAt(order, root), IndexAt(order, exit))
            && (ValidateTarget(m, events) == Pass <==>
                TargetIs(m, events, IndexAt(order, root), IndexAt(order, exit)))
  {
    var replay := Along(events, order);
    var (root, exit) := Selected(replay);
    assert Chosen(replay, root, exit);
    ChosenSelection(t, events, order, root, exit);
    hide Understood;
    hide EvidenceOrder;
    hide First;
    hide Bounded;
    hide TargetCheck;
    var first, last := IndexAt(order, root), IndexAt(order, exit);
    var selected := if m.targetProvenance.None? then None else ExitOfIdentity(replay, m.targetProvenance.value.root);
    if m.targetProvenance.Some? && root.Some? &&
       m.targetProvenance.value.root == TaskIdentity(replay[root.value].pid, Or0(replay[root.value].taskGeneration)) {
      SearchByIdentity(replay, m.targetProvenance.value.root, root.value);
    }
    if m.targetProvenance.Some? && m.targetProvenance == Named(events, first, last) {
      NamedEnvelope(m, events, t, order, root.value, exit.value);
    }
    hide ExitOfIdentity;
    CheckDecides(m, events, first, last, IndexAt(order, selected));
  }

  // ---------- the whole check ----------

  /** Every event carries what the recorder's timeline assigned to it. */
  ghost predicate Annotated(events: seq<Event>) {
    EvidenceOrderVisits(events);
    var replay := Along(events, EvidenceOrder(events));
    AllNoted(TimelineOf(events), replay, |replay|)
  }

  lemma MissingLabelsAreOpen(t: Builder)
    ensures MissingTo(t, |t.generations|) != [] <==> Open(t) != {}
  {
    MissingLabels(t, |t.generations|);
    var labels := MissingTo(t, |t.generations|);
    if labels != [] {
      assert labels[0] in labels;
      var g :| 0 <= g < |t.generations| && t.generations[g].exitEvent.None? && LabelOf(t, t.generations[g]) == labels[0];
      assert NameOf(t.generations[g]) in Open(t);
    }
    if Open(t) != {} {
      var id :| id in Open(t);
      var g :| 0 <= g < |t.generations| && t.generations[g].exitEvent.None? && NameOf(t.generations[g]) == id;
      assert LabelOf(t, t.generations[g]) in labels;
    }
  }

  lemma TimelineLocated(events: seq<Event>, order: seq<nat>) returns (t: Builder)
    requires order == EvidenceOrder(events) && Visits(events, order)
    ensures t == TimelineOf(events) && t == BuildTo(Along(events, order), order, |order|)
    ensures |t.actors| == |order| && forall a :: 0 <= a < |order| ==> t.actors[a] < |t.generations|
  {
    t := TimelineOf(events);
    BuildHistory(Along(events, order), order, |order|);
    hide BuildTo;
    hide EvidenceOrder;
    hide Sound;
    hide ExitsLocated;
    hide Chronological;
  }

  /** Limits of the saved lifetimes, as the completion scan knows them. */
  ghost predicate Limited(t: Builder, c: Completion) { c.missingExits != [] || SomeUntrusted(t) }

  lemma CheckSplits(m: Metadata, events: seq<Event>, order: seq<nat>)
    requires order == EvidenceOrder(events) && Visits(events, order)
    ensures var s := ReplayTo(Along(events, order), |order|);
            ValidateTraceProvenance(m, events) == Pass <==>
              && s.Some?
              && (s.value.missing != {} || s.value.uncertain ==> !Claims(m))
              && ValidateTarget(m, events) == Pass
  {
    hide EvidenceOrder;
    hide ReplayTo;
    hide ValidateTarget;
  }

  /** The reader's own searches, restated over the recorder's completion scan. */
  lemma TargetRecorded(m: Metadata, events: seq<Event>, t: Builder, order: seq<nat>)
    requires order == EvidenceOrder(events) && Visits(events, order) && Bounded(m, events)
    requires Understood(t, Along(events, order), order)
    requires |t.actors| == |order| && forall a :: 0 <= a < |order| ==> t.actors[a] < |t.generations|
    ensures var c := CompletionOf(t, Along(events, order), order);
            && InBounds(c, t, events)
            && (ValidateTarget(m, events) == Pass <==> Recorded(m, c, t, events))
  {
    var replay := Along(events, order);
    var (root, exit) := Selected(replay);
    assert Chosen(replay, root, exit);
    TargetDecided(m, events, t, order);
    CompletionSelects(t, events, order, root, exit);
    hide Understood;
    hide EvidenceOrder;
    hide First;
    hide Bounded;
    hide ValidateTarget;
    hide ProvenanceOf;
    hide NamedPair;
  }

  predicate InBounds(c: Completion, t: Builder, events: seq<Event>) {
    && (c.rootExec.Some? ==> c.rootExec.value < |events|)
    && (c.rootExit.Some? ==>
          c.rootExit.value < |events| && events[c.rootExit.value].kind == "exit" && c.rootExec.Some?)
    && (c.rootGeneration.Some? ==> c.rootGeneration.value < |t.generations|)
  }

  /** The metadata's target is the completion scan's own projection. */
  predicate Recorded(m: Metadata, c: Completion, t: Builder, events: seq<Event>)
    requires InBounds(c, t, events)
  {
    && m.targetProvenance == ProvenanceOf(c, t, events)
    && (c.rootExit.Some? ==> m.targetExitRaw == Some(events[c.rootExit.value].outcome))
  }

  lemma LimitsMatch(t: Builder, c: Completion, s: State)
    requires Indexed(t) && Linked(t, s) && c.missingExits == MissingTo(t, |t.generations|)
    ensures s.missing != {} || s.uncertain <==> Limited(t, c)
  {
    MissingLabelsAreOpen(t);
    hide Open;
    hide SomeUntrusted;
    hide MissingTo;
  }

  lemma CompletionMissing(t: Builder, replay: seq<Event>, order: seq<nat>)
    requires |t.actors| == |replay| == |order|
    requires forall a :: 0 <= a < |replay| ==> t.actors[a] < |t.generations|
    ensures CompletionOf(t, replay, order).missingExits == MissingTo(t, |t.generations|)
  {
  }

  lemma ExitBounded(t: Builder, events: seq<Event>, order: seq<nat>, g: nat)
    requires Visits(events, order) && g < |t.generations|
    requires Located(t, Along(events, order), |order|) && ExitsLocated(t, Along(events, order), order, |order|)
    ensures t.generations[g].exitEvent.Some? ==>
              var i := t.generations[g].exitEvent.value; i < |events| && events[i].kind == "exit"
  {
    if t.generations[g].exitEvent.Some? {
      var d :| 0 <= d < |order| && ExitedAt(t, Along(events, order), order, g, d);
    }
  }

  lemma InBoundsAlways(t: Builder, events: seq<Event>, order: seq<nat>)
    requires Visits(events, order) && t == BuildTo(Along(events, order), order, |order|)
    requires |t.actors| == |order| && forall a :: 0 <= a < |order| ==> t.actors[a] < |t.generations|
    ensures InBounds(CompletionOf(t, Along(events, order), order), t, events)
  {
    hide BuildTo;
    hide MissingTo;
    hide Sound;
    hide Chronological;
    hide ExitsLocated;
    hide Located;
    BuildHistory(Along(events, order), order, |order|);
    var root := First(Along(events, order), RootExec);
    if root.Some? { ExitBounded(t, events, order, t.actors[root.value]); }
    hide First;
  }

  /** The reader admits a vector exactly when it carries the recorder's annotations, its limitations
      are admitted, and its target is the recorder's own projection with that exit's spelling. In
      particular a vector admits one target at most, absence included. */
  lemma TraceProvenanceDecided(m: Metadata, events: seq<Event>) returns (t: Builder, c: Completion)
    requires Bounded(m, events)
    ensures t == TimelineOf(events) && Visits(events, EvidenceOrder(events))
    ensures |t.actors| == |events| && forall a :: 0 <= a < |events| ==> t.actors[a] < |t.generations|
    ensures c == CompletionOf(t, Along(events, EvidenceOrder(events)), EvidenceOrder(events))
    ensures InBounds(c, t, events)
    ensures ValidateTraceProvenance(m, events) == Pass <==>
              Annotated(events) && (Limited(t, c) ==> !Claims(m)) && Recorded(m, c, t, events)
  {
    EvidenceOrderVisits(events);
    var order := EvidenceOrder(events);
    var replay := Along(events, order);
    t := TimelineLocated(events, order);
    c := CompletionOf(t, replay, order);
    hide CompletionOf;
    hide EvidenceOrder;
    hide BuildTo;
    hide TimelineOf;
    hide AllNoted;
    hide Bounded;
    hide Limited;
    hide Linked;
    hide ReplayTo;
    hide Understood;
    InBoundsAlways(t, events, order);
    CheckSplits(m, events, order);
    PrefixAgrees(replay, order, |order|);
    hide ValidateTraceProvenance;
    hide ValidateTarget;
    hide InBounds;
    hide Recorded;
    CompletionMissing(t, replay, order);
    if AllNoted(t, replay, |replay|) {
      var u := UnderstoodWhenNoted(replay, order);
      TargetRecorded(m, events, t, order);
      LimitsMatch(t, c, ReplayTo(replay, |order|).value);
    }
  }

  /** The saved-run contract: aggregate facts for every version, lifetimes and target for version 4. */
  ghost function ValidateRun(m: Metadata, events: seq<Event>, finalized: bool): Check {
    var facts := ValidateFacts(m, FactsOf(events), finalized);
    if facts.Fail? then facts
    else if m.schemaVersion == 4 then ValidateTraceProvenance(m, events)
    else Pass
  }
}
