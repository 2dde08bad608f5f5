/** What every annotation vector accepted by the reader satisfies, stated on the saved fields. */
module LifetimeLaws {
  import opened Ordered
  import opened Records
  import opened Timeline
  import opened Lifetimes
  import opened Replay
  import opened Agreement

  function Slots(n: nat): (r: seq<nat>)
    ensures |r| == n
  {
    seq(n, i requires 0 <= i < n => i)
  }

  /** The replayed events pass the reader's lifetime loop. */
  predicate Accepted(replay: seq<Event>) { ReplayTo(replay, |replay|).Some? }

  ghost function Final(replay: seq<Event>): Builder {
    BuildTo(replay, Slots(|replay|), |replay|)
  }

  /** Saved identity of the acting lifetime. */
  function Self(e: Event): TaskIdentity { TaskIdentity(e.pid, Or0(e.taskGeneration)) }

  /** Saved identity of the spawned lifetime. */
  function Child(e: Event): TaskIdentity
    requires e.childPid.Some?
  {
    TaskIdentity(e.childPid.value, Or0(e.childGeneration))
  }

  predicate Exits(e: Event) { e.kind == "exit" }

  // ---------- from the builder to the saved fields ----------

  /** Saved identities name the builder's lifetimes. */
  ghost predicate Names(b: Builder, replay: seq<Event>) {
    && |b.actors| == |b.spawned| == |replay|
    && (forall a :: 0 <= a < |replay| ==>
          b.actors[a] < |b.generations| && Self(replay[a]) == NameOf(b.generations[b.actors[a]]))
    && (forall a :: 0 <= a < |replay| ==> b.spawned[a].Some? == replay[a].childPid.Some?)
    && (forall a :: 0 <= a < |replay| && replay[a].childPid.Some? ==>
          b.spawned[a].value < |b.generations| &&
          Child(replay[a]) == NameOf(b.generations[b.spawned[a].value]))
  }

  /** Names are injective, and per PID their order is the order of creation. */
  ghost predicate OrderedNames(b: Builder) {
    forall g, h :: 0 <= g < |b.generations| && 0 <= h < |b.generations| &&
                   b.generations[g].pid == b.generations[h].pid ==>
      (g < h <==> b.generations[g].ordinal < b.generations[h].ordinal)
  }

  lemma NamesFrom(b: Builder, replay: seq<Event>)
    requires Located(b, replay, |replay|) && AllNoted(b, replay, |replay|)
    ensures Names(b, replay)
  {
    hide Untrusted;
    forall a | 0 <= a < |replay|
      ensures Self(replay[a]) == NameOf(b.generations[b.actors[a]])
      ensures replay[a].childPid.Some? ==> Child(replay[a]) == NameOf(b.generations[b.spawned[a].value])
    {
      assert Noted(b, replay, a);
    }
  }

  lemma OrderedNamesFrom(b: Builder)
    requires OrdinalsSound(b)
    ensures OrderedNames(b)
  {
    forall g, h | 0 <= g < |b.generations| && 0 <= h < |b.generations| && b.generations[g].pid == b.generations[h].pid
      ensures g < h <==> b.generations[g].ordinal < b.generations[h].ordinal
    {
      if h < g { assert b.generations[h].ordinal < b.generations[g].ordinal; }
    }
  }

  /** The timeline behind an accepted vector. */
  ghost predicate Explains(b: Builder, replay: seq<Event>) {
    && Names(b, replay) && OrderedNames(b) && Sound(b) && Accounted(b)
    && Located(b, replay, |replay|) && Chronological(b, replay, |replay|)
    && ExitsLocated(b, replay, Slots(|replay|), |replay|)
    && |b.generations| <= 2 * |replay|
  }

  lemma Explanation(replay: seq<Event>) returns (b: Builder)
    requires Accepted(replay)
    ensures b == Final(replay) && Explains(b, replay) && AllNoted(b, replay, |replay|)
    ensures Linked(b, ReplayTo(replay, |replay|).value)
  {
    hide History;
    hide Linked;
    hide AllNoted;
    hide Accounted;
    hide Sound;
    hide Located;
    hide Names;
    hide OrderedNames;
    hide ExitsLocated;
    hide Chronological;
    b := Final(replay);
    BuildHistory(replay, Slots(|replay|), |replay|);
    BuildAccounted(replay, Slots(|replay|), |replay|);
    PrefixAgrees(replay, Slots(|replay|), |replay|);
    HistoryAll(b, replay);
    NamesFrom(b, replay);
    OrderedNamesFrom(b);
  }

  lemma HistoryAll(b: Builder, replay: seq<Event>)
    requires History(b, replay, Slots(|replay|), |replay|)
    ensures Sound(b) && OrdinalsSound(b) && Located(b, replay, |replay|) && Chronological(b, replay, |replay|)
    ensures ExitsLocated(b, replay, Slots(|replay|), |replay|)
  {
  }

  // ---------- chronology ----------

  /** Saved generations of a PID never decrease along the trace and strictly increase across an
      exit: nothing belongs to a lifetime after its exit. */
  lemma GenerationsAdvance(replay: seq<Event>, a: nat, c: nat)
    requires Accepted(replay) && a < c < |replay| && replay[a].pid == replay[c].pid
    ensures Self(replay[a]).generation <= Self(replay[c]).generation
    ensures Exits(replay[a]) ==> Self(replay[a]).generation < Self(replay[c]).generation
  {
    hide *;
    var b := Explanation(replay);
    AdvancingNames(b, replay, a, c);
  }

  /** A lifetime displaced by a spawn of its PID never receives another event. */
  lemma DisplacedStaysSilent(replay: seq<Event>, a: nat, c: nat)
    requires Accepted(replay) && a < c < |replay| && replay[a].childPid == Some(replay[c].pid)
    ensures Child(replay[a]).generation <= Self(replay[c]).generation
  {
    hide *;
    var b := Explanation(replay);
    DisplacingNames(b, replay, a, c);
  }

  /** A spawn introduces a lifetime that no earlier event or spawn carried. */
  lemma SpawnIntroducesNew(replay: seq<Event>, a: nat, c: nat)
    requires Accepted(replay) && a <= c < |replay| && replay[c].childPid.Some?
    ensures replay[c].childPid.value == replay[a].pid ==>
              Self(replay[a]).generation < Child(replay[c]).generation
    ensures a < c && replay[a].childPid == replay[c].childPid ==>
              Child(replay[a]).generation < Child(replay[c]).generation
  {
    hide *;
    var b := Explanation(replay);
    IntroducingNames(b, replay, a, c);
  }

  lemma AdvancingNames(b: Builder, replay: seq<Event>, a: nat, c: nat)
    requires Explains(b, replay) && a < c < |replay| && replay[a].pid == replay[c].pid
    ensures Self(replay[a]).generation <= Self(replay[c]).generation
    ensures Exits(replay[a]) ==> Self(replay[a]).generation < Self(replay[c]).generation
  {
    hide Sound;
    hide Located;
    hide ExitsLocated;
    hide Displacing;
    hide Introducing;
    hide Accounted;
    assert b.generations[b.actors[a]].pid == b.generations[b.actors[c]].pid;
  }

  lemma DisplacingNames(b: Builder, replay: seq<Event>, a: nat, c: nat)
    requires Explains(b, replay) && a < c < |replay| && replay[a].childPid == Some(replay[c].pid)
    ensures Child(replay[a]).generation <= Self(replay[c]).generation
  {
    hide Sound;
    hide Located;
    hide ExitsLocated;
    hide Advancing;
    hide Introducing;
    hide Accounted;
    assert b.generations[b.spawned[a].value].pid == b.generations[b.actors[c]].pid;
  }

  lemma IntroducingNames(b: Builder, replay: seq<Event>, a: nat, c: nat)
    requires Explains(b, replay) && a <= c < |replay| && replay[c].childPid.Some?
    ensures replay[c].childPid.value == replay[a].pid ==>
              Self(replay[a]).generation < Child(replay[c]).generation
    ensures a < c && replay[a].childPid == replay[c].childPid ==>
              Child(replay[a]).generation < Child(replay[c]).generation
  {
    hide Sound;
    hide Located;
    hide ExitsLocated;
    hide Advancing;
    hide Displacing;
    hide Accounted;
    var h := b.spawned[c].value;
    if replay[c].childPid.value == replay[a].pid {
      assert b.generations[b.actors[a]].pid == b.generations[h].pid;
    }
    if a < c && replay[a].childPid == replay[c].childPid {
      assert b.generations[b.spawned[a].value].pid == b.generations[h].pid;
    }
  }

  // ---------- accounting ----------

  ghost function Actors(replay: seq<Event>): set<TaskIdentity> {
    set a | 0 <= a < |replay| :: Self(replay[a])
  }

  ghost function Spawns(replay: seq<Event>): set<TaskIdentity> {
    set a | 0 <= a < |replay| && replay[a].childPid.Some? :: Child(replay[a])
  }

  ghost function Introduced(replay: seq<Event>): set<TaskIdentity> { Actors(replay) + Spawns(replay) }

  ghost function Exited(replay: seq<Event>): set<TaskIdentity> {
    set a | 0 <= a < |replay| && Exits(replay[a]) :: Self(replay[a])
  }

  ghost predicate Known(b: Builder, id: TaskIdentity) {
    exists g :: 0 <= g < |b.generations| && NameOf(b.generations[g]) == id
  }

  lemma IntroducedKnown(b: Builder, replay: seq<Event>, id: TaskIdentity)
    requires Explains(b, replay)
    ensures id in Introduced(replay) <==> Known(b, id)
  {
    hide Sound;
    hide Located;
    hide ExitsLocated;
    hide Chronological;
    hide OrderedNames;
    hide NameOf;
    if Known(b, id) {
      var g :| 0 <= g < |b.generations| && NameOf(b.generations[g]) == id;
      assert HasIntroducer(b, g);
      var a: nat :| Introduces(b, a, g);
      if BySpawn(b.generations[g].origin) { assert Child(replay[a]) == id; } else { assert Self(replay[a]) == id; }
    }
  }

  lemma ExitedKnown(b: Builder, replay: seq<Event>, g: nat)
    requires Explains(b, replay) && g < |b.generations|
    ensures NameOf(b.generations[g]) in Exited(replay) <==> b.generations[g].exitEvent.Some?
  {
    hide Sound;
    hide Located;
    hide Accounted;
    hide Chronological;
    if b.generations[g].exitEvent.Some? {
      var a :| 0 <= a < |replay| && ExitedAt(b, replay, Slots(|replay|), g, a);
      assert Self(replay[a]) == NameOf(b.generations[g]);
    }
    if NameOf(b.generations[g]) in Exited(replay) {
      var a :| 0 <= a < |replay| && Exits(replay[a]) && Self(replay[a]) == NameOf(b.generations[g]);
      assert ExitedAt(b, replay, Slots(|replay|), b.actors[a], a);
      assert b.actors[a] == g;
    }
  }

  lemma OpenIsIntroducedMinusExited(b: Builder, replay: seq<Event>, id: TaskIdentity)
    requires Explains(b, replay)
    ensures id in Open(b) <==> id in Introduced(replay) && id !in Exited(replay)
  {
    hide Introduced;
    hide Exited;
    hide Explains;
    IntroducedKnown(b, replay, id);
    if Known(b, id) {
      var g :| 0 <= g < |b.generations| && NameOf(b.generations[g]) == id;
      ExitedKnown(b, replay, g);
      if id in Open(b) {
        var h :| 0 <= h < |b.generations| && b.generations[h].exitEvent.None? && NameOf(b.generations[h]) == id;
        ExitedKnown(b, replay, h);
      }
    }
  }

  /** The reader's missing set is exactly the introduced lifetimes that never exited. */
  lemma MissingIsIntroducedMinusExited(replay: seq<Event>)
    requires Accepted(replay)
    ensures ReplayTo(replay, |replay|).value.missing == Introduced(replay) - Exited(replay)
  {
    hide Explains;
    hide AllNoted;
    hide Introduced;
    hide Exited;
    hide Open;
    hide Final;
    hide ReplayTo;
    var b := Explanation(replay);
    forall id { OpenIsIntroducedMinusExited(b, replay, id); }
  }

  lemma ContiguousNames(b: Builder, replay: seq<Event>, id: TaskIdentity, m: nat)
    requires Explains(b, replay) && Known(b, id)
    ensures 1 <= id.generation <= 2 * |replay|
    ensures 1 <= m <= id.generation ==> Known(b, TaskIdentity(id.pid, m))
  {
    hide Names;
    hide OrderedNames;
    hide OriginsSound;
    hide Located;
    hide ExitsLocated;
    hide Accounted;
    hide Chronological;
    var g :| 0 <= g < |b.generations| && NameOf(b.generations[g]) == id;
    assert 1 <= b.generations[g].ordinal <= g + 1 <= |b.generations| <= 2 * |replay|;
    var last := b.latest[id.pid];
    assert b.generations[g].ordinal <= b.generations[last].ordinal;
    if 1 <= m <= id.generation {
      assert HasLifetime(b, id.pid, m);
      var x :| 0 <= x < |b.generations| && b.generations[x].pid == id.pid && b.generations[x].ordinal == m;
      assert NameOf(b.generations[x]) == TaskIdentity(id.pid, m);
    }
  }

  /** Ordinals of a PID are contiguous from one, and no trace needs more than two per event, so
      the saturating increment never saturates. */
  lemma OrdinalsContiguous(replay: seq<Event>, id: TaskIdentity, m: nat)
    requires Accepted(replay) && id in Introduced(replay)
    ensures 1 <= id.generation <= 2 * |replay|
    ensures 1 <= m <= id.generation ==> TaskIdentity(id.pid, m) in Introduced(replay)
  {
    hide *;
    var b := Explanation(replay);
    IntroducedKnown(b, replay, id);
    IntroducedKnown(b, replay, TaskIdentity(id.pid, m));
    ContiguousNames(b, replay, id, m);
  }

  // ---------- annotations are a function of the observations ----------

  /** Events that differ at most in annotations, uncertainty, paths and outcomes. */
  predicate SameObservation(x: Event, y: Event) {
    x.pid == y.pid && x.kind == y.kind && x.childPid == y.childPid && x.evidence == y.evidence
  }

  ghost predicate SameObservations(xs: seq<Event>, ys: seq<Event>) {
    |xs| == |ys| && forall i :: 0 <= i < |xs| ==> SameObservation(xs[i], ys[i])
  }

  lemma {:induction false} SameTimeline(xs: seq<Event>, ys: seq<Event>, slots: seq<nat>, k: nat)
    requires SameObservations(xs, ys) && k <= |xs| == |slots|
    ensures BuildTo(xs, slots, k) == BuildTo(ys, slots, k)
  {
    hide BuildStep;
    if k > 0 {
      SameTimeline(xs, ys, slots, k - 1);
      SameStep(BuildTo(xs, slots, k - 1), xs[k - 1], ys[k - 1], slots[k - 1]);
    }
  }

  lemma SameStep(b: Builder, x: Event, y: Event, i: nat)
    requires Indexed(b) && SameObservation(x, y)
    ensures BuildStep(b, x, i) == BuildStep(b, y, i)
  {
    hide Indexed;
    hide Resolve;
    hide Spawn;
    assert Attribute(Resolve(b, x.pid, i), x, i) == Attribute(Resolve(b, y.pid, i), y, i);
    hide Attribute;
  }

  lemma SameOrder(xs: seq<Event>, ys: seq<Event>)
    requires SameObservations(xs, ys)
    ensures EvidenceOrder(xs) == EvidenceOrder(ys)
  {
    EarlierStrictTotal(xs);
    var order := EvidenceOrder(ys);
    assert forall i: nat, j: nat :: Earlier(ys)(i, j) == Earlier(xs)(i, j);
    assert Ascending(order, Earlier(xs));
    AscendingUnique(order, EvidenceOrder(xs), Earlier(xs));
  }

  ghost predicate AcceptedVector(events: seq<Event>) {
    Accepted(Along(events, EvidenceOrder(events)))
  }

  /** Two accepted vectors over the same observations carry identical actor and child generations. */
  lemma AnnotationsDetermined(xs: seq<Event>, ys: seq<Event>, i: nat)
    requires SameObservations(xs, ys) && AcceptedVector(xs) && AcceptedVector(ys) && i < |xs|
    ensures xs[i].taskGeneration == ys[i].taskGeneration
    ensures xs[i].childPid.Some? ==> xs[i].childGeneration == ys[i].childGeneration
  {
    hide Accepted;
    SameOrder(xs, ys);
    var order := EvidenceOrder(xs);
    OrderCovers(xs, i);
    assert forall a :: 0 <= a < |order| ==> order[a] in order;
    hide EvidenceOrder;
    var a :| 0 <= a < |order| && order[a] == i;
    SameReplayAnnotations(Along(xs, order), Along(ys, order), a);
  }

  lemma SameReplayAnnotations(rx: seq<Event>, ry: seq<Event>, a: nat)
    requires SameObservations(rx, ry) && Accepted(rx) && Accepted(ry) && a < |rx|
    ensures rx[a].taskGeneration == ry[a].taskGeneration
    ensures rx[a].childPid.Some? ==> rx[a].childGeneration == ry[a].childGeneration
  {
    hide Explains;
    hide Linked;
    hide BuildTo;
    hide ReplayTo;
    SameTimeline(rx, ry, Slots(|rx|), |rx|);
    var bx := Explanation(rx);
    var by_ := Explanation(ry);
    assert Noted(bx, rx, a) && Noted(bx, ry, a);
  }

  lemma OrderCovers(events: seq<Event>, i: nat)
    requires i < |events|
    ensures |EvidenceOrder(events)| == |events|
    ensures exists a :: 0 <= a < |events| && EvidenceOrder(events)[a] == i
  {
    assert i in EvidenceOrder(events);
  }

  // ---------- complete evidence is one rooted spawn tree ----------

  /** The two facts the reader demands of a vector claimed complete. */
  predicate CompleteLifetimes(replay: seq<Event>) {
    && Accepted(replay)
    && ReplayTo(replay, |replay|).value.missing == {}
    && !ReplayTo(replay, |replay|).value.uncertain
  }

  /** `id` is the first actor, or was spawned by a lifetime one level closer to it. */
  ghost predicate Descends(replay: seq<Event>, id: TaskIdentity, depth: nat)
    decreases depth
  {
    if depth == 0 then replay != [] && id == Self(replay[0])
    else exists a :: 0 <= a < |replay| && replay[a].childPid.Some? && Child(replay[a]) == id &&
                     Descends(replay, Self(replay[a]), depth - 1)
  }

  ghost predicate Trusted(b: Builder) {
    forall g :: 0 <= g < |b.generations| ==> !Untrusted(b.generations[g])
  }

  lemma TrustedTimeline(replay: seq<Event>) returns (b: Builder)
    requires CompleteLifetimes(replay)
    ensures Explains(b, replay) && Trusted(b)
  {
    hide Explains;
    hide AllNoted;
    hide Final;
    b := Explanation(replay);
  }

  lemma FirstActorIsRoot(b: Builder, replay: seq<Event>)
    requires Explains(b, replay) && Trusted(b) && replay != []
    ensures b.actors[0] == 0
  {
    hide LatestSound;
    hide OrdinalsSound;
    hide Contiguous;
    hide Located;
    hide ExitsLocated;
    hide OrderedNames;
    hide Advancing;
    hide Displacing;
    var g := b.actors[0];
    assert HasIntroducer(b, g);
    var a: nat :| Introduces(b, a, g);
    assert b.spawned[a].Some? ==> b.actors[0] < b.spawned[a].value;
  }

  lemma {:induction false} DescendsFromRoot(b: Builder, replay: seq<Event>, g: nat) returns (depth: nat)
    requires Explains(b, replay) && Trusted(b) && replay != [] && g < |b.generations|
    ensures Descends(replay, NameOf(b.generations[g]), depth)
    decreases g
  {
    hide LatestSound;
    hide OrdinalsSound;
    hide Contiguous;
    hide Located;
    hide ExitsLocated;
    hide OrderedNames;
    hide Chronological;
    if g == 0 {
      FirstActorIsRoot(b, replay);
      depth := 0;
    } else {
      assert HasIntroducer(b, g) && b.generations[g].origin.Spawned?;
      var a: nat :| Introduces(b, a, g);
      var d := DescendsFromRoot(b, replay, b.actors[a]);
      assert Child(replay[a]) == NameOf(b.generations[g]);
      depth := d + 1;
    }
  }

  /** The event at `a` spawned `id`. */
  predicate SpawnedAt(replay: seq<Event>, a: nat, id: TaskIdentity) {
    a < |replay| && replay[a].childPid.Some? && Child(replay[a]) == id
  }

  /** No accepted run spawns one lifetime twice. */
  lemma SpawnedOnce(replay: seq<Event>, a: nat, c: nat, id: TaskIdentity)
    requires Accepted(replay) && SpawnedAt(replay, a, id) && SpawnedAt(replay, c, id)
    ensures a == c
  {
    hide Accepted;
    if a < c { SpawnIntroducesNew(replay, a, c); }
    if c < a { SpawnIntroducesNew(replay, c, a); }
  }

  /** Every introduced lifetime of a complete run descends from the first actor, which no spawn introduced;
      every other lifetime was introduced by exactly one spawn. */
  lemma CompleteRunIsRootedTree(replay: seq<Event>, id: TaskIdentity)
    requires CompleteLifetimes(replay) && id in Introduced(replay)
    ensures replay != [] && Self(replay[0]) !in Spawns(replay)
    ensures id != Self(replay[0]) <==> exists a: nat :: SpawnedAt(replay, a, id)
    ensures forall a: nat, c: nat :: SpawnedAt(replay, a, id) && SpawnedAt(replay, c, id) ==> a == c
    ensures exists depth: nat :: Descends(replay, id, depth)
  {
    hide ReplayTo;
    hide Accepted;
    var b := TrustedTimeline(replay);
    assert replay != [] by { assert Introduced([]) == {}; }
    RootedTree(b, replay, id);
    hide Descends;
    forall a: nat, c: nat | SpawnedAt(replay, a, id) && SpawnedAt(replay, c, id) ensures a == c {
      SpawnedOnce(replay, a, c, id);
    }
    if id in Spawns(replay) {
      var a: nat :| a < |replay| && replay[a].childPid.Some? && Child(replay[a]) == id;
      assert SpawnedAt(replay, a, id);
    }
  }

  lemma RootedTree(b: Builder, replay: seq<Event>, id: TaskIdentity)
    requires Explains(b, replay) && Trusted(b) && replay != [] && id in Introduced(replay)
    ensures Self(replay[0]) !in Spawns(replay)
    ensures id == Self(replay[0]) || id in Spawns(replay)
    ensures exists depth: nat :: Descends(replay, id, depth)
  {
    hide Trusted;
    hide Introduced;
    IntroducedKnown(b, replay, id);
    var g :| 0 <= g < |b.generations| && NameOf(b.generations[g]) == id;
    var depth := DescendsFromRoot(b, replay, g);
    RootNotSpawned(b, replay);
    hide Explains;
    if depth > 0 {
      var a :| 0 <= a < |replay| && replay[a].childPid.Some? && Child(replay[a]) == id &&
               Descends(replay, Self(replay[a]), depth - 1);
      assert id in Spawns(replay);
    }
  }

  lemma RootNotSpawned(b: Builder, replay: seq<Event>)
    requires Explains(b, replay) && replay != []
    ensures Self(replay[0]) !in Spawns(replay)
  {
    forall c | 0 <= c < |replay| && replay[c].childPid.Some?
      ensures Child(replay[c]) != Self(replay[0])
    {
      IntroducingNames(b, replay, 0, c);
    }
  }

  /** In a complete run every introduced lifetime exits, exactly once. */
  lemma CompleteLifetimesExitOnce(replay: seq<Event>, id: TaskIdentity) returns (d: nat)
    requires CompleteLifetimes(replay) && id in Introduced(replay)
    ensures d < |replay| && Exits(replay[d]) && Self(replay[d]) == id
    ensures forall c :: 0 <= c < |replay| && Exits(replay[c]) && Self(replay[c]) == id ==> c == d
  {
    MissingIsIntroducedMinusExited(replay);
    assert id !in Introduced(replay) - Exited(replay);
    d :| 0 <= d < |replay| && Exits(replay[d]) && Self(replay[d]) == id;
    forall c | 0 <= c < |replay| && c != d && Exits(replay[c]) ensures Self(replay[c]) != id {
      if Self(replay[c]).pid == id.pid {
        GenerationsAdvance(replay, if c < d then c else d, if c < d then d else c);
      }
    }
  }

  /** In a complete run no spawn collides with a live lifetime: whatever carried the child's PID
      before the spawn had exited by then. */
  lemma CompleteSpawnsDoNotCollide(replay: seq<Event>, a: nat, c: nat) returns (d: nat)
    requires CompleteLifetimes(replay) && c <= a < |replay|
    requires replay[a].childPid == Some(replay[c].pid)
    ensures d <= a && Exits(replay[d]) && Self(replay[d]) == Self(replay[c])
  {
    assert Self(replay[c]) in Introduced(replay);
    d := CompleteLifetimesExitOnce(replay, Self(replay[c]));
    SpawnIntroducesNew(replay, c, a);
    if a < d { DisplacedStaysSilent(replay, a, d); }
  }

  /** The same for a lifetime of that PID that an earlier spawn introduced, even if it never acted before. */
  lemma CompleteSpawnsDoNotReplace(replay: seq<Event>, a: nat, c: nat) returns (d: nat)
    requires CompleteLifetimes(replay) && c < a < |replay|
    requires replay[c].childPid.Some? && replay[a].childPid == replay[c].childPid
    ensures d <= a && Exits(replay[d]) && Self(replay[d]) == Child(replay[c])
  {
    assert Child(replay[c]) in Introduced(replay);
    d := CompleteLifetimesExitOnce(replay, Child(replay[c]));
    SpawnIntroducesNew(replay, c, a);
    if a < d { DisplacedStaysSilent(replay, a, d); }
  }

  /** A lifetime that acted at `c`, or that the event there spawned. */
  predicate CarriedAt(replay: seq<Event>, c: nat, id: TaskIdentity) {
    c < |replay| && (Self(replay[c]) == id || SpawnedAt(replay, c, id))
  }

  /** Whatever carried the child's PID before a spawn of a complete run, acting or only introduced, had exited
      by the spawn. */
  lemma CompleteSpawnsAreFree(replay: seq<Event>, a: nat, c: nat, id: TaskIdentity) returns (d: nat)
    requires CompleteLifetimes(replay) && a < |replay| && replay[a].childPid == Some(id.pid)
    requires CarriedAt(replay, c, id) && (c < a || (c == a && Self(replay[c]) == id))
    ensures d <= a && Exits(replay[d]) && Self(replay[d]) == id
  {
    if Self(replay[c]) == id {
      d := CompleteSpawnsDoNotCollide(replay, a, c);
    } else {
      d := CompleteSpawnsDoNotReplace(replay, a, c);
    }
  }
}
