/** Stored records and the pure contracts a reader checks on them.

    Only the failure kind of a violated contract is kept; message wording is not modelled.
 */
module Records {
  import opened Ordered
  import opened Text
  import opened Spelling

  const RAW_FILE := "raw/trace.log"
  const SELECTION_RULE := "first_successful_exec_evidence_order_v1"
  const IDENTITY_CONTRACT := "task_generations_evidence_order_v1"
  const TRACE_CONTRACT := "trace-v1"
  const COMPLETE := "complete_for_supported_events"

  datatype FailureKind = Corrupt | Unsupported | Unavailable | Busy

  datatype Check = Pass | Fail(kind: FailureKind) {
    predicate IsFailure() { Fail? }
    function PropagateFailure(): Check
      requires Fail?
    { this }
  }

  function Need(ok: bool): Check { if ok then Pass else Fail(Corrupt) }

  function NeedKnown(ok: bool): Check { if ok then Pass else Fail(Unsupported) }

  datatype Evidence = Evidence(file: string, line: nat, endLine: nat)

  datatype Event = Event(
    schemaVersion: nat, pid: string, kind: string, operation: string, path: Option<string>,
    outcome: string, evidence: Evidence, argv: Option<seq<string>>, childPid: Option<string>,
    cwdBefore: Option<string>, contextUncertain: bool,
    taskGeneration: Option<nat>, childGeneration: Option<nat>)

  datatype TaskIdentity = TaskIdentity(pid: string, generation: nat)

  datatype EventReference = EventReference(index: nat, evidence: Evidence)

  datatype TargetProvenance = TargetProvenance(
    schemaVersion: nat, selectionRule: string, identityContract: string,
    root: TaskIdentity, rootExec: EventReference, targetExit: EventReference)

  datatype Metadata = Metadata(
    schemaVersion: nat, toolVersion: string, id: string, name: string, command: seq<string>,
    cwd: string, started: nat, ended: Option<nat>, backend: string, state: string,
    exitCode: Option<int>, signal: Option<int>, warnings: seq<string>, parsedEvents: nat,
    rawLines: nat, environment: Option<map<string, Option<string>>>, completeness: Option<string>,
    collectorExitCode: Option<int>, collectorSignal: Option<int>, targetExitRaw: Option<string>,
    evidenceContract: Option<string>, targetProvenance: Option<TargetProvenance>)

  datatype RawReceipt =
    | Parsed(bytes: nat, logicalLines: nat, sha256: string)
    | Unverified(reason: string)

  datatype RawManifest = RawManifest(schemaVersion: nat, runId: string, file: string, receipt: RawReceipt)

  datatype RawIntegrity = RawIntegrity(status: string, manifest: Option<RawManifest>)

  datatype Run = Run(metadata: Metadata, events: seq<Event>, storage: string, raw: Option<RawIntegrity>)

  // ---------- single-event shape ----------

  predicate FamilyMatches(kind: string, operation: string) {
    || (kind == "file" && (operation == "open" || operation == "openat" || operation == "openat2" ||
                           operation == "access" || operation == "faccessat" || operation == "faccessat2"))
    || (kind == "exec" && (operation == "execve" || operation == "execveat"))
    || (kind == "cwd" && (operation == "chdir" || operation == "fchdir"))
    || (kind == "spawn" && (operation == "clone" || operation == "clone3" || operation == "fork" ||
                            operation == "vfork"))
    || (kind == "context" && (operation == "unshare" || operation == "setns" || operation == "chroot" ||
                              operation == "pivot_root" || operation == "mount" || operation == "umount2" ||
                              operation == "move_mount" || operation == "mount_setattr"))
    || (kind == "exit" && operation == "exit")
  }

  predicate PathKind(kind: string) { kind == "file" || kind == "exec" || kind == "cwd" }

  predicate Absolute(path: Option<string>) { path.Some? && "/" <= path.value }

  predicate GenerationShape(e: Event) {
    if e.schemaVersion == 2 then e.taskGeneration.None? && e.childGeneration.None?
    else
      && e.schemaVersion == 3
      && e.taskGeneration.Some? && e.taskGeneration.value > 0
      && (e.childGeneration.Some? ==> e.childGeneration.value > 0)
      && e.childPid.Some? == e.childGeneration.Some?
  }

  predicate PathShape(e: Event) {
    match e.path
    case Some(path) => "/" <= path || ("relative:" <= path && e.contextUncertain)
    case None => e.kind == "cwd" && e.contextUncertain
  }

  predicate EvidenceOrdered(v: Evidence) { 0 < v.line <= v.endLine }

  predicate FamilyShape(e: Event) {
    if PathKind(e.kind) then PathShape(e)
    else if e.kind == "spawn" then
      if e.outcome == "success"
      then e.childPid.Some? && e.path == e.childPid && IsTaskId(e.childPid.value)
      else e.childPid.None?
    else e.path.None?
  }

  /** Shape of one current event, versions 2 and 3. */
  predicate CurrentShape(e: Event) {
    && GenerationShape(e)
    && IsTaskId(e.pid)
    && e.operation != "" && e.outcome != ""
    && (e.schemaVersion == 3 && e.kind == "exit" ==> TraceV1Fields(e.outcome).Some?)
    && FamilyMatches(e.kind, e.operation)
    && e.evidence.file == RAW_FILE && EvidenceOrdered(e.evidence)
    && (e.argv.Some? ==> e.kind == "exec")
    && (e.childPid.Some? ==> e.kind == "spawn")
    && FamilyShape(e)
  }

  predicate ArgvMissing(e: Event) { e.kind == "exec" && e.argv.None? }

  predicate PathIncomplete(e: Event) { PathKind(e.kind) && !Absolute(e.path) }

  // ---------- metadata ----------

  function ValidateEnvelope(m: Metadata): Check {
    if m.targetProvenance.None? then Pass else
    var p := m.targetProvenance.value;
    :- NeedKnown(p.schemaVersion == 1 && p.selectionRule == SELECTION_RULE &&
                 p.identityContract == IDENTITY_CONTRACT);
    :- Need(p.root.generation != 0 && IsTaskId(p.root.pid));
    :- Need(ReferenceBounds(m, p.rootExec) && ReferenceBounds(m, p.targetExit));
    :- Need(p.rootExec.index != p.targetExit.index && ReferenceBefore(p.rootExec, p.targetExit));
    Pass
  }

  predicate ReferenceBounds(m: Metadata, r: EventReference) {
    && r.index < m.parsedEvents && r.evidence.file == RAW_FILE
    && EvidenceOrdered(r.evidence) && r.evidence.endLine <= m.rawLines
  }

  predicate CoordinatesBefore(a: Evidence, i: nat, b: Evidence, j: nat) {
    a.line < b.line || (a.line == b.line && (a.endLine < b.endLine || (a.endLine == b.endLine && i < j)))
  }

  predicate ReferenceBefore(a: EventReference, b: EventReference) {
    CoordinatesBefore(a.evidence, a.index, b.evidence, b.index)
  }

  predicate CodeInRange(code: Option<int>) { code.Some? ==> 0 <= code.value <= 255 }

  predicate SignalInRange(signal: Option<int>) { signal.Some? ==> 1 <= signal.value <= 64 }

  predicate EnvironmentKey(key: string) {
    key != "" && forall c :: c in key ==> c != '=' && !IsControl(c)
  }

  /** Identity fields fixed when recording starts. */
  predicate IdentityFields(m: Metadata) {
    && ValidRecordId(m.id)
    && m.name != "" && (forall c :: c in m.name ==> !IsControl(c))
    && m.command != []
    && m.toolVersion != "" && m.cwd != "" && m.backend != ""
    && m.environment.Some? && forall key :: key in m.environment.value ==> EnvironmentKey(key)
  }

  predicate KnownState(s: string) { s in ["running", "completed", "capture_failed", "interrupted"] }

  predicate KnownCompleteness(c: Option<string>) {
    c.Some? && c.value in ["pending", COMPLETE, "partial", "incomplete"]
  }

  predicate NothingFinalized(m: Metadata) {
    && m.ended.None? && m.exitCode.None? && m.signal.None? && m.collectorExitCode.None?
    && m.collectorSignal.None? && m.targetExitRaw.None? && m.warnings == []
    && m.parsedEvents == 0 && m.rawLines == 0
  }

  predicate StateFacts(m: Metadata)
    requires m.completeness.Some?
  {
    var completeness := m.completeness.value;
    if m.state == "running" then completeness == "pending" && NothingFinalized(m)
    else if m.state == "completed" then
      && completeness in [COMPLETE, "partial"]
      && m.ended.Some?
      && (completeness == "partial" ==> m.warnings != [])
      && m.targetExitRaw.Some?
      && (m.collectorExitCode.Some? || m.collectorSignal.Some?)
    else
      && completeness == "incomplete"
      && m.ended.Some?
      && (m.state == "capture_failed" ==> m.warnings != [])
  }

  predicate CollectorConfirms(m: Metadata) {
    || (m.exitCode.Some? && m.signal.None? && m.collectorExitCode == m.exitCode && m.collectorSignal.None?)
    || (m.exitCode.None? && m.signal.Some? && m.collectorSignal == m.signal && m.collectorExitCode.None?)
  }

  function ValidateTraceClaims(m: Metadata): Check {
    if m.schemaVersion == 4 then
      :- Need(m.evidenceContract == Some(TRACE_CONTRACT));
      :- Need(m.targetExitRaw.Some? == m.targetProvenance.Some?);
      :- Need(m.targetExitRaw.Some? ==> TraceV1Fields(m.targetExitRaw.value) == Some(Fields(m.exitCode, m.signal)));
      ValidateEnvelope(m)
    else Need(m.evidenceContract.None? && m.targetProvenance.None?)
  }

  function ValidateMetadata(m: Metadata): Check {
    var claims := ValidateTraceClaims(m);
    if claims.Fail? then claims else
    :- Need(m.exitCode.None? || m.signal.None?);
    :- Need(m.collectorExitCode.None? || m.collectorSignal.None?);
    if m.schemaVersion < 3 then Pass else
    :- Need(CodeInRange(m.exitCode) && SignalInRange(m.signal));
    :- Need(CodeInRange(m.collectorExitCode) && SignalInRange(m.collectorSignal));
    :- Need(IdentityFields(m));
    :- Need(KnownState(m.state) && KnownCompleteness(m.completeness));
    :- Need(StateFacts(m));
    :- Need(m.completeness == Some(COMPLETE) ==> m.warnings == []);
    :- Need(m.exitCode.Some? || m.signal.Some? ==> m.targetExitRaw.Some?);
    :- Need(m.completeness == Some(COMPLETE) || (m.state == "completed" && (m.exitCode.Some? || m.signal.Some?))
            ==> CollectorConfirms(m));
    Pass
  }

  // ---------- event summary ----------

  predicate KnownEventSchema(e: Event) { 1 <= e.schemaVersion <= 3 }

  datatype Facts = Facts(
    count: nat, hasNonV2: bool, hasNonV3: bool, hasV3: bool, invalidOrder: bool, maxEndLine: nat,
    contextUncertain: bool, invalidShape: bool, argvMissing: bool, incomplete: bool, unsupported: Option<nat>)

  function Extended(f: Facts, e: Event): Facts {
    Facts(
      f.count + 1,
      f.hasNonV2 || e.schemaVersion != 2,
      f.hasNonV3 || e.schemaVersion != 3,
      f.hasV3 || e.schemaVersion == 3,
      f.invalidOrder || !EvidenceOrdered(e.evidence),
      if f.maxEndLine < e.evidence.endLine then e.evidence.endLine else f.maxEndLine,
      f.contextUncertain || e.contextUncertain,
      f.invalidShape || !CurrentShape(e),
      f.argvMissing || ArgvMissing(e),
      f.incomplete || f.argvMissing || ArgvMissing(e) || PathIncomplete(e),
      if f.unsupported.None? && !KnownEventSchema(e) then Some(e.schemaVersion) else f.unsupported)
  }

  function FactsOf(events: seq<Event>): Facts {
    if events == [] then Facts(0, false, false, false, false, 0, false, false, false, false, None)
    else Extended(FactsOf(events[..|events| - 1]), events[|events| - 1])
  }

  /** What each latched field means for the whole vector, in any order of observation. */
  lemma {:induction false} VersionFactsMeaning(events: seq<Event>, limit: nat)
    ensures var f := FactsOf(events);
            && f.count == |events|
            && (f.hasNonV2 <==> exists e :: e in events && e.schemaVersion != 2)
            && (f.hasNonV3 <==> exists e :: e in events && e.schemaVersion != 3)
            && (f.hasV3 <==> exists e :: e in events && e.schemaVersion == 3)
            && (f.maxEndLine <= limit <==> forall e :: e in events ==> e.evidence.endLine <= limit)
  {
    if events != [] {
      var front, last := events[..|events| - 1], events[|events| - 1];
      VersionFactsMeaning(front, limit);
      assert events == front + [last];
      assert forall e :: e in events <==> e in front || e == last;
    }
  }

  lemma {:induction false} ShapeFactsMeaning(events: seq<Event>)
    ensures var f := FactsOf(events);
            && (f.invalidOrder <==> exists e :: e in events && !EvidenceOrdered(e.evidence))
            && (f.contextUncertain <==> exists e :: e in events && e.contextUncertain)
            && (f.invalidShape <==> exists e :: e in events && !CurrentShape(e))
            && (f.argvMissing <==> exists e :: e in events && ArgvMissing(e))
            && (f.incomplete <==> exists e :: e in events && (ArgvMissing(e) || PathIncomplete(e)))
  {
    if events != [] {
      var front, last := events[..|events| - 1], events[|events| - 1];
      ShapeFactsMeaning(front);
      assert events == front + [last];
      assert forall e :: e in events <==> e in front || e == last;
    }
  }

  /** The latched schema number is the first event's outside the readable vocabulary. */
  lemma {:induction false} FirstUnsupportedMeaning(events: seq<Event>)
    ensures match FactsOf(events).unsupported
            case None => forall i :: 0 <= i < |events| ==> KnownEventSchema(events[i])
            case Some(n) => exists i :: 0 <= i < |events| && events[i].schemaVersion == n &&
                              !KnownEventSchema(events[i]) && forall j :: 0 <= j < i ==> KnownEventSchema(events[j])
  {
    hide CurrentShape;
    if events != [] {
      var front := events[..|events| - 1];
      FirstUnsupportedMeaning(front);
      assert forall i :: 0 <= i < |front| ==> events[i] == front[i];
    }
  }

  lemma AppendFacts(events: seq<Event>, e: Event)
    ensures FactsOf(events + [e]) == Extended(FactsOf(events), e)
  {
    assert (events + [e])[..|events|] == events;
  }

  /** The streaming summary: every field is latched one event at a time. */
  class EventFacts {
    var count: nat
    var hasNonV2: bool
    var hasNonV3: bool
    var hasV3: bool
    var invalidOrder: bool
    var maxEndLine: nat
    var contextUncertain: bool
    var invalidShape: bool
    var argvMissing: bool
    var incomplete: bool
    var unsupported: Option<nat>

    constructor ()
      ensures Summary() == FactsOf([])
    {
      count, maxEndLine := 0, 0;
      hasNonV2, hasNonV3, hasV3, invalidOrder := false, false, false, false;
      contextUncertain, invalidShape, argvMissing, incomplete := false, false, false, false;
      unsupported := None;
    }

    function Summary(): Facts
      reads this
    {
      Facts(count, hasNonV2, hasNonV3, hasV3, invalidOrder, maxEndLine, contextUncertain, invalidShape,
            argvMissing, incomplete, unsupported)
    }

    method Observe(e: Event)
      modifies this
      ensures Summary() == Extended(old(Summary()), e)
    {
      hide CurrentShape;
      hide ArgvMissing;
      hide PathIncomplete;
      hide EvidenceOrdered;
      ObserveCoordinates(e);
      ObserveObservation(e);
    }

    /** Schema versions and evidence coordinates. */
    method ObserveCoordinates(e: Event)
      modifies `count, `unsupported, `hasNonV2, `hasNonV3, `hasV3, `invalidOrder, `maxEndLine
      ensures count == old(count) + 1
      ensures unsupported == if old(unsupported).None? && !KnownEventSchema(e) then Some(e.schemaVersion) else old(unsupported)
      ensures hasNonV2 == (old(hasNonV2) || e.schemaVersion != 2)
      ensures hasNonV3 == (old(hasNonV3) || e.schemaVersion != 3)
      ensures hasV3 == (old(hasV3) || e.schemaVersion == 3)
      ensures invalidOrder == (old(invalidOrder) || !EvidenceOrdered(e.evidence))
      ensures maxEndLine == if old(maxEndLine) < e.evidence.endLine then e.evidence.endLine else old(maxEndLine)
    {
      count := count + 1;
      if !KnownEventSchema(e) && unsupported.None? { unsupported := Some(e.schemaVersion); }
      if e.schemaVersion != 2 { hasNonV2 := true; }
      if e.schemaVersion != 3 { hasNonV3 := true; }
      if e.schemaVersion == 3 { hasV3 := true; }
      if !EvidenceOrdered(e.evidence) { invalidOrder := true; }
      if maxEndLine < e.evidence.endLine { maxEndLine := e.evidence.endLine; }
    }

    /** Shape and missing observations; a missing argv also makes the record incomplete. */
    method ObserveObservation(e: Event)
      modifies `contextUncertain, `invalidShape, `argvMissing, `incomplete
      ensures contextUncertain == (old(contextUncertain) || e.contextUncertain)
      ensures invalidShape == (old(invalidShape) || !CurrentShape(e))
      ensures argvMissing == (old(argvMissing) || ArgvMissing(e))
      ensures incomplete == (old(incomplete) || old(argvMissing) || ArgvMissing(e) || PathIncomplete(e))
    {
      hide CurrentShape;
      hide ArgvMissing;
      hide PathIncomplete;
      if e.contextUncertain { contextUncertain := true; }
      if !CurrentShape(e) { invalidShape := true; }
      if ArgvMissing(e) { argvMissing := true; }
      if argvMissing || PathIncomplete(e) { incomplete := true; }
    }
  }

  /** Summarize a vector. */
  method FromEvents(events: seq<Event>) returns (facts: Facts)
    ensures facts == FactsOf(events)
  {
    var summary := new EventFacts();
    var i := 0;
    while i < |events|
      invariant 0 <= i <= |events| && summary.Summary() == FactsOf(events[..i])
    {
      summary.Observe(events[i]);
      AppendFacts(events[..i], events[i]);
      i := i + 1;
      assert events[..i] == events[..i - 1] + [events[i - 1]];
    }
    assert events[..i] == events;
    facts := summary.Summary();
  }

  /** The aggregate contract shared by writer, reader and comparison. */
  function ValidateFacts(m: Metadata, f: Facts, finalized: bool): Check {
    var checked := ValidateMetadata(m);
    if checked.Fail? then checked else
    :- Need(m.schemaVersion >= 3 && finalized ==> m.state != "running");
    :- Need(m.schemaVersion == 3 ==> !f.hasNonV2);
    :- Need(!(m.schemaVersion == 4 && f.hasNonV3) && !(m.schemaVersion < 3 && f.hasV3));
    :- Need(m.parsedEvents == f.count);
    :- Need(!f.invalidOrder && f.maxEndLine <= m.rawLines);
    if m.schemaVersion < 3 then Pass else
    :- Need(!f.invalidShape);
    :- Need(m.completeness == Some(COMPLETE) ==> !f.contextUncertain && !f.argvMissing && !f.incomplete);
    Pass
  }

  // ---------- raw receipts ----------

  function ValidateManifest(manifest: RawManifest, m: Metadata): Check {
    if manifest.schemaVersion != 1 then Fail(Unsupported) else
    :- Need(m.schemaVersion == 4 && manifest.runId == m.id && manifest.file == RAW_FILE);
    match manifest.receipt
    case Parsed(bytes, lines, sha256) =>
      :- Need(|sha256| == 64 && forall c :: c in sha256 ==> IsDigit(c) || 'a' <= c <= 'f');
      Need(lines == m.rawLines && ((bytes == 0) == (lines == 0)) && lines <= bytes)
    case Unverified(reason) =>
      Need(reason != "" && m.targetProvenance.None? && m.parsedEvents == 0 && m.rawLines == 0 &&
           m.completeness == Some("incomplete"))
  }

  function ValidateRawFacts(run: Run): Check {
    if run.metadata.schemaVersion == 4 then
      :- Need(run.raw.Some?);
      var raw := run.raw.value;
      :- Need(raw.status in ["verified", "unverified", "corrupt", "unavailable"]);
      :- (if raw.manifest.Some? then ValidateManifest(raw.manifest.value, run.metadata) else Pass);
      Need(RawConsistent(run, raw))
    else Need(run.raw.None?)
  }

  predicate RawConsistent(run: Run, raw: RawIntegrity) {
    if run.storage == "unfinalized" then
      raw.status == "unverified" && raw.manifest.None? && run.events == []
    else
      && run.storage == "verified" && raw.manifest.Some?
      && match raw.manifest.value.receipt
         case Parsed(_, _, _) => raw.status in ["verified", "corrupt", "unavailable"]
         case Unverified(_) => raw.status == "unverified"
  }
}
