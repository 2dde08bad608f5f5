/** Exactly which of the recorder's conclusions its own reader accepts. */
module WriterReader {
  import opened Ordered
  import opened Text
  import opened Spelling
  import opened Records
  import opened TraceRows
  import opened Timeline
  import opened Lifetimes
  import opened Replay
  import opened Agreement
  import opened LifetimeLaws
  import opened Provenance
  import opened Findings
  import opened Reduction

  // ---------- the parser's promises ----------

  /** Path context resolution may only raise uncertainty and fill the observed directory. A quiet pass,
      one that warned of nothing over a timeline without identity findings, found nothing incomplete. */
  ghost predicate ContextResolved(before: seq<Event>, after: seq<Event>, quiet: bool) {
    && |after| == |before|
    && forall i :: 0 <= i < |before| ==> EventResolved(before[i], after[i], quiet)
  }

  predicate EventResolved(before: Event, after: Event, quiet: bool) {
    && after == before.(contextUncertain := after.contextUncertain, cwdBefore := after.cwdBefore)
    && (before.contextUncertain ==> after.contextUncertain)
    && (quiet ==> after.contextUncertain == before.contextUncertain && !ArgvMissing(after) && !PathIncomplete(after))
  }

  /** One successful parse: raw rows, identity marks, resolved rows and all warnings. */
  ghost predicate ParsedTrace(raw: seq<Event>, marked: seq<Event>, resolved: seq<Event>, t: Builder, order: seq<nat>,
                              warnings: seq<string>, lines: nat) {
    && order == EvidenceOrder(raw) && Fits(t, raw, order) && t == BuildTo(Along(raw, order), order, |order|)
    && (forall i :: 0 <= i < |raw| ==> !raw[i].contextUncertain)
    && Identified(raw, marked, t, order)
    && (forall i :: 0 <= i < |resolved| ==> Normalized(resolved[i], lines))
    && exists added :: WarnedBy(t, warnings, added) && ContextResolved(marked, resolved, Quiet(t, added))
  }

  ghost predicate Quiet(t: Builder, added: seq<string>) { added == [] && !SomeUntrusted(t) }

  /** Warnings in order: line syntax, one for each untrusted lifetime, path context. */
  ghost predicate WarnedBy(t: Builder, warnings: seq<string>, added: seq<string>) {
    exists syntax, identity ::
      warnings == syntax + identity + added && |identity| == UntrustedCount(t.generations)
  }

  lemma SilentParts(t: Builder, added: seq<string>)
    requires WarnedBy(t, [], added)
    ensures added == [] && !SomeUntrusted(t)
  {
    NoneUntrusted(t.generations);
    var syntax, identity :| [] == syntax + identity + added && |identity| == UntrustedCount(t.generations);
    assert |syntax + identity + added| == |syntax| + |identity| + |added|;
  }

  // ---------- annotations ----------

  lemma BoundObservations(raw: seq<Event>, marked: seq<Event>, resolved: seq<Event>, bound: seq<Event>,
                          t: Builder, order: seq<nat>, quiet: bool)
    requires Fits(t, raw, order) && Identified(raw, marked, t, order) && ContextResolved(marked, resolved, quiet)
    requires Fits(t, resolved, order) && Bound(resolved, bound, t, order)
    requires forall i: nat :: i in order <==> i < |raw|
    ensures SameObservations(raw, bound)
  {
    forall i | 0 <= i < |raw| ensures SameObservation(raw[i], bound[i]) {
      assert i in order;
      var a :| 0 <= a < |order| && order[a] == i;
      assert RaisedAt(raw[i], marked[i], ActsUntrusted(t, order, |order|, i) || ExposesUntrusted(t, |t.generations|, i));
      assert EventResolved(marked[i], resolved[i], quiet);
      assert bound[order[a]] == BoundEvent(resolved[order[a]], t, a);
    }
  }

  lemma BoundNoted(raw: seq<Event>, marked: seq<Event>, resolved: seq<Event>, bound: seq<Event>,
                   t: Builder, order: seq<nat>, quiet: bool, a: nat)
    requires Fits(t, raw, order) && Identified(raw, marked, t, order) && ContextResolved(marked, resolved, quiet)
    requires Fits(t, resolved, order) && Bound(resolved, bound, t, order) && a < |order|
    requires SpawnEvents(t, order, |order|) && Located(t, Along(raw, order), |order|) && Visits(bound, order)
    ensures Noted(t, Along(bound, order), a)
  {
    var i := order[a];
    assert RaisedAt(raw[i], marked[i], ActsUntrusted(t, order, |order|, i) || ExposesUntrusted(t, |t.generations|, i));
    assert EventResolved(marked[i], resolved[i], quiet);
    assert bound[i] == BoundEvent(resolved[i], t, a);
    if Untrusted(t.generations[t.actors[a]]) { assert ActsUntrusted(t, order, |order|, i); }
    if t.spawned[a].Some? {
      var h := t.spawned[a].value;
      assert t.generations[h].event == i;
      if Untrusted(t.generations[h]) { assert ExposesUntrusted(t, |t.generations|, i); }
    }
  }

  /** Binding the parser's timeline gives annotations the reader accepts. */
  lemma BoundIsAnnotated(raw: seq<Event>, marked: seq<Event>, resolved: seq<Event>, bound: seq<Event>,
                         t: Builder, order: seq<nat>, quiet: bool)
    requires order == EvidenceOrder(raw) && t == BuildTo(Along(raw, order), order, |order|)
    requires Fits(t, raw, order) && Identified(raw, marked, t, order) && ContextResolved(marked, resolved, quiet)
    requires Fits(t, resolved, order) && Bound(resolved, bound, t, order)
    ensures Annotated(bound) && EvidenceOrder(bound) == order && TimelineOf(bound) == t
  {
    hide EvidenceOrder;
    hide Noted;
    hide BuildTo;
    hide Located;
    hide SpawnEvents;
    BoundObservations(raw, marked, resolved, bound, t, order, quiet);
    hide Identified;
    hide ContextResolved;
    hide Bound;
    SameOrder(raw, bound);
    assert |bound| == |raw| && Visits(bound, order);
    var same := TimelineFits(raw, order);
    assert SameObservations(Along(raw, order), Along(bound, order));
    SameTimeline(Along(raw, order), Along(bound, order), order, |order|);
    forall a | 0 <= a < |order| ensures Noted(t, Along(bound, order), a) {
      BoundNoted(raw, marked, resolved, bound, t, order, quiet, a);
    }
  }

  // ---------- the written record ----------

  /** Metadata as it stands when recording starts. */
  predicate Started(m: Metadata, contract: Contract) {
    && m.schemaVersion == (if contract.TraceV1? then 4 else 3)
    && m.evidenceContract == (if contract.TraceV1? then Some(TRACE_CONTRACT) else None)
    && m.targetProvenance.None? && m.state == "running" && m.completeness == Some("pending")
    && NothingFinalized(m) && IdentityFields(m)
  }

  /** The initial record is readable before anything was observed. */
  lemma StartedIsReadable(m: Metadata, contract: Contract)
    requires Started(m, contract)
    ensures ValidateMetadata(m) == Pass
  {
    hide IdentityFields;
  }

  /** Facts observed outside the trace. */
  datatype Observations = Observations(
    collector: CollectorFacts, recorder: RecorderStop, limits: Limits,
    supervisionError: Option<string>, warnings: seq<string>, readError: Option<string>)

  function InputOf(c: Completion, events: seq<Event>, contract: Contract, o: Observations): Input
    requires c.rootExit.Some? ==> c.rootExit.value < |events|
  {
    Input(match c.rootExit case Some(i) => Some(DecodeTarget(events[i].outcome, contract)) case None => None,
          c.missingExits, o.collector, o.recorder, o.limits, o.supervisionError, o.warnings, o.readError)
  }

  function Finalized(m: Metadata, count: nat, lines: nat, ended: nat, d: Decision,
                     provenance: Option<TargetProvenance>): Metadata
  {
    ApplyToMetadata(d, m.(rawLines := lines, parsedEvents := count, ended := Some(ended)))
    .(targetProvenance := provenance)
  }

  /** What decoding promises about an admitted completion row. */
  predicate TargetReadable(target: Option<Target>, contract: Contract) {
    target.Some? ==>
      && InRange(target.value.outcome)
      && (target.value.outcome.Unknown? ==> KILLED <= target.value.raw)
      && (contract.TraceV1? ==> TraceV1Fields(target.value.raw) == Some(MetadataFields(target.value.outcome)))
  }

  lemma DecodedIsReadable(raw: string, contract: Contract)
    requires ParserAccepts(raw) && (contract.TraceV1? ==> SavedSpelling(raw))
    ensures TargetReadable(Some(DecodeTarget(raw, contract)), contract)
  {
    hide ParserAccepts;
    hide SavedSpelling;
    hide TraceV1Fields;
    hide LegacyExit;
    hide TraceV1Exit;
    ParserAgainstContract(raw);
    if contract.TraceV1? { TraceExitReadable(raw); } else { LegacyOutcomeRange(raw); }
  }

  lemma TraceExitReadable(raw: string)
    requires TraceV1Fields(raw).Some?
    ensures InRange(TraceV1Exit(raw)) && (TraceV1Exit(raw).Unknown? ==> KILLED <= raw)
    ensures TraceV1Fields(raw) == Some(MetadataFields(TraceV1Exit(raw)))
  {
    hide TraceV1Fields;
  }

  lemma OutcomeFieldsAccepted(m0: Metadata, contract: Contract, input: Input, m: Metadata)
    requires CollectorInRange(input.collector) && TargetReadable(input.target, contract)
    requires m == ApplyToMetadata(Reduce(input), m0)
    ensures m.exitCode.None? || m.signal.None?
    ensures m.collectorExitCode.None? || m.collectorSignal.None?
    ensures CodeInRange(m.exitCode) && SignalInRange(m.signal)
    ensures CodeInRange(m.collectorExitCode) && SignalInRange(m.collectorSignal)
    ensures m.exitCode.Some? || m.signal.Some? ==> m.targetExitRaw.Some?
    ensures m.targetExitRaw.Some? == input.target.Some?
    ensures contract.TraceV1? && m.targetExitRaw.Some? ==>
              TraceV1Fields(m.targetExitRaw.value) == Some(Fields(m.exitCode, m.signal))
  {
    hide ReducedWarnings;
    hide TraceV1Fields;
    hide CliExit;
  }

  lemma StateAccepted(m0: Metadata, contract: Contract, input: Input, m: Metadata)
    requires TargetReadable(input.target, contract) && m0.ended.Some?
    requires m == ApplyToMetadata(Reduce(input), m0)
    ensures KnownState(m.state) && KnownCompleteness(m.completeness) && m.state != "running"
    ensures StateFacts(m)
    ensures m.completeness == Some(COMPLETE) <==> Reduce(input).completeness.CompleteForSupported?
    ensures m.completeness == Some(COMPLETE) ==> m.warnings == []
    ensures m.completeness == Some(COMPLETE) || (m.state == "completed" && (m.exitCode.Some? || m.signal.Some?))
            ==> CollectorConfirms(m)
    ensures m.warnings == ReducedWarnings(input)
  {
    DecisionMeaning(input);
    hide Confirmation;
    hide ReducedWarnings;
    hide CliExit;
    hide TraceV1Fields;
    var d := Reduce(input);
    assert d.completeness == CompleteForSupported ==> d.warnings == [];
    hide Reduce;
  }

  /** The outcome-independent half of the metadata contract survives finalization. */
  lemma IdentityAccepted(m0: Metadata, contract: Contract, input: Input, count: nat, lines: nat, ended: nat,
                         provenance: Option<TargetProvenance>, m: Metadata)
    requires Started(m0, contract)
    requires m == Finalized(m0, count, lines, ended, Reduce(input), provenance)
    ensures IdentityFields(m) && m.schemaVersion == m0.schemaVersion && m.evidenceContract == m0.evidenceContract
    ensures m.targetProvenance == provenance && m.ended.Some?
  {
    hide Reduce;
    hide EnvironmentKey;
    hide ValidRecordId;
  }

  predicate OutcomeAccepted(m: Metadata) {
    && (m.exitCode.None? || m.signal.None?) && (m.collectorExitCode.None? || m.collectorSignal.None?)
    && CodeInRange(m.exitCode) && SignalInRange(m.signal)
    && CodeInRange(m.collectorExitCode) && SignalInRange(m.collectorSignal)
    && (m.exitCode.Some? || m.signal.Some? ==> m.targetExitRaw.Some?)
  }

  predicate StateConsistent(m: Metadata) {
    && KnownState(m.state) && KnownCompleteness(m.completeness) && StateFacts(m)
    && (m.completeness == Some(COMPLETE) ==> m.warnings == [])
    && (m.completeness == Some(COMPLETE) || (m.state == "completed" && (m.exitCode.Some? || m.signal.Some?))
        ==> CollectorConfirms(m))
  }

  lemma ChecksPass(m: Metadata)
    requires m.schemaVersion >= 3 && IdentityFields(m) && OutcomeAccepted(m) && StateConsistent(m)
    requires ValidateTraceClaims(m) == Pass
    ensures ValidateMetadata(m) == Pass
  {
    hide ValidateTraceClaims;
    hide IdentityFields;
    hide StateFacts;
    hide CollectorConfirms;
    hide KnownState;
    hide KnownCompleteness;
  }

  lemma ClaimsPass(m: Metadata, contract: Contract)
    requires m.schemaVersion == (if contract.TraceV1? then 4 else 3)
    requires m.evidenceContract == (if contract.TraceV1? then Some(TRACE_CONTRACT) else None)
    requires if contract.TraceV1? then m.targetProvenance.Some? == m.targetExitRaw.Some? else m.targetProvenance.None?
    requires contract.TraceV1? && m.targetExitRaw.Some? ==>
               TraceV1Fields(m.targetExitRaw.value) == Some(Fields(m.exitCode, m.signal))
    requires ValidateEnvelope(m) == Pass
    ensures ValidateTraceClaims(m) == Pass
  {
    hide ValidateEnvelope;
    hide TraceV1Fields;
  }

  lemma OutcomeChecks(m0: Metadata, contract: Contract, input: Input, m: Metadata, provenance: Option<TargetProvenance>)
    requires CollectorInRange(input.collector) && TargetReadable(input.target, contract) && m0.ended.Some?
    requires m == ApplyToMetadata(Reduce(input), m0).(targetProvenance := provenance)
    ensures OutcomeAccepted(m) && StateConsistent(m)
    ensures m.targetExitRaw.Some? == input.target.Some?
    ensures contract.TraceV1? && m.targetExitRaw.Some? ==>
              TraceV1Fields(m.targetExitRaw.value) == Some(Fields(m.exitCode, m.signal))
    ensures m.state != "running" && m.warnings == ReducedWarnings(input)
    ensures m.completeness == Some(COMPLETE) <==> Reduce(input).completeness.CompleteForSupported?
  {
    hide Reduce;
    hide ApplyToMetadata;
    hide TargetReadable;
    hide TraceV1Fields;
    hide ReducedWarnings;
    hide KnownState;
    hide KnownCompleteness;
    hide StateFacts;
    hide CollectorConfirms;
    var applied := ApplyToMetadata(Reduce(input), m0);
    OutcomeFieldsAccepted(m0, contract, input, applied);
    StateAccepted(m0, contract, input, applied);
    assert OutcomeAccepted(applied) && StateConsistent(applied);
    hide OutcomeAccepted;
    hide StateConsistent;
    ProvenanceFree(applied, provenance);
  }

  lemma ProvenanceFree(m: Metadata, provenance: Option<TargetProvenance>)
    ensures var n := m.(targetProvenance := provenance);
            (OutcomeAccepted(n) <==> OutcomeAccepted(m)) && (StateConsistent(n) <==> StateConsistent(m))
  {
  }

  lemma MetadataAccepted(m0: Metadata, contract: Contract, input: Input, count: nat, lines: nat, ended: nat,
                         provenance: Option<TargetProvenance>, m: Metadata)
    requires Started(m0, contract) && CollectorInRange(input.collector) && TargetReadable(input.target, contract)
    requires if contract.TraceV1? then provenance.Some? == input.target.Some? else provenance.None?
    requires m == Finalized(m0, count, lines, ended, Reduce(input), provenance)
    requires ValidateEnvelope(m) == Pass
    ensures ValidateMetadata(m) == Pass
    ensures m.state != "running" && m.warnings == ReducedWarnings(input)
    ensures m.completeness == Some(COMPLETE) <==> Reduce(input).completeness.CompleteForSupported?
  {
    IdentityAccepted(m0, contract, input, count, lines, ended, provenance, m);
    OutcomeChecks(m0.(rawLines := lines, parsedEvents := count, ended := Some(ended)), contract, input, m, provenance);
    hide Reduce;
    hide ApplyToMetadata;
    hide ValidateMetadata;
    hide ValidateEnvelope;
    hide TargetReadable;
    hide OutcomeAccepted;
    hide StateConsistent;
    hide IdentityFields;
    ClaimsPass(m, contract);
    ChecksPass(m);
  }

  // ---------- the event vector ----------

  lemma FactsPass(m: Metadata, f: Facts)
    requires ValidateMetadata(m) == Pass && m.state != "running"
    requires (m.schemaVersion == 3 && !f.hasNonV2) || (m.schemaVersion == 4 && !f.hasNonV3)
    requires m.parsedEvents == f.count && !f.invalidOrder && f.maxEndLine <= m.rawLines && !f.invalidShape
    requires m.completeness == Some(COMPLETE) ==> !f.contextUncertain && !f.argvMissing && !f.incomplete
    ensures ValidateFacts(m, f, true) == Pass
  {
    hide ValidateMetadata;
  }

  lemma FactsFail(m: Metadata, f: Facts)
    requires m.schemaVersion >= 3 && f.invalidShape
    ensures ValidateFacts(m, f, true) != Pass
  {
    hide ValidateMetadata;
  }

  lemma FactsAccepted(m: Metadata, events: seq<Event>)
    requires ValidateMetadata(m) == Pass && 3 <= m.schemaVersion <= 4 && m.state != "running"
    requires m.parsedEvents == |events|
    requires forall e :: e in events ==>
               e.schemaVersion == m.schemaVersion - 1 && CurrentShape(e) && e.evidence.endLine <= m.rawLines
    requires m.completeness == Some(COMPLETE) ==>
               forall e :: e in events ==> !e.contextUncertain && !ArgvMissing(e) && !PathIncomplete(e)
    ensures ValidateFacts(m, FactsOf(events), true) == Pass
  {
    hide *;
    VersionFactsMeaning(events, m.rawLines);
    ShapeFactsMeaning(events);
    forall e | e in events ensures EvidenceOrdered(e.evidence) { ShapeGivesIdentity(e); }
    FactsPass(m, FactsOf(events));
  }

  lemma FactsRefuse(m: Metadata, events: seq<Event>, i: nat)
    requires i < |events| && !CurrentShape(events[i]) && m.schemaVersion >= 3
    ensures ValidateFacts(m, FactsOf(events), true) != Pass
  {
    hide *;
    ShapeFactsMeaning(events);
    assert events[i] in events;
    FactsFail(m, FactsOf(events));
  }

  /** A row without a saved task ID makes any record unreadable, under both contracts. */
  lemma UnsavedTaskIdRefused(m: Metadata, events: seq<Event>, i: nat)
    requires i < |events| && !TaskIdSaved(events[i]) && m.schemaVersion >= 3
    ensures ValidateRun(m, events, true) != Pass
  {
    hide ValidateFacts;
    hide FactsOf;
    hide CurrentShape;
    hide TaskIdSaved;
    hide ValidateTraceProvenance;
    if CurrentShape(events[i]) { ShapeHasTaskIds(events[i]); }
    FactsRefuse(m, events, i);
  }

  lemma NoneIsUntrusted(t: Builder)
    requires !SomeUntrusted(t)
    ensures forall g :: 0 <= g < |t.generations| ==> !Untrusted(t.generations[g])
  {
  }

  /** A trace without warnings holds nothing uncertain or incomplete. */
  lemma SilentTrace(raw: seq<Event>, marked: seq<Event>, resolved: seq<Event>, t: Builder, order: seq<nat>, lines: nat)
    requires ParsedTrace(raw, marked, resolved, t, order, [], lines)
    ensures forall i :: 0 <= i < |resolved| ==>
              !resolved[i].contextUncertain && !ArgvMissing(resolved[i]) && !PathIncomplete(resolved[i])
    ensures !SomeUntrusted(t)
  {
    hide EvidenceOrder;
    hide BuildTo;
    hide Normalized;
    hide WarnedBy;
    hide SomeUntrusted;
    var added :| WarnedBy(t, [], added) && ContextResolved(marked, resolved, Quiet(t, added));
    SilentParts(t, added);
    assert forall g :: 0 <= g < |t.generations| ==> !Untrusted(t.generations[g]) by { NoneIsUntrusted(t); }
    forall i | 0 <= i < |resolved|
      ensures !resolved[i].contextUncertain && !ArgvMissing(resolved[i]) && !PathIncomplete(resolved[i])
    {
      assert EventResolved(marked[i], resolved[i], true);
      assert RaisedAt(raw[i], marked[i], ActsUntrusted(t, order, |order|, i) || ExposesUntrusted(t, |t.generations|, i));
    }
  }

  predicate Spelled(events: seq<Event>) {
    forall i :: 0 <= i < |events| && events[i].kind == "exit" ==> SavedSpelling(events[i].outcome)
  }

  /** What each contract asks of a parsed row beyond what the parser guarantees. */
  predicate Savable(contract: Contract, events: seq<Event>) {
    TaskIdsSaved(events) && (contract.TraceV1? ==> Spelled(events))
  }

  /** A bound row has the saved shape exactly when its task IDs are saved ones and its exit is spelled in
      the saved vocabulary. */
  lemma BoundShape(e: Event, t: Builder, a: nat, lines: nat)
    requires Normalized(e, lines) && a < |t.actors| && a < |t.spawned| && t.actors[a] < |t.generations|
    requires t.spawned[a].Some? ==> t.spawned[a].value < |t.generations|
    requires t.spawned[a].Some? == e.childPid.Some?
    requires forall g :: 0 <= g < |t.generations| ==> t.generations[g].ordinal >= 1
    ensures CurrentShape(BoundEvent(e, t, a)) <==>
              TaskIdSaved(e) && (e.kind == "exit" ==> SavedSpelling(e.outcome))
    ensures TaskIdSaved(BoundEvent(e, t, a)) == TaskIdSaved(e)
  {
    if e.kind == "exit" { ParserAgainstContract(e.outcome); }
    hide Succeeded;
    hide ParserAccepts;
    hide SavedSpelling;
    hide TraceV1Fields;
    hide IsTaskId;
    hide FamilyMatches;
    hide FamilyShape;
    assert FamilyShape(BoundEvent(e, t, a)) == FamilyShape(e) by { BoundFamily(e, t, a); }
  }

  lemma BoundFamily(e: Event, t: Builder, a: nat)
    requires a < |t.actors| && a < |t.spawned| && t.actors[a] < |t.generations|
    requires t.spawned[a].Some? ==> t.spawned[a].value < |t.generations|
    ensures FamilyShape(BoundEvent(e, t, a)) == FamilyShape(e)
  {
  }

  // ---------- the written record is read ----------

  function Written(m0: Metadata, contract: Contract, events: seq<Event>, t: Builder, c: Completion,
                   lines: nat, ended: nat, o: Observations): Metadata
    requires InBounds(c, t, events)
  {
    Finalized(m0, |events|, lines, ended, Reduce(InputOf(c, events, contract, o)),
              if contract.TraceV1? then ProvenanceOf(c, t, events) else None)
  }

  /** The completion scan's target is decoded from an admitted exit row. */
  lemma TargetIsReadable(c: Completion, t: Builder, events: seq<Event>, contract: Contract, o: Observations)
    requires InBounds(c, t, events)
    requires forall i :: 0 <= i < |events| && events[i].kind == "exit" ==>
               ParserAccepts(events[i].outcome) && (contract.TraceV1? ==> SavedSpelling(events[i].outcome))
    ensures TargetReadable(InputOf(c, events, contract, o).target, contract)
  {
    if c.rootExit.Some? { DecodedIsReadable(events[c.rootExit.value].outcome, contract); }
    hide ParserAccepts;
    hide SavedSpelling;
    hide TargetReadable;
    hide DecodeTarget;
  }

  /** A completion scan that found an exit also has a lifetime and an exec to name. */
  lemma ProvenanceWithExit(t: Builder, replay: seq<Event>, order: seq<nat>, events: seq<Event>)
    requires |t.actors| == |replay| == |order| && forall a :: 0 <= a < |replay| ==> t.actors[a] < |t.generations|
    requires InBounds(CompletionOf(t, replay, order), t, events)
    ensures var c := CompletionOf(t, replay, order); ProvenanceOf(c, t, events).Some? == c.rootExit.Some?
  {
    hide MissingTo;
    hide First;
  }

  /** Claims are made only by a run without warnings. */
  lemma WarnedMakesNoClaim(m: Metadata, input: Input)
    requires m.warnings == ReducedWarnings(input)
    requires m.completeness == Some(COMPLETE) <==> Reduce(input).completeness.CompleteForSupported?
    ensures input.warnings != [] || input.missing != [] ==> !Claims(m)
    ensures m.completeness == Some(COMPLETE) ==> input.warnings == []
  {
    SilentMeaning(input);
    DecisionMeaning(input);
    hide ReducedWarnings;
    hide Reduce;
    hide Confirmed;
  }

  lemma LimitsWarned(t: Builder, c: Completion, input: Input, raw: seq<Event>, marked: seq<Event>, resolved: seq<Event>,
                     order: seq<nat>, lines: nat)
    requires ParsedTrace(raw, marked, resolved, t, order, input.warnings, lines) && input.missing == c.missingExits
    requires Limited(t, c)
    ensures input.warnings != [] || input.missing != []
  {
    hide ParsedTrace;
    if input.warnings == [] { SilentTrace(raw, marked, resolved, t, order, lines); }
  }

  lemma WrittenFields(m0: Metadata, contract: Contract, events: seq<Event>, t: Builder, c: Completion,
                      lines: nat, ended: nat, o: Observations)
    requires InBounds(c, t, events)
    ensures var m := Written(m0, contract, events, t, c, lines, ended, o); var input := InputOf(c, events, contract, o);
            && m.schemaVersion == m0.schemaVersion && m.parsedEvents == |events| && m.rawLines == lines
            && m.targetProvenance == (if contract.TraceV1? then ProvenanceOf(c, t, events) else None)
            && m.targetExitRaw == (match c.rootExit case Some(i) => Some(events[i].outcome) case None => None)
            && input.target.Some? == c.rootExit.Some? && input.collector == o.collector
            && input.warnings == o.warnings && input.missing == c.missingExits
  {
    hide ReducedWarnings;
    hide ProvenanceOf;
  }

  /** Outcome, state and event facts of a written record are readable, once its envelope is. */
  lemma WrittenFacts(m0: Metadata, contract: Contract, events: seq<Event>, t: Builder, c: Completion, lines: nat,
                     ended: nat, o: Observations, m: Metadata)
    requires InBounds(c, t, events) && m == Written(m0, contract, events, t, c, lines, ended, o)
    requires Started(m0, contract) && CollectorInRange(o.collector)
    requires TargetReadable(InputOf(c, events, contract, o).target, contract)
    requires contract.TraceV1? ==> ProvenanceOf(c, t, events).Some? == c.rootExit.Some?
    requires ValidateEnvelope(m) == Pass
    requires forall e :: e in events ==>
               e.schemaVersion == (if contract.TraceV1? then 3 else 2) && CurrentShape(e) && e.evidence.endLine <= lines
    requires o.warnings == [] ==>
               forall e :: e in events ==> !e.contextUncertain && !ArgvMissing(e) && !PathIncomplete(e)
    ensures ValidateFacts(m, FactsOf(events), true) == Pass
  {
    hide Reduce;
    hide Finalized;
    hide InputOf;
    hide ProvenanceOf;
    hide ValidateMetadata;
    hide ValidateEnvelope;
    hide ValidateFacts;
    hide TargetReadable;
    hide IdentityFields;
    hide NothingFinalized;
    hide CurrentShape;
    hide ArgvMissing;
    hide PathIncomplete;
    hide ReducedWarnings;
    hide FactsOf;
    var input := InputOf(c, events, contract, o);
    var provenance := if contract.TraceV1? then ProvenanceOf(c, t, events) else None;
    WrittenFields(m0, contract, events, t, c, lines, ended, o);
    MetadataAccepted(m0, contract, input, |events|, lines, ended, provenance, m);
    WarnedMakesNoClaim(m, input);
    FactsAccepted(m, events);
  }

  lemma ResolvedObservations(raw: seq<Event>, marked: seq<Event>, resolved: seq<Event>, t: Builder, order: seq<nat>,
                             quiet: bool)
    requires Fits(t, raw, order) && Identified(raw, marked, t, order) && ContextResolved(marked, resolved, quiet)
    ensures SameObservations(raw, resolved)
  {
    forall i | 0 <= i < |raw| ensures SameObservation(raw[i], resolved[i]) {
      assert EventResolved(marked[i], resolved[i], quiet);
      assert RaisedAt(raw[i], marked[i], ActsUntrusted(t, order, |order|, i) || ExposesUntrusted(t, |t.generations|, i));
    }
    hide RaisedAt;
    hide EventResolved;
  }

  lemma ResolvedRow(raw: seq<Event>, marked: seq<Event>, resolved: seq<Event>, t: Builder, order: seq<nat>,
                    warnings: seq<string>, lines: nat)
    requires ParsedTrace(raw, marked, resolved, t, order, warnings, lines)
    ensures |resolved| == |raw| && Fits(t, resolved, order) && SameObservations(raw, resolved)
    ensures exists quiet :: ContextResolved(marked, resolved, quiet)
  {
    hide EvidenceOrder;
    hide BuildTo;
    hide Normalized;
    hide WarnedBy;
    hide RaisedAt;
    hide EventResolved;
    var added :| WarnedBy(t, warnings, added) && ContextResolved(marked, resolved, Quiet(t, added));
    var quiet := Quiet(t, added);
    ResolvedObservations(raw, marked, resolved, t, order, quiet);
    hide SameObservations;
  }

  /** The completion scan over saved rows stays within them. */
  lemma ScanInBounds(raw: seq<Event>, events: seq<Event>, t: Builder, order: seq<nat>)
    requires order == EvidenceOrder(raw) && Fits(t, events, order) && |raw| == |events|
    requires t == BuildTo(Along(raw, order), order, |order|) && SameObservations(raw, events)
    ensures InBounds(CompletionOf(t, Along(events, order), order), t, events)
    ensures t == BuildTo(Along(events, order), order, |order|)
  {
    hide EvidenceOrder;
    hide BuildTo;
    hide CompletionOf;
    assert SameObservations(Along(raw, order), Along(events, order));
    SameTimeline(Along(raw, order), Along(events, order), order, |order|);
    InBoundsAlways(t, events, order);
  }

  /** Parsed rows have the saved version 2 shape exactly when their task IDs are saved ones. */
  lemma ParsedRows(resolved: seq<Event>, lines: nat)
    requires forall i :: 0 <= i < |resolved| ==> Normalized(resolved[i], lines)
    ensures forall i :: 0 <= i < |resolved| ==>
              resolved[i].schemaVersion == 2 && resolved[i].evidence.endLine <= lines &&
              (CurrentShape(resolved[i]) <==> TaskIdSaved(resolved[i]))
    ensures forall i :: 0 <= i < |resolved| && resolved[i].kind == "exit" ==> ParserAccepts(resolved[i].outcome)
  {
    hide CurrentShape;
    hide TaskIdSaved;
    hide ParserAccepts;
    hide ParsedFamily;
    forall i | 0 <= i < |resolved| ensures CurrentShape(resolved[i]) <==> TaskIdSaved(resolved[i]) {
      ParsedAgainstContract(resolved[i]);
    }
  }

  /** A structured-v3 record is read back exactly when every task ID is a saved one, whatever else was
      observed. */
  lemma StructuredRecordIsRead(raw: seq<Event>, marked: seq<Event>, resolved: seq<Event>, t: Builder, order: seq<nat>,
                               lines: nat, m0: Metadata, ended: nat, o: Observations) returns (c: Completion, m: Metadata)
    requires ParsedTrace(raw, marked, resolved, t, order, o.warnings, lines)
    requires Started(m0, StructuredV3) && CollectorInRange(o.collector)
    ensures Fits(t, resolved, order) && c == CompletionOf(t, Along(resolved, order), order) && InBounds(c, t, resolved)
    ensures m == Written(m0, StructuredV3, resolved, t, c, lines, ended, o)
    ensures ValidateRun(m, resolved, true) == Pass <==> TaskIdsSaved(resolved)
  {
    hide EvidenceOrder;
    hide BuildTo;
    hide CompletionOf;
    hide Written;
    hide CurrentShape;
    hide ParserAccepts;
    hide TargetReadable;
    hide SavedSpelling;
    hide InBounds;
    hide IdentityFields;
    hide NothingFinalized;
    hide ProvenanceOf;
    hide InputOf;
    hide ArgvMissing;
    hide PathIncomplete;
    hide TaskIdSaved;
    hide Normalized;
    ParsedRows(resolved, lines);
    ResolvedRow(raw, marked, resolved, t, order, o.warnings, lines);
    ScanInBounds(raw, resolved, t, order);
    c := CompletionOf(t, Along(resolved, order), order);
    m := Written(m0, StructuredV3, resolved, t, c, lines, ended, o);
    hide SameObservations;
    hide Identified;
    if o.warnings == [] { SilentTrace(raw, marked, resolved, t, order, lines); }
    TargetIsReadable(c, t, resolved, StructuredV3, o);
    WrittenFields(m0, StructuredV3, resolved, t, c, lines, ended, o);
    assert ValidateEnvelope(m) == Pass;
    hide ValidateEnvelope;
    hide FactsOf;
    hide ValidateFacts;
    if TaskIdsSaved(resolved) {
      WrittenFacts(m0, StructuredV3, resolved, t, c, lines, ended, o, m);
    } else {
      var i :| 0 <= i < |resolved| && !TaskIdSaved(resolved[i]);
      UnsavedTaskIdRefused(m, resolved, i);
    }
  }

  /** Annotated rows of a parse: version 3, and shaped exactly when task IDs and exits are saved ones. */
  lemma BoundRows(raw: seq<Event>, marked: seq<Event>, resolved: seq<Event>, bound: seq<Event>, t: Builder,
                  order: seq<nat>, warnings: seq<string>, lines: nat, i: nat)
    requires ParsedTrace(raw, marked, resolved, t, order, warnings, lines)
    requires Fits(t, resolved, order) && Bound(resolved, bound, t, order) && i < |bound|
    ensures bound[i].schemaVersion == 3 && bound[i].evidence.endLine <= lines
    ensures bound[i].contextUncertain == resolved[i].contextUncertain
    ensures ArgvMissing(bound[i]) == ArgvMissing(resolved[i]) && PathIncomplete(bound[i]) == PathIncomplete(resolved[i])
    ensures bound[i].kind == "exit" ==> ParserAccepts(bound[i].outcome)
    ensures CurrentShape(bound[i]) <==>
              TaskIdSaved(bound[i]) && (bound[i].kind == "exit" ==> SavedSpelling(bound[i].outcome))
  {
    hide TaskIdSaved;
    hide ParsedFamily;
    hide CurrentShape;
    hide ParserAccepts;
    hide SavedSpelling;
    hide EvidenceOrder;
    hide BuildTo;
    hide WarnedBy;
    hide Identified;
    hide ContextResolved;
    var same := TimelineFits(raw, order);
    assert i in order;
    var a :| 0 <= a < |order| && order[a] == i;
    assert bound[i] == BoundEvent(resolved[i], t, a);
    ResolvedRow(raw, marked, resolved, t, order, warnings, lines);
    assert t.spawned[a].Some? == resolved[i].childPid.Some? by {
      SpawnedMatches(raw, resolved, t, order, a);
    }
    OrdinalsPositive(raw, order, t);
    BoundShape(resolved[i], t, a, lines);
  }

  lemma SpawnedMatches(raw: seq<Event>, resolved: seq<Event>, t: Builder, order: seq<nat>, a: nat)
    requires Visits(raw, order) && |order| == |raw| && a < |order| && SameObservations(raw, resolved)
    requires Located(t, Along(raw, order), |order|)
    ensures t.spawned[a].Some? == resolved[order[a]].childPid.Some?
  {
  }

  lemma OrdinalsPositive(raw: seq<Event>, order: seq<nat>, t: Builder)
    requires Visits(raw, order) && |order| == |raw| && t == BuildTo(Along(raw, order), order, |order|)
    ensures forall g :: 0 <= g < |t.generations| ==> t.generations[g].ordinal >= 1
  {
    BuildHistory(Along(raw, order), order, |order|);
    hide BuildTo;
    hide Located;
    hide ExitsLocated;
    hide Chronological;
  }

  lemma PassedEnvelope(m: Metadata, events: seq<Event>)
    requires ValidateTraceProvenance(m, events) == Pass
    ensures ValidateEnvelope(m) == Pass
  {
    hide ReplayTo;
    hide EvidenceOrder;
    hide First;
    hide ExitOfIdentity;
    if m.targetProvenance.None? {
      assert ValidateEnvelope(m) == Pass;
    }
    hide ValidateEnvelope;
  }

  /** Lifetimes and target of a written trace-v1 record are its own annotations and projection. */
  lemma WrittenTargetIsRead(m: Metadata, events: seq<Event>, t: Builder, c: Completion)
    requires Bounded(m, events) && Annotated(events) && t == TimelineOf(events)
    requires Visits(events, EvidenceOrder(events)) && |t.actors| == |events|
    requires forall a :: 0 <= a < |events| ==> t.actors[a] < |t.generations|
    requires c == CompletionOf(t, Along(events, EvidenceOrder(events)), EvidenceOrder(events)) && InBounds(c, t, events)
    requires m.targetProvenance == ProvenanceOf(c, t, events)
    requires c.rootExit.Some? ==> m.targetExitRaw == Some(events[c.rootExit.value].outcome)
    requires Limited(t, c) ==> !Claims(m)
    ensures ValidateTraceProvenance(m, events) == Pass
    ensures ValidateEnvelope(m) == Pass
  {
    hide EvidenceOrder;
    hide TimelineOf;
    hide Annotated;
    hide Bounded;
    hide CompletionOf;
    hide ValidateTraceProvenance;
    hide ValidateEnvelope;
    hide Limited;
    hide Claims;
    var u, d := TraceProvenanceDecided(m, events);
    PassedEnvelope(m, events);
  }

  lemma WrittenClaims(m0: Metadata, contract: Contract, events: seq<Event>, t: Builder, c: Completion, lines: nat,
                      ended: nat, o: Observations, m: Metadata, raw: seq<Event>, marked: seq<Event>,
                      resolved: seq<Event>, order: seq<nat>)
    requires InBounds(c, t, events) && m == Written(m0, contract, events, t, c, lines, ended, o)
    requires ParsedTrace(raw, marked, resolved, t, order, o.warnings, lines)
    ensures Limited(t, c) ==> !Claims(m)
  {
    var input := InputOf(c, events, contract, o);
    var d := Reduce(input);
    assert m.warnings == ReducedWarnings(input) && m.completeness == Some(CompletenessName(d.completeness)) by {
      hide ReducedWarnings;
      hide ProvenanceOf;
    }
    assert m.completeness == Some(COMPLETE) <==> d.completeness.CompleteForSupported?;
    hide Written;
    hide Reduce;
    hide ReducedWarnings;
    hide ParsedTrace;
    WarnedMakesNoClaim(m, input);
    if Limited(t, c) { LimitsWarned(t, c, input, raw, marked, resolved, order, lines); }
    hide Limited;
    hide Claims;
  }

  /** A trace-v1 record is read back exactly when every task ID is a saved one and every exit row is spelled
      in the saved vocabulary. Lifetimes, provenance, outcome, state, completeness and event facts never stand in the way. */
  lemma TraceRecordIsRead(raw: seq<Event>, marked: seq<Event>, resolved: seq<Event>, bound: seq<Event>, t: Builder,
                          order: seq<nat>, lines: nat, m0: Metadata, ended: nat, o: Observations)
    returns (c: Completion, m: Metadata)
    requires ParsedTrace(raw, marked, resolved, t, order, o.warnings, lines)
    requires Fits(t, resolved, order) && Bound(resolved, bound, t, order)
    requires Started(m0, TraceV1) && CollectorInRange(o.collector)
    ensures Fits(t, bound, order) && c == CompletionOf(t, Along(bound, order), order) && InBounds(c, t, bound)
    ensures m == Written(m0, TraceV1, bound, t, c, lines, ended, o)
    ensures ValidateRun(m, bound, true) == Pass <==> TaskIdsSaved(bound) && Spelled(bound)
  {
    hide EvidenceOrder;
    hide BuildTo;
    hide CompletionOf;
    hide Written;
    hide CurrentShape;
    hide ParserAccepts;
    hide SavedSpelling;
    hide TargetReadable;
    hide InBounds;
    hide IdentityFields;
    hide NothingFinalized;
    hide ProvenanceOf;
    hide InputOf;
    hide ArgvMissing;
    hide PathIncomplete;
    hide Limited;
    hide Claims;
    hide Annotated;
    hide TimelineOf;
    hide FactsOf;
    hide ValidateFacts;
    hide ValidateTraceProvenance;
    hide ValidateEnvelope;
    hide TaskIdSaved;
    BoundParse(raw, marked, resolved, bound, t, order, o.warnings, lines);
    forall i | 0 <= i < |bound|
      ensures bound[i].schemaVersion == 3 && bound[i].evidence.endLine <= lines
      ensures bound[i].kind == "exit" ==> ParserAccepts(bound[i].outcome)
      ensures CurrentShape(bound[i]) <==>
                TaskIdSaved(bound[i]) && (bound[i].kind == "exit" ==> SavedSpelling(bound[i].outcome))
      ensures bound[i].contextUncertain == resolved[i].contextUncertain
      ensures ArgvMissing(bound[i]) == ArgvMissing(resolved[i]) && PathIncomplete(bound[i]) == PathIncomplete(resolved[i])
    {
      BoundRows(raw, marked, resolved, bound, t, order, o.warnings, lines, i);
    }
    if o.warnings == [] { SilentTrace(raw, marked, resolved, t, order, lines); }
    c := CompletionOf(t, Along(bound, order), order);
    m := Written(m0, TraceV1, bound, t, c, lines, ended, o);
    WrittenFields(m0, TraceV1, bound, t, c, lines, ended, o);
    if TaskIdsSaved(bound) && Spelled(bound) {
      WrittenClaims(m0, TraceV1, bound, t, c, lines, ended, o, m, raw, marked, resolved, order);
      hide ParsedTrace;
      WrittenTargetIsRead(m, bound, t, c);
      TargetIsReadable(c, t, bound, TraceV1, o);
      ProvenanceWithExit(t, Along(bound, order), order, bound);
      WrittenFacts(m0, TraceV1, bound, t, c, lines, ended, o, m);
    } else {
      var i :| 0 <= i < |bound| && !CurrentShape(bound[i]);
      FactsRefuse(m, bound, i);
    }
  }

  /** What binding keeps from the parse. */
  lemma BoundParse(raw: seq<Event>, marked: seq<Event>, resolved: seq<Event>, bound: seq<Event>, t: Builder,
                   order: seq<nat>, warnings: seq<string>, lines: nat)
    requires ParsedTrace(raw, marked, resolved, t, order, warnings, lines)
    requires Fits(t, resolved, order) && Bound(resolved, bound, t, order)
    ensures Annotated(bound) && EvidenceOrder(bound) == order && TimelineOf(bound) == t
    ensures Fits(t, bound, order) && InBounds(CompletionOf(t, Along(bound, order), order), t, bound)
  {
    hide EvidenceOrder;
    hide BuildTo;
    hide Annotated;
    hide TimelineOf;
    hide Normalized;
    hide WarnedBy;
    hide Identified;
    hide ContextResolved;
    hide CompletionOf;
    hide InBounds;
    hide Bound;
    var added :| WarnedBy(t, warnings, added) && ContextResolved(marked, resolved, Quiet(t, added));
    var quiet := Quiet(t, added);
    BoundIsAnnotated(raw, marked, resolved, bound, t, order, quiet);
    BoundObservations(raw, marked, resolved, bound, t, order, quiet);
    hide SameObservations;
    assert |bound| == |resolved| by { BoundLength(resolved, bound, t, order); }
    ScanInBounds(raw, bound, t, order);
  }

  lemma BoundLength(resolved: seq<Event>, bound: seq<Event>, t: Builder, order: seq<nat>)
    requires Fits(t, resolved, order) && Bound(resolved, bound, t, order)
    ensures |bound| == |resolved|
  {
  }
}
