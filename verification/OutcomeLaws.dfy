/** What a finished record says, on its metadata fields and the facts that were observed. */
module OutcomeLaws {
  import opened Ordered
  import opened Spelling
  import opened Records
  import opened Timeline
  import opened LifetimeCounts
  import opened Provenance
  import opened TargetLaws
  import opened ReaderLaws
  import opened Reduction
  import opened WriterReader

  const DURATION_WARNING := "capture duration limit exceeded"
  const BYTES_WARNING := "capture trace byte limit exceeded"

  /** The collector's own outcome, and nothing where there is none. */
  predicate CollectorSaved(m: Metadata, collector: CollectorFacts) {
    match collector
    case Reaped(Exited(code)) => m.collectorExitCode == Some(code) && m.collectorSignal.None?
    case Reaped(Signaled(signal)) => m.collectorExitCode.None? && m.collectorSignal == Some(signal)
    case _ => m.collectorExitCode.None? && m.collectorSignal.None?
  }

  /** Something outside the trace kept the capture from completing. */
  predicate Hindered(o: Observations) {
    || o.limits.duration.Some? || o.limits.traceBytes.Some? || o.supervisionError.Some?
    || o.collector.NotStarted? || o.collector.Failed? || o.collector == Reaped(Unknown)
  }

  /** The target's exit was not seen, or the collector tells another one. */
  predicate Unconfirmed(m: Metadata) {
    || m.targetExitRaw.None?
    || ((m.exitCode.Some? || m.signal.Some?) && (m.collectorExitCode != m.exitCode || m.collectorSignal != m.signal))
  }

  /** State, completeness and the recorder's exit code. */
  predicate StateTold(m: Metadata, exit: int, o: Observations) {
    if o.recorder.StoppedBy? then
      m.state == "interrupted" && m.completeness == Some("incomplete") && exit == 128 + o.recorder.signal
    else if Hindered(o) || Unconfirmed(m) then
      m.state == "capture_failed" && m.completeness == Some("incomplete") && exit == 125
    else
      && m.state == "completed"
      && m.completeness == Some(if m.warnings == [] then "complete_for_supported_events" else "partial")
      && exit == (if m.exitCode.Some? then m.exitCode.value
                  else if m.signal.Some? then 128 + m.signal.value
                  else if m.collectorExitCode.Some? then m.collectorExitCode.value
                  else if m.collectorSignal.Some? then 128 + m.collectorSignal.value
                  else 125)
  }

  /** Every limitation has its warning; the parser's come first and a supervision error last. */
  predicate WarningsTold(m: Metadata, o: Observations) {
    && o.warnings <= m.warnings
    && (o.limits.duration.Some? ==> DURATION_WARNING in m.warnings)
    && (o.limits.traceBytes.Some? ==> BYTES_WARNING in m.warnings)
    && (o.readError.Some? ==> "cannot read trace" in m.warnings)
    && (o.collector.NotStarted? ==> o.collector.reason in m.warnings)
    && (o.collector.Failed? ==> o.collector.reason in m.warnings)
    && (m.targetExitRaw.None? ==> "root process completion not observed; capture incomplete" in m.warnings)
    && (o.supervisionError.Some? ==> m.warnings != [] && m.warnings[|m.warnings| - 1] == o.supervisionError.value)
  }

  /** A record's whole account of one capture. */
  predicate Tells(m: Metadata, exit: int, o: Observations) {
    CollectorSaved(m, o.collector) && StateTold(m, exit, o) && WarningsTold(m, o)
  }

  // ---------- reduction ----------

  lemma ReducedState(m0: Metadata, input: Input, o: Observations, m: Metadata)
    requires m == ApplyToMetadata(Reduce(input), m0)
    requires o.collector == input.collector && o.recorder == input.recorder && o.limits == input.limits
    requires o.supervisionError == input.supervisionError
    ensures CollectorSaved(m, o.collector) && StateTold(m, Reduce(input).cliExit, o)
    ensures m.warnings == ReducedWarnings(input) && (m.targetExitRaw.Some? <==> input.target.Some?)
  {
    hide ReducedWarnings;
  }

  lemma MiddlePart(a: seq<string>, b: seq<string>, c: seq<string>, d: seq<string>, e: seq<string>, w: string)
    requires w in b
    ensures w in a + b + c + d + e
  {
    var i :| 0 <= i < |b| && b[i] == w;
    assert (a + b + c + d + e)[|a| + i] == w;
  }

  lemma OuterParts(a: seq<string>, b: seq<string>, c: seq<string>, d: seq<string>)
    ensures forall w :: w in a || w in d ==> w in a + b + c + d
  {
    var all := a + b + c + d;
    forall i | 0 <= i < |a| ensures a[i] in all { assert all[i] == a[i]; }
    forall i | 0 <= i < |d| ensures d[i] in all { assert all[|a| + |b| + |c| + i] == d[i]; }
  }

  lemma Said(text: string)
    ensures text in When(true, text)
  {
    assert When(true, text)[0] == text;
  }

  lemma ReducedTold(input: Input)
    ensures input.readError.Some? ==> "cannot read trace" in ReducedWarnings(input)
    ensures input.target.None? ==> "root process completion not observed; capture incomplete" in ReducedWarnings(input)
  {
    hide *;
    var read, untold := "cannot read trace", "root process completion not observed; capture incomplete";
    var first, last := When(input.readError.Some?, read), When(input.target.None?, untold);
    var unread := When(UnreadSignal(input.target), "unrecognized target termination signal");
    var missing := When(input.missing != [], "process completion not observed for PIDs");
    Said(read);
    Said(untold);
    OuterParts(first, unread, missing, last);
    ReducedParts(input);
    var middle := first + unread + missing + last;
    if input.readError.Some? {
      MiddlePart(input.warnings, middle, CollectorWarnings(input.target, input.collector), LimitWarnings(input.limits),
                 WhenSome(input.supervisionError), read);
    }
    if input.target.None? {
      MiddlePart(input.warnings, middle, CollectorWarnings(input.target, input.collector), LimitWarnings(input.limits),
                 WhenSome(input.supervisionError), untold);
    }
  }

  lemma ReducedWarns(input: Input, o: Observations, m: Metadata)
    requires m.warnings == ReducedWarnings(input) && (m.targetExitRaw.Some? <==> input.target.Some?)
    requires o.collector == input.collector && o.limits == input.limits && o.warnings == input.warnings
    requires o.supervisionError == input.supervisionError && o.readError == input.readError
    ensures WarningsTold(m, o)
  {
    ReducedTold(input);
    FactsKept(input);
    assert Reduce(input).warnings == ReducedWarnings(input);
    hide ReducedWarnings;
    hide Reduce;
  }

  /** A written record tells what was observed. */
  lemma WrittenTells(m0: Metadata, contract: Contract, events: seq<Event>, t: Builder, c: Completion, lines: nat,
                     ended: nat, o: Observations, m: Metadata)
    requires InBounds(c, t, events) && m == Written(m0, contract, events, t, c, lines, ended, o)
    ensures Tells(m, Reduce(InputOf(c, events, contract, o)).cliExit, o)
  {
    hide Reduce;
    hide ApplyToMetadata;
    hide ReducedWarnings;
    hide StateTold;
    hide WarningsTold;
    hide CollectorSaved;
    var input := InputOf(c, events, contract, o);
    var base := m0.(rawLines := lines, parsedEvents := |events|, ended := Some(ended));
    var applied := ApplyToMetadata(Reduce(input), base);
    var provenance := if contract.TraceV1? then ProvenanceOf(c, t, events) else None;
    assert m == applied.(targetProvenance := provenance);
    ReducedState(base, input, o, applied);
    ReducedWarns(input, o, applied);
    hide InputOf;
    hide Written;
    ProvenanceSilent(applied, provenance, Reduce(input).cliExit, o);
  }

  lemma ProvenanceSilent(m: Metadata, provenance: Option<TargetProvenance>, exit: int, o: Observations)
    requires CollectorSaved(m, o.collector) && StateTold(m, exit, o) && WarningsTold(m, o)
    ensures Tells(m.(targetProvenance := provenance), exit, o)
  {
  }

  // ---------- the target ----------

  /** The record's target exit is the one the rows show, or none when they show none. */
  ghost predicate TargetTold(m: Metadata, events: seq<Event>) {
    && (m.targetExitRaw.Some? <==> exists i: nat, x: nat :: TargetExec(events, i) && TargetExit(events, i, x))
    && forall i: nat, x: nat :: TargetExec(events, i) && TargetExit(events, i, x) ==>
         m.targetExitRaw == Some(events[x].outcome)
  }

  /** What the record keeps of the metadata it began with. */
  predicate KeepsIdentity(m0: Metadata, m: Metadata) {
    && m.schemaVersion == m0.schemaVersion && m.toolVersion == m0.toolVersion && m.id == m0.id && m.name == m0.name
    && m.command == m0.command && m.cwd == m0.cwd && m.started == m0.started && m.backend == m0.backend
    && m.environment == m0.environment && m.evidenceContract == m0.evidenceContract
  }

  lemma WrittenKeeps(m0: Metadata, contract: Contract, events: seq<Event>, t: Builder, c: Completion, lines: nat,
                     ended: nat, o: Observations, m: Metadata)
    requires InBounds(c, t, events) && m == Written(m0, contract, events, t, c, lines, ended, o)
    ensures KeepsIdentity(m0, m) && m.parsedEvents == |events| && m.rawLines == lines && m.ended == Some(ended)
    ensures m.targetExitRaw == (match c.rootExit case Some(i) => Some(events[i].outcome) case None => None)
  {
    hide ReducedWarnings;
    hide ProvenanceOf;
    hide CliExit;
    hide Confirmation;
  }

  lemma WrittenTarget(m0: Metadata, contract: Contract, events: seq<Event>, t: Builder, order: seq<nat>, lines: nat,
                      ended: nat, o: Observations, c: Completion, m: Metadata)
    requires order == EvidenceOrder(events) && Visits(events, order)
    requires t == BuildTo(Along(events, order), order, |order|)
    requires |t.actors| == |order| && forall a :: 0 <= a < |order| ==> t.actors[a] < |t.generations|
    requires c == CompletionOf(t, Along(events, order), order) && InBounds(c, t, events)
    requires m == Written(m0, contract, events, t, c, lines, ended, o)
    ensures TargetTold(m, events)
  {
    hide *;
    WrittenKeeps(m0, contract, events, t, c, lines, ended, o, m);
    CompletionOnRows(events, t, order);
    ExitBound(c, t, events);
    ToldBy(m, events, c.rootExec, c.rootExit);
  }

  lemma ExitBound(c: Completion, t: Builder, events: seq<Event>)
    requires InBounds(c, t, events)
    ensures c.rootExit.Some? ==> c.rootExit.value < |events|
  {
  }

  lemma ToldBy(m: Metadata, events: seq<Event>, root: Option<nat>, exit: Option<nat>)
    requires forall i: nat :: root == Some(i) <==> TargetExec(events, i)
    requires forall x: nat :: exit == Some(x) <==> root.Some? && TargetExit(events, root.value, x)
    requires exit.Some? ==> exit.value < |events|
    requires m.targetExitRaw == (match exit case Some(x) => Some(events[x].outcome) case None => None)
    ensures TargetTold(m, events)
  {
    hide TargetExec;
    hide TargetExit;
    if exit.Some? { assert TargetExec(events, root.value) && TargetExit(events, root.value, exit.value); }
    forall i: nat, x: nat | TargetExec(events, i) && TargetExit(events, i, x) ensures exit == Some(x) {
      assert root == Some(i);
    }
  }

  // ---------- the target's numbers ----------

  /** A target spelled in the saved vocabulary carries the numbers of its row, and no target carries any. */
  ghost predicate TargetNumbered(m: Metadata) {
    && (m.targetExitRaw.None? ==> m.exitCode.None? && m.signal.None?)
    && (m.targetExitRaw.Some? && CompletionRow(m.targetExitRaw.value) ==>
          DecodedRow(m.targetExitRaw.value, m.exitCode, m.signal))
  }

  lemma WrittenNumbers(m0: Metadata, contract: Contract, events: seq<Event>, t: Builder, c: Completion, lines: nat,
                       ended: nat, o: Observations, m: Metadata)
    requires InBounds(c, t, events) && m == Written(m0, contract, events, t, c, lines, ended, o)
    ensures TargetNumbered(m)
  {
    hide ReducedWarnings;
    hide ProvenanceOf;
    hide CliExit;
    hide Confirmation;
    hide DecodedRow;
    hide CompletionRow;
    hide TraceV1Fields;
    hide LegacyExit;
    hide TraceV1Exit;
    if c.rootExit.Some? && CompletionRow(events[c.rootExit.value].outcome) {
      NumbersRead(events[c.rootExit.value].outcome, contract, m.exitCode, m.signal);
    }
  }

  lemma NumbersRead(raw: string, contract: Contract, code: Option<int>, signal: Option<int>)
    requires CompletionRow(raw)
    requires var exit := if contract.TraceV1? then TraceV1Exit(raw) else LegacyExit(raw);
             MetadataFields(exit) == Fields(code, signal)
    ensures DecodedRow(raw, code, signal)
  {
    CompletionSpelled(raw);
    DecodersAgree(raw);
    hide CompletionRow;
    hide DecodedRow;
    hide LegacyExit;
    DecodedMeans(raw, code, signal);
    assert TraceV1Fields(raw) == Some(MetadataFields(TraceV1Exit(raw))) by { TraceExitReadable(raw); }
    hide TraceV1Exit;
    hide TraceV1Fields;
  }

  // ---------- the rows ----------

  /** A saved row is the parsed one; only its version, its lifetimes, the directory before it and added doubt
      may differ. */
  predicate RowKept(raw: Event, saved: Event) {
    && raw.pid == saved.pid && raw.kind == saved.kind && raw.operation == saved.operation && raw.path == saved.path
    && raw.outcome == saved.outcome && raw.evidence == saved.evidence && raw.argv == saved.argv
    && raw.childPid == saved.childPid && (raw.contextUncertain ==> saved.contextUncertain)
  }

  predicate RowsKept(raw: seq<Event>, saved: seq<Event>) {
    |raw| == |saved| && forall i :: 0 <= i < |raw| ==> RowKept(raw[i], saved[i])
  }

  lemma RowsKeptThrough(a: seq<Event>, b: seq<Event>, c: seq<Event>)
    requires RowsKept(a, b) && RowsKept(b, c)
    ensures RowsKept(a, c)
  {
    forall i | 0 <= i < |a| ensures RowKept(a[i], c[i]) { assert RowKept(a[i], b[i]) && RowKept(b[i], c[i]); }
  }

  lemma TargetKept(m: Metadata, raw: seq<Event>, saved: seq<Event>)
    requires RowsKept(raw, saved)
    ensures TargetTold(m, raw) <==> TargetTold(m, saved)
  {
    forall i: nat, j: nat ensures ReadsBefore(raw, i, j) <==> ReadsBefore(saved, i, j) {
      assert i < |raw| ==> RowKept(raw[i], saved[i]);
      assert j < |raw| ==> RowKept(raw[j], saved[j]);
    }
    forall i | 0 <= i < |raw| ensures RowKept(raw[i], saved[i]) { }
    hide ReadsBefore;
    hide RowsKept;
    forall i: nat ensures TargetExec(raw, i) <==> TargetExec(saved, i) { }
    forall i: nat, x: nat ensures TargetExit(raw, i, x) <==> TargetExit(saved, i, x) {
      ExitKept(raw, saved, i, x);
      ExitKept(saved, raw, i, x);
    }
    hide TargetExec;
    hide TargetExit;
  }

  lemma ExitKept(raw: seq<Event>, saved: seq<Event>, i: nat, x: nat)
    requires |raw| == |saved|
    requires forall k :: 0 <= k < |raw| ==>
               raw[k].kind == saved[k].kind && raw[k].pid == saved[k].pid && raw[k].childPid == saved[k].childPid
    requires forall j: nat, k: nat :: ReadsBefore(raw, j, k) <==> ReadsBefore(saved, j, k)
    ensures TargetExit(raw, i, x) ==> TargetExit(saved, i, x)
  {
    assert ReadsBefore(raw, i, x) ==> i < |raw| && x < |raw|;
    assert ReadsBefore(raw, i, x) <==> ReadsBefore(saved, i, x);
    hide ReadsBefore;
  }
}
