/** The comparison status on run facts: which inputs fail, which pairs are reliable, and when they agree. */
module StatusLaws {
  import opened Ordered
  import opened Records
  import opened Aggregation
  import opened Comparison
  import opened Reports
  import opened ReaderLaws

  // ---------- inputs ----------

  predicate DigestRow(s: string) { |s| == 64 && forall c :: c in s ==> '0' <= c <= '9' || 'a' <= c <= 'f' }

  /** A receipt about the metadata's own record: a whole traversal, or none and then nothing claimed from it. */
  predicate ManifestRow(m: Metadata, manifest: RawManifest) {
    && manifest.schemaVersion == 1 && m.schemaVersion == 4
    && manifest.runId == m.id && manifest.file == "raw/trace.log"
    && match manifest.receipt
       case Parsed(bytes, lines, sha256) =>
         DigestRow(sha256) && lines == m.rawLines && lines <= bytes && (lines == 0 ==> bytes == 0)
       case Unverified(reason) =>
         && reason != "" && m.targetProvenance.None? && m.parsedEvents == 0 && m.rawLines == 0
         && m.completeness == Some("incomplete")
  }

  lemma ManifestMeans(manifest: RawManifest, m: Metadata)
    ensures ValidateManifest(manifest, m) == Pass <==> ManifestRow(m, manifest)
  {
  }

  /** Raw integrity beside the structured record: only schema 4 has it, and it fits the storage and receipt. */
  predicate RawRow(run: Run) {
    if run.metadata.schemaVersion != 4 then run.raw.None?
    else
      && run.raw.Some?
      && (run.raw.value.manifest.Some? ==> ManifestRow(run.metadata, run.raw.value.manifest.value))
      && (|| (run.storage == "unfinalized" && run.raw.value.status == "unverified" && run.raw.value.manifest.None? &&
              run.events == [])
          || (run.storage == "verified" && run.raw.value.manifest.Some? &&
              if run.raw.value.manifest.value.receipt.Parsed?
              then run.raw.value.status in ["verified", "corrupt", "unavailable"]
              else run.raw.value.status == "unverified"))
  }

  lemma RawMeans(run: Run)
    ensures ValidateRawFacts(run) == Pass <==> RawRow(run)
  {
    if run.raw.Some? && run.raw.value.manifest.Some? { ManifestMeans(run.raw.value.manifest.value, run.metadata); }
    hide ValidateManifest;
    hide ManifestRow;
  }

  predicate Damaged(run: Run) { run.raw.Some? && (run.raw.value.status == "corrupt" || run.raw.value.status == "unavailable") }

  /** The loader held the events back: no finalization marker, and a current or still running record. */
  predicate HeldBack(run: Run) {
    run.storage == "unfinalized" && run.events == [] && (run.metadata.schemaVersion >= 3 || run.metadata.state == "running")
  }

  /** A run the comparison admits. */
  ghost predicate Comparable(run: Run) {
    && run.storage in ["verified", "unverified", "unfinalized"]
    && 1 <= run.metadata.schemaVersion <= 4
    && (forall e :: e in run.events ==> 1 <= e.schemaVersion <= 3)
    && (run.metadata.schemaVersion >= 2 ==> run.metadata.environment.Some? && run.metadata.completeness.Some?)
    && MetadataRow(run.metadata) && RawRow(run)
    && (HeldBack(run) ||
        (&& Readable(run.metadata, run.events, run.storage == "verified")
         && (run.storage == "verified" ==> run.metadata.schemaVersion >= 3 && run.metadata.state != "running")))
  }

  lemma SchemasKnown(run: Run)
    ensures KnownSchemas(run) <==>
              1 <= run.metadata.schemaVersion <= 4 && forall e :: e in run.events ==> 1 <= e.schemaVersion <= 3
  {
    if KnownSchemas(run) {
      forall e | e in run.events ensures 1 <= e.schemaVersion <= 3 {
        var i :| 0 <= i < |run.events| && run.events[i] == e;
        assert KnownEventSchema(run.events[i]);
      }
    }
    if forall e :: e in run.events ==> 1 <= e.schemaVersion <= 3 {
      forall i | 0 <= i < |run.events| ensures KnownEventSchema(run.events[i]) { assert run.events[i] in run.events; }
    }
  }

  lemma InputMeans(run: Run)
    ensures ValidateComparison(run) == Pass <==> Comparable(run)
    ensures RunFails(run) <==> !Comparable(run) || Damaged(run)
  {
    SchemasKnown(run);
    MetadataMeans(run.metadata);
    RawMeans(run);
    RunMeans(run.metadata, run.events, run.storage == "verified");
    hide KnownSchemas;
    hide ValidateMetadata;
    hide MetadataRow;
    hide ValidateRawFacts;
    hide RawRow;
    hide Readable;
  }

  /** Status 2 exactly when a side did not load, is not comparable, or its raw trace is damaged. */
  lemma FailureOnFacts(l: Load, r: Load, format: Format)
    ensures Evaluate(l, r, format).exitCode == 2 <==>
              || l.Unloaded? || !Comparable(l.run) || Damaged(l.run)
              || r.Unloaded? || !Comparable(r.run) || Damaged(r.run)
  {
    StatusTwo(l, r, format);
    if l.Loaded? { InputMeans(l.run); }
    if r.Loaded? { InputMeans(r.run); }
    hide Evaluate;
    hide RunFails;
    hide Comparable;
  }

  // ---------- reliability ----------

  /** Evidence a conclusion may rest on: stored, completed and complete; for a trace report also a schema 4
      record with its verified raw trace and its named target. */
  predicate Reliable(run: Run, trace: bool) {
    && run.storage == "verified" && run.metadata.state == "completed"
    && run.metadata.completeness == Some("complete_for_supported_events")
    && (trace ==>
          && run.metadata.schemaVersion == 4 && run.metadata.targetProvenance.Some?
          && run.raw.Some? && run.raw.value.status == "verified")
  }

  /** Whether the report carries trace facts. */
  predicate TraceWanted(l: Run, r: Run, format: Format) {
    format == TraceV5 || format == OutcomeV6 || l.metadata.schemaVersion == 4 || r.metadata.schemaVersion == 4
  }

  lemma SideTrusted(run: Run, trace: bool)
    ensures Trusted(if trace then TraceQuality(QualityOf(run), Some(run)) else QualityOf(run)) <==> Reliable(run, trace)
  {
  }

  lemma StatusShape(l: Run, r: Run, format: Format)
    requires !RunFails(l) && !RunFails(r)
    ensures var trace := TraceWanted(l, r, format);
            CompareVersion(l, r, format).exitCode ==
            StatusOf(if trace then TraceQuality(QualityOf(l), Some(l)) else QualityOf(l),
                     if trace then TraceQuality(QualityOf(r), Some(r)) else QualityOf(r),
                     Ranked(Produced(l, r, format)) != [])
  {
    hide ValidateComparison;
    hide QualityOf;
    hide TraceQuality;
    hide Produced;
    hide Ranked;
  }

  // ---------- agreement ----------

  predicate RowSeen(events: seq<Event>, kind: string, operation: string, path: string, outcome: string) {
    exists i :: 0 <= i < |events| && events[i].kind == kind && events[i].operation == operation &&
                events[i].path == Some(path) && events[i].outcome == outcome
  }

  /** Both vectors show the same file and exec facts, in any order and number. */
  ghost predicate SameRowsSeen(xs: seq<Event>, ys: seq<Event>) {
    forall kind, operation, path, outcome :: kind == "file" || kind == "exec" ==>
      (RowSeen(xs, kind, operation, path, outcome) <==> RowSeen(ys, kind, operation, path, outcome))
  }

  /** What two reliable runs must share to be equal. */
  ghost predicate Agree(l: Run, r: Run) {
    && l.metadata.exitCode == r.metadata.exitCode && l.metadata.signal == r.metadata.signal
    && l.metadata.cwd == r.metadata.cwd && l.metadata.command == r.metadata.command
    && l.metadata.environment == r.metadata.environment
    && SameRowsSeen(l.events, r.events)
  }

  lemma SawOnRows(run: Run, format: Format, key: Key, outcome: string)
    requires run.storage == "verified"
    ensures Saw(run, format, key, outcome) <==>
              (key.kind == "file" || key.kind == "exec") && RowSeen(run.events, key.kind, key.operation, key.path, outcome)
  {
    if Saw(run, format, key, outcome) {
      var i :| 0 <= i < |run.events| && Supports(run.events[i], key) && run.events[i].outcome == outcome;
      assert run.events[i].path == Some(key.path);
    }
    if (key.kind == "file" || key.kind == "exec") && RowSeen(run.events, key.kind, key.operation, key.path, outcome) {
      var i :| 0 <= i < |run.events| && run.events[i].kind == key.kind && run.events[i].operation == key.operation &&
               run.events[i].path == Some(key.path) && run.events[i].outcome == outcome;
      assert Supports(run.events[i], key);
    }
  }

  lemma TuplesOnRows(l: Run, r: Run, format: Format)
    requires l.storage == "verified" && r.storage == "verified"
    ensures SameTuples(l, r, format) <==> SameRowsSeen(l.events, r.events)
  {
    forall key, outcome
      ensures Saw(l, format, key, outcome) <==>
                (key.kind == "file" || key.kind == "exec") && RowSeen(l.events, key.kind, key.operation, key.path, outcome)
      ensures Saw(r, format, key, outcome) <==>
                (key.kind == "file" || key.kind == "exec") && RowSeen(r.events, key.kind, key.operation, key.path, outcome)
    {
      SawOnRows(l, format, key, outcome);
      SawOnRows(r, format, key, outcome);
    }
    hide Saw;
    hide RowSeen;
    if SameTuples(l, r, format) {
      forall kind, operation, path, outcome | kind == "file" || kind == "exec"
        ensures RowSeen(l.events, kind, operation, path, outcome) <==> RowSeen(r.events, kind, operation, path, outcome)
      {
        assert Saw(l, format, Key(kind, operation, path), outcome) <==> Saw(r, format, Key(kind, operation, path), outcome);
      }
    }
  }

  /** A reliable, comparable record says its own target outcome and warns of nothing. */
  lemma ReliableFacts(run: Run)
    requires Comparable(run) && Reliable(run, false)
    ensures run.metadata.warnings == [] && run.metadata.environment.Some?
    ensures run.metadata.exitCode.Some? || run.metadata.signal.Some?
  {
    hide ClaimsRow;
    hide IdentityRow;
    hide RawRow;
    hide RowsFit;
    hide CurrentRow;
    hide NothingLimited;
  }

  lemma MetadataOnFacts(l: Run, r: Run)
    requires Comparable(l) && Comparable(r) && Reliable(l, false) && Reliable(r, false)
    ensures SameMetadata(l.metadata, r.metadata) <==>
              && l.metadata.exitCode == r.metadata.exitCode && l.metadata.signal == r.metadata.signal
              && l.metadata.cwd == r.metadata.cwd && l.metadata.command == r.metadata.command
              && l.metadata.environment == r.metadata.environment
  {
    ReliableFacts(l);
    ReliableFacts(r);
    hide Comparable;
    assert CaptureText(l.metadata) == CaptureText(r.metadata);
    hide CaptureText;
  }

  /** The status of two admitted runs: a conclusion exactly when both are reliable, equality exactly when
      they also agree. */
  lemma StatusOnFacts(l: Run, r: Run, format: Format)
    requires Comparable(l) && !Damaged(l) && Comparable(r) && !Damaged(r)
    ensures var status := CompareVersion(l, r, format).exitCode; var trace := TraceWanted(l, r, format);
            status == (if !Reliable(l, trace) || !Reliable(r, trace) then 3 else if Agree(l, r) then 0 else 1)
  {
    InputMeans(l);
    InputMeans(r);
    var trace := TraceWanted(l, r, format);
    StatusShape(l, r, format);
    SideTrusted(l, trace);
    SideTrusted(r, trace);
    hide Comparable;
    hide Trusted;
    hide QualityOf;
    hide TraceQuality;
    hide CompareVersion;
    hide RunFails;
    NothingProduced(l, r, format);
    hide Ranked;
    hide Produced;
    hide SameTuples;
    hide SameRowsSeen;
    hide SameMetadata;
    if Reliable(l, trace) && Reliable(r, trace) {
      MetadataOnFacts(l, r);
      TuplesOnRows(l, r, format);
    }
  }

  // ---------- what a report shows of each side ----------

  /** A side's own capture and storage, or a failure that says nothing about the capture. */
  ghost predicate SideShown(load: Load, q: Quality) {
    if load.Loaded? && Comparable(load.run) then
      var m := load.run.metadata;
      && q.storage == load.run.storage
      && (q.capture == "complete" || q.capture == "unknown" || q.capture == "incomplete")
      && (q.capture == "complete" <==>
            && load.run.storage != "unfinalized" && m.state == "completed"
            && m.completeness == Some("complete_for_supported_events"))
      && (q.capture == "unknown" <==> load.run.storage == "unfinalized" || m.completeness.None?)
    else if load.Loaded? then
      ValidateComparison(load.run).Fail? && FailureShown(ValidateComparison(load.run).kind, q)
    else FailureShown(load.kind, q)
  }

  predicate FailureShown(kind: FailureKind, q: Quality) {
    q.capture == "unknown" && q.storage == (if kind == Corrupt then "corrupt" else "unavailable")
  }

  /** A trace report adds the raw status and whether a target is saved, for admitted schema 4 runs alone. */
  ghost predicate TraceShown(load: Load, trace: bool, q: Quality) {
    if !trace then q.raw.None? && q.provenance.None?
    else if load.Loaded? && Comparable(load.run) && load.run.metadata.schemaVersion == 4 then
      && q.raw == Some(match load.run.raw case Some(raw) => raw.status case None => "unverified")
      && q.provenance == Some(if load.run.storage == "unfinalized" then "unverified"
                              else if load.run.metadata.targetProvenance.Some? then "verified" else "missing")
    else q.raw == Some("unverified") && q.provenance == Some("unverified")
  }

  predicate CurrentLoaded(load: Load) { load.Loaded? && load.run.metadata.schemaVersion == 4 }

  /** Every report's version and what it says of each side. */
  lemma ReportShown(l: Load, r: Load, format: Format)
    ensures var report := Evaluate(l, r, format);
            var trace := format != Automatic || CurrentLoaded(l) || CurrentLoaded(r);
            && report.schemaVersion == (if format == OutcomeV6 then 6 else if trace then 5 else 4)
            && report.evidenceContract == (if format == OutcomeV6 then Some("outcome_event_references_v1") else None)
            && SideShown(l, report.left) && SideShown(r, report.right)
            && TraceShown(l, trace, report.left) && TraceShown(r, trace, report.right)
  {
    hide ValidateComparison;
    hide Comparable;
    hide QualityOf;
    hide TraceQuality;
    hide FailureQuality;
    hide SideShown;
    hide TraceShown;
    hide Ranked;
    hide Produced;
    hide StatusOf;
    hide RunFails;
    var trace := format != Automatic || CurrentLoaded(l) || CurrentLoaded(r);
    QualityShown(l, trace);
    QualityShown(r, trace);
    if l.Loaded? && r.Loaded? && !RunFails(l.run) && !RunFails(r.run) {
      AdmittedStays(l);
      AdmittedStays(r);
    }
  }

  lemma AdmittedStays(load: Load)
    requires load.Loaded? && !RunFails(load.run)
    ensures Checked(load) == load
  {
    hide ValidateComparison;
  }

  function Traced(q: Quality, trace: bool, side: Option<Run>): Quality { if trace then TraceQuality(q, side) else q }

  lemma QualityShown(load: Load, trace: bool)
    ensures var side := Checked(load); var q := Traced(SideQuality(side), trace, SideRun(side));
            SideShown(load, q) && TraceShown(load, trace, q)
  {
    if load.Loaded? { InputMeans(load.run); }
    hide ValidateComparison;
    hide Comparable;
  }

  // ---------- metadata changes ----------

  /** The target's numbers, or its spelling when neither side has numbers. */
  predicate OutcomeDiffers(l: Metadata, r: Metadata) {
    || l.exitCode != r.exitCode || l.signal != r.signal
    || (l.exitCode.None? && l.signal.None? && l.targetExitRaw != r.targetExitRaw)
  }

  /** The state, the completeness or how many warnings there are. */
  predicate CaptureDiffers(l: Metadata, r: Metadata) {
    l.state != r.state || l.completeness != r.completeness || |l.warnings| != |r.warnings|
  }

  predicate StateNamed(m: Metadata) {
    && m.state in ["running", "completed", "capture_failed", "interrupted"]
    && m.completeness.Some?
    && m.completeness.value in ["pending", "complete_for_supported_events", "partial", "incomplete"]
  }

  predicate VariableDiffers(l: Metadata, r: Metadata, key: string) {
    var a, b := Environment(l), Environment(r);
    (key in a) != (key in b) || (key in a && a[key] != b[key])
  }

  /** Each metadata change stands for its own difference. */
  lemma MetadataListed(l: Metadata, r: Metadata)
    ensures var changes := MetadataChanges(l, r);
            && (ExitStatus in changes <==> OutcomeDiffers(l, r))
            && (InitialWorkingDirectory in changes <==> l.cwd != r.cwd)
            && (CommandArguments in changes <==> l.command != r.command)
            && (StateNamed(l) && StateNamed(r) ==> (CaptureCompleteness in changes <==> CaptureDiffers(l, r)))
            && forall key :: SelectedStartupEnvironment(key) in changes <==> VariableDiffers(l, r, key)
  {
    hide LexLess;
    hide CaptureText;
    hide StateNamed;
    hide CaptureDiffers;
    hide VariableDiffers;
    hide OutcomeDiffers;
    hide TargetExit;
    LexStrictTotal();
    if StateNamed(l) && StateNamed(r) { CaptureTold(l, r); }
    OutcomeTold(l, r);
    var keys := Sorted(DifferingVariables(l, r), LexLess);
    assert MetadataChanges(l, r) == FixedChanges(l, r) + Variables(keys);
    hide MetadataChanges;
    forall key ensures key in keys <==> VariableDiffers(l, r, key) { VariableFound(l, r, key); }
    hide DifferingVariables;
    FixedListed(l, r, Variables(keys));
    forall key ensures SelectedStartupEnvironment(key) in Variables(keys) <==> key in keys {
      VariableListed(keys, key);
    }
  }

  /** Changes come in one order, environment variables last and by name; so none is repeated. */
  predicate ListedBefore(a: MetaKind, b: MetaKind) {
    match (a, b)
    case (SelectedStartupEnvironment(k), SelectedStartupEnvironment(j)) => LexLess(k, j)
    case (_, SelectedStartupEnvironment(_)) => true
    case (ExitStatus, _) => !b.ExitStatus?
    case (InitialWorkingDirectory, CommandArguments) => true
    case (_, CaptureCompleteness) => !a.CaptureCompleteness? && !a.SelectedStartupEnvironment?
    case _ => false
  }

  lemma MetadataInOrder(l: Metadata, r: Metadata, x: nat, y: nat)
    requires x < y < |MetadataChanges(l, r)|
    ensures ListedBefore(MetadataChanges(l, r)[x], MetadataChanges(l, r)[y])
  {
    hide LexLess;
    hide FixedChanges;
    hide Variables;
    hide ListedBefore;
    hide DifferingVariables;
    LexStrictTotal();
    var keys := Sorted(DifferingVariables(l, r), LexLess);
    FixedInOrder(l, r);
    VariablesInOrder(FixedChanges(l, r), keys, x, y);
  }

  lemma VariablesInOrder(fixed: seq<MetaKind>, keys: seq<string>, x: nat, y: nat)
    requires forall change :: change in fixed ==> !change.SelectedStartupEnvironment?
    requires forall i, j :: 0 <= i < j < |fixed| ==> ListedBefore(fixed[i], fixed[j])
    requires Ascending(keys, LexLess) && x < y < |fixed + Variables(keys)|
    ensures ListedBefore((fixed + Variables(keys))[x], (fixed + Variables(keys))[y])
  {
    hide LexLess;
    var k, j := x - |fixed|, y - |fixed|;
    if j >= 0 {
      assert Variables(keys)[j] == SelectedStartupEnvironment(keys[j]);
      if k >= 0 { assert Variables(keys)[k] == SelectedStartupEnvironment(keys[k]) && LexLess(keys[k], keys[j]); }
      else { assert fixed[x] in fixed; }
    }
  }

  lemma FixedInOrder(l: Metadata, r: Metadata)
    ensures forall change :: change in FixedChanges(l, r) ==> !change.SelectedStartupEnvironment?
    ensures forall x, y :: 0 <= x < y < |FixedChanges(l, r)| ==> ListedBefore(FixedChanges(l, r)[x], FixedChanges(l, r)[y])
  {
    hide LexLess;
    hide CaptureText;
    hide TargetExit;
    var exit, cwd := Simple(ExitStatus, TargetExit(l) != TargetExit(r)), Simple(InitialWorkingDirectory, l.cwd != r.cwd);
    var command := Simple(CommandArguments, l.command != r.command);
    var capture := Simple(CaptureCompleteness, CaptureText(l) != CaptureText(r));
    assert FixedChanges(l, r) == exit + cwd + command + capture;
  }

  lemma OutcomeTold(l: Metadata, r: Metadata)
    ensures TargetExit(l) != TargetExit(r) <==> OutcomeDiffers(l, r)
  {
  }

  lemma FixedListed(l: Metadata, r: Metadata, variables: seq<MetaKind>)
    requires forall change :: change in variables ==> change.SelectedStartupEnvironment?
    ensures var changes := FixedChanges(l, r) + variables;
            && (ExitStatus in changes <==> TargetExit(l) != TargetExit(r))
            && (InitialWorkingDirectory in changes <==> l.cwd != r.cwd)
            && (CommandArguments in changes <==> l.command != r.command)
            && (CaptureCompleteness in changes <==> CaptureText(l) != CaptureText(r))
            && forall key :: SelectedStartupEnvironment(key) in changes <==> SelectedStartupEnvironment(key) in variables
  {
    hide TargetExit;
    hide CaptureText;
  }

  lemma VariableFound(l: Metadata, r: Metadata, key: string)
    ensures key in DifferingVariables(l, r) <==> VariableDiffers(l, r, key)
  {
  }

  lemma VariableListed(keys: seq<string>, key: string)
    ensures SelectedStartupEnvironment(key) in Variables(keys) <==> key in keys
  {
    if key in keys {
      var i :| 0 <= i < |keys| && keys[i] == key;
      assert Variables(keys)[i] == SelectedStartupEnvironment(key);
    }
  }

  lemma CaptureTold(l: Metadata, r: Metadata)
    requires StateNamed(l) && StateNamed(r)
    ensures CaptureText(l) != CaptureText(r) <==> CaptureDiffers(l, r)
  {
    var a, b := Decimal(|l.warnings|) + " warnings", Decimal(|r.warnings|) + " warnings";
    StatesApart(l.state, r.state, l.completeness.value + "; " + a, r.completeness.value + "; " + b);
    CompletenessApart(l.completeness.value, r.completeness.value, a, b);
    WarningsCounted(|l.warnings|, |r.warnings|);
    CaptureSpelled(l);
    CaptureSpelled(r);
    hide Decimal;
    hide CaptureText;
  }

  lemma CaptureSpelled(m: Metadata)
    requires m.completeness.Some?
    ensures CaptureText(m) == m.state + "; " + (m.completeness.value + "; " + (Decimal(|m.warnings|) + " warnings"))
  {
    hide Decimal;
  }

  lemma StatesApart(s: string, t: string, a: string, b: string)
    requires s in ["running", "completed", "capture_failed", "interrupted"]
    requires t in ["running", "completed", "capture_failed", "interrupted"]
    ensures s + "; " + a == t + "; " + b <==> s == t && a == b
  {
    assert s != t ==> s[0] != t[0] || s[1] != t[1];
    Apart(s, t, a, b);
  }

  lemma CompletenessApart(s: string, t: string, a: string, b: string)
    requires s in ["pending", "complete_for_supported_events", "partial", "incomplete"]
    requires t in ["pending", "complete_for_supported_events", "partial", "incomplete"]
    ensures s + "; " + a == t + "; " + b <==> s == t && a == b
  {
    assert s != t ==> s[0] != t[0] || s[1] != t[1];
    Apart(s, t, a, b);
  }

  lemma Apart(s: string, t: string, a: string, b: string)
    requires |s| >= 2 && |t| >= 2 && (s != t ==> s[0] != t[0] || s[1] != t[1])
    ensures s + "; " + a == t + "; " + b <==> s == t && a == b
  {
    var x, y := s + "; " + a, t + "; " + b;
    assert x[0] == s[0] && x[1] == s[1] && y[0] == t[0] && y[1] == t[1];
    if s == t { Cancelled(s + "; ", a, b); }
  }

  lemma Cancelled(a: string, b: string, c: string)
    ensures a + b == a + c <==> b == c
  {
    assert (a + b)[|a|..] == b && (a + c)[|a|..] == c;
  }

  lemma WarningsCounted(m: nat, n: nat)
    ensures Decimal(m) + " warnings" == Decimal(n) + " warnings" <==> m == n
  {
    if Decimal(m) + " warnings" == Decimal(n) + " warnings" {
      var x, y := Decimal(m), Decimal(n);
      assert |x| == |y| && (x + " warnings")[..|x|] == x && (y + " warnings")[..|y|] == y;
      DecimalOnce(m, n);
    }
  }

  lemma {:induction false} DecimalOnce(m: nat, n: nat)
    requires Decimal(m) == Decimal(n)
    ensures m == n
  {
    DecimalEnds(m);
    DecimalEnds(n);
    if m >= 10 && n >= 10 {
      DecimalOnce(m / 10, n / 10);
    }
  }

  /** A number's last digit, and the rest of its digits. */
  lemma DecimalEnds(n: nat)
    ensures var s := Decimal(n);
            && s != [] && s[|s| - 1] as int == '0' as int + n % 10
            && (n < 10 <==> |s| == 1) && (n >= 10 ==> s[..|s| - 1] == Decimal(n / 10))
  {
    DigitAt(n % 10);
    if n >= 10 { DecimalSome(n / 10); }
  }

  lemma DigitAt(d: nat)
    requires d < 10
    ensures "0123456789"[d] as int == '0' as int + d
  {
  }

  lemma DecimalSome(n: nat)
    ensures Decimal(n) != []
  {
  }
}
