/** Comparison reports: metadata changes, ranking, and the four-way trust status. */
module Reports {
  import opened Ordered
  import opened Records
  import opened Timeline
  import opened Provenance
  import opened Aggregation
  import opened Comparison

  // ---------- admission of a side ----------

  datatype Load = Loaded(run: Run) | Unloaded(kind: FailureKind)

  function StorageFailure(storage: string): FailureKind {
    if storage == "unsupported" then Unsupported else if storage == "unavailable" then Unavailable else Corrupt
  }

  /** The loader withholds events of an unfinalized record; its counts are then not compared. */
  predicate EventsWithheld(run: Run) {
    run.storage == "unfinalized" && run.events == [] &&
    (run.metadata.schemaVersion >= 3 || run.metadata.state == "running")
  }

  predicate KnownSchemas(run: Run) {
    1 <= run.metadata.schemaVersion <= 4 &&
    forall i :: 0 <= i < |run.events| ==> KnownEventSchema(run.events[i])
  }

  ghost function ValidateComparison(run: Run): Check {
    var m := run.metadata;
    if !(run.storage in ["verified", "unverified", "unfinalized"]) then Fail(StorageFailure(run.storage))
    else if !KnownSchemas(run) then Fail(Unsupported)
    else if m.schemaVersion >= 2 && (m.environment.None? || m.completeness.None?) then Fail(Corrupt)
    else
      var metadata := ValidateMetadata(m);
      if metadata.Fail? then metadata
      else
        var raw := ValidateRawFacts(run);
        if raw.Fail? then raw
        else if EventsWithheld(run) then Pass
        else
          var contract := ValidateRun(m, run.events, run.storage == "verified");
          if contract.Fail? then contract
          else Need(run.storage == "verified" ==> 3 <= m.schemaVersion && m.state != "running")
  }

  predicate RawFailed(run: Run) { run.raw.Some? && run.raw.value.status in ["corrupt", "unavailable"] }

  ghost predicate RunFails(run: Run) { ValidateComparison(run) != Pass || RawFailed(run) }

  ghost predicate Fails(load: Load) { load.Unloaded? || RunFails(load.run) }

  // ---------- metadata changes ----------

  /** Explicit code and signal facts; the raw spelling counts only when both are absent. */
  datatype TargetView = TargetView(code: Option<int>, signal: Option<int>, raw: Option<string>)

  function TargetExit(m: Metadata): TargetView {
    TargetView(m.exitCode, m.signal, if m.exitCode.None? && m.signal.None? then m.targetExitRaw else None)
  }

  function Decimal(n: nat): string {
    if n < 10 then ["0123456789"[n]] else Decimal(n / 10) + ["0123456789"[n % 10]]
  }

  function CaptureText(m: Metadata): string {
    m.state + "; " + (match m.completeness case Some(c) => c case None => "legacy/unknown") + "; " +
    Decimal(|m.warnings|) + " warnings"
  }

  function Environment(m: Metadata): map<string, Option<string>> {
    match m.environment case Some(e) => e case None => map[]
  }

  function Variable(e: map<string, Option<string>>, key: string): Option<Option<string>> {
    if key in e then Some(e[key]) else None
  }

  datatype MetaKind =
    | ExitStatus
    | InitialWorkingDirectory
    | CommandArguments
    | CaptureCompleteness
    | SelectedStartupEnvironment(key: string)

  function DifferingVariables(l: Metadata, r: Metadata): set<string> {
    var a, b := Environment(l), Environment(r);
    set key | key in a.Keys + b.Keys && Variable(a, key) != Variable(b, key)
  }

  function Simple(kind: MetaKind, differs: bool): seq<MetaKind> { if differs then [kind] else [] }

  function FixedChanges(l: Metadata, r: Metadata): seq<MetaKind> {
    Simple(ExitStatus, TargetExit(l) != TargetExit(r)) +
    Simple(InitialWorkingDirectory, l.cwd != r.cwd) +
    Simple(CommandArguments, l.command != r.command) +
    Simple(CaptureCompleteness, CaptureText(l) != CaptureText(r))
  }

  function Variables(keys: seq<string>): seq<MetaKind> {
    seq(|keys|, i requires 0 <= i < |keys| => SelectedStartupEnvironment(keys[i]))
  }

  ghost function MetadataChanges(l: Metadata, r: Metadata): seq<MetaKind> {
    LexStrictTotal();
    FixedChanges(l, r) + Variables(Sorted(DifferingVariables(l, r), LexLess))
  }

  /** Metadata is silent exactly when every compared fact agrees; warning wording is not compared. */
  lemma MetadataSilent(l: Metadata, r: Metadata)
    ensures MetadataChanges(l, r) == [] <==>
            && TargetExit(l) == TargetExit(r) && l.cwd == r.cwd && l.command == r.command
            && CaptureText(l) == CaptureText(r) && Environment(l) == Environment(r)
  {
    LexStrictTotal();
    hide LexLess;
    hide TargetExit;
    hide CaptureText;
    assert |MetadataChanges(l, r)| ==
           |Simple(ExitStatus, TargetExit(l) != TargetExit(r))| + |Simple(InitialWorkingDirectory, l.cwd != r.cwd)|
           + |Simple(CommandArguments, l.command != r.command)|
           + |Simple(CaptureCompleteness, CaptureText(l) != CaptureText(r))| + |DifferingVariables(l, r)|;
    NoVariableDiffers(l, r);
  }

  lemma NoVariableDiffers(l: Metadata, r: Metadata)
    ensures DifferingVariables(l, r) == {} <==> Environment(l) == Environment(r)
  {
    var a, b := Environment(l), Environment(r);
    if DifferingVariables(l, r) == {} {
      forall key ensures key in a <==> key in b {
        assert key !in DifferingVariables(l, r);
      }
      forall key | key in a ensures a[key] == b[key] {
        assert key !in DifferingVariables(l, r);
      }
    }
  }

  // ---------- ranking ----------

  datatype Change = Meta(kind: MetaKind) | Observed(observation: Observation)

  predicate OnlyFailures(outcomes: seq<string>) { outcomes != [] && "success" !in outcomes }

  /** Semantic tier, smallest first. */
  function RankClass(c: Change): nat {
    match c
    case Meta(ExitStatus) => 0
    case Meta(CaptureCompleteness) => 1
    case Meta(_) => 2
    case Observed(o) =>
      if o.left == ["success"] && OnlyFailures(o.right) then 3
      else if o.kind.ExecutionAttempt? && OnlyFailures(o.right) then 4
      else if o.kind.Executable? && o.right != [] then 5
      else if o.kind.NewFileAccess? then 6
      else if o.kind.Executable? then 7
      else if o.kind.FileAccessOutcome? || o.kind.ExecutionAttempt? then 8
      else 9
  }

  /** The tiers by what changed: metadata precedes every observation, a lone success that only fails on
      the other side precedes the rest, and an access that disappeared comes last. */
  lemma RankTiers(c: Change)
    ensures RankClass(c) < 3 <==> c.Meta?
    ensures RankClass(c) == 0 <==> c == Meta(ExitStatus)
    ensures RankClass(c) == 1 <==> c == Meta(CaptureCompleteness)
    ensures RankClass(c) == 3 <==> c.Observed? && c.observation.left == ["success"] && OnlyFailures(c.observation.right)
    ensures c.Observed? && RankClass(c) > 3 ==>
              (RankClass(c) == 5 || RankClass(c) == 7 <==> c.observation.kind.Executable?)
    ensures RankClass(c) == 9 ==> c.Observed? && c.observation.kind.RemovedFileAccess?
    ensures c.Observed? && c.observation.kind.NewFileAccess? ==> RankClass(c) == 6 || RankClass(c) == 3
  {
    if c.Meta? {
      match c.kind {
        case ExitStatus =>
        case InitialWorkingDirectory =>
        case CommandArguments =>
        case CaptureCompleteness =>
        case SelectedStartupEnvironment(_) =>
      }
    }
  }

  lemma OrderShows(m: map<string, seq<nat>>)
    ensures OutcomeOrder(m) == [] <==> m.Keys == {}
    ensures OutcomeOrder(m) == ["success"] <==> m.Keys == {"success"}
    ensures OnlyFailures(OutcomeOrder(m)) <==> m.Keys != {} && "success" !in m.Keys
  {
    var keys := OutcomeOrder(m);
    LexStrictTotal();
    assert keys != [] ==> keys[0] in keys;
    if m.Keys == {"success"} {
      assert "success" in keys;
      hide LexLess;
      assert forall x :: 0 <= x < |keys| ==> keys[x] in keys;
      AscendingUnique(keys, ["success"], LexLess);
    }
    if keys == ["success"] { assert forall o :: o in m.Keys <==> o in keys; }
  }

  /** The tier of an observation change, by the outcome sets of the two sides alone. */
  function Tier(kind: string, left: set<string>, right: set<string>): nat {
    if left == {"success"} && right != {} && "success" !in right then 3
    else if kind == "exec" then
      if right != {} && "success" !in right then 4
      else if left == {} && right == {"success"} then 5
      else if left == {"success"} && right == {} then 7
      else 8
    else if left == {} then 6
    else if right == {} then 9
    else 8
  }

  lemma TierOfKind(key: Key, a: map<string, seq<nat>>, b: map<string, seq<nat>>, o: Observation)
    requires a.Keys != b.Keys && o.left == OutcomeOrder(a) && o.right == OutcomeOrder(b)
    requires o.kind == KindOf(key, o.left, o.right)
    ensures RankClass(Observed(o)) == Tier(key.kind, a.Keys, b.Keys)
  {
    OrderShows(a);
    OrderShows(b);
    OnlySuccess(o.left, a.Keys);
    OnlySuccess(o.right, b.Keys);
    hide *;
    KindShows(key, o.left, o.right);
    if key.kind == "exec" {
      TierOfExec(o, a.Keys, b.Keys);
    } else {
      TierOfFile(key.kind, o, a.Keys, b.Keys);
    }
  }

  lemma TierOfExec(o: Observation, left: set<string>, right: set<string>)
    requires left != right && (o.left == ["success"] <==> left == {"success"})
    requires OnlyFailures(o.right) <==> right != {} && "success" !in right
    requires o.right == [] <==> right == {}
    requires o.kind == (if (left == {} || left == {"success"}) && (right == {} || right == {"success"})
                        then Executable else ExecutionAttempt)
    ensures RankClass(Observed(o)) == Tier("exec", left, right)
  {
    hide OnlyFailures;
  }

  lemma TierOfFile(kind: string, o: Observation, left: set<string>, right: set<string>)
    requires kind != "exec" && (o.left == ["success"] <==> left == {"success"})
    requires OnlyFailures(o.right) <==> right != {} && "success" !in right
    requires o.kind == (if left == {} then NewFileAccess else if right == {} then RemovedFileAccess else FileAccessOutcome)
    ensures RankClass(Observed(o)) == Tier(kind, left, right)
  {
    hide OnlyFailures;
  }

  lemma OnlySuccess(keys: seq<string>, held: set<string>)
    requires forall o :: o in keys <==> o in held
    ensures (forall o :: o in keys ==> o == "success") <==> held == {} || held == {"success"}
  {
    if held != {} && forall o :: o in keys ==> o == "success" {
      var o :| o in held;
      assert o == "success";
      assert held == {"success"};
    }
  }

  /** An execution's kind tells whether any outcome failed, another's only which side is empty. */
  lemma KindShows(key: Key, left: seq<string>, right: seq<string>)
    ensures var kind := KindOf(key, left, right);
            if key.kind == "exec" then
              kind == (if (forall o :: o in left ==> o == "success") && (forall o :: o in right ==> o == "success")
                       then Executable else ExecutionAttempt)
            else kind == (if left == [] then NewFileAccess else if right == [] then RemovedFileAccess else FileAccessOutcome)
  {
    assert forall o :: o in left + right <==> o in left || o in right;
  }

  /** A changed key ranks by its sides' outcome sets: first a lone success that now only fails, then an
      execution that now only fails, a command newly and cleanly executed, a file newly accessed, a clean
      execution that disappeared, mixed outcomes, and last a file no longer accessed. */
  lemma ObservationTier(l: Run, r: Run, format: Format, key: Key)
    requires Changed(l, r, format, key)
    ensures RankClass(Observed(ObservationOf(l, r, format, key))) ==
            Tier(key.kind, Held(l, format, key).Keys, Held(r, format, key).Keys)
  {
    hide Held;
    hide OutcomeOrder;
    hide KindOf;
    hide SideSamples;
    hide SideMappingOf;
    hide RankClass;
    TierOfKind(key, Held(l, format, key), Held(r, format, key), ObservationOf(l, r, format, key));
  }

  function ClassAt(changes: seq<Change>, i: nat): nat { if i < |changes| then RankClass(changes[i]) else 10 }

  /** Rank, then production order. */
  function Ranks(changes: seq<Change>): (nat, nat) -> bool {
    (i: nat, j: nat) => ClassAt(changes, i) < ClassAt(changes, j) || (ClassAt(changes, i) == ClassAt(changes, j) && i < j)
  }

  lemma RanksStrictTotal(changes: seq<Change>)
    ensures StrictTotal(Ranks(changes))
  {
    hide ClassAt;
  }

  ghost function RankOrder(changes: seq<Change>): (order: seq<nat>)
    ensures |order| == |changes| && Ascending(order, Ranks(changes))
    ensures forall i: nat :: i in order <==> i < |changes|
  {
    RanksStrictTotal(changes);
    Sorted(Below(|changes|), Ranks(changes))
  }

  function Picked(changes: seq<Change>, order: seq<nat>): (r: seq<Change>)
    requires forall x :: 0 <= x < |order| ==> order[x] < |changes|
    ensures |r| == |order| && forall x :: 0 <= x < |r| ==> r[x] == changes[order[x]]
  {
    if order == [] then []
    else
      Picked(changes, order[..|order| - 1]) + [changes[order[|order| - 1]]]
  }

  ghost function Ranked(changes: seq<Change>): (r: seq<Change>)
    ensures |r| == |changes|
  {
    assert forall x :: 0 <= x < |changes| ==> RankOrder(changes)[x] in RankOrder(changes);
    Picked(changes, RankOrder(changes))
  }

  /** Ranking reorders by tier, keeps production order inside a tier, and loses nothing. */
  lemma RankedIsStable(changes: seq<Change>, x: nat, y: nat)
    requires x < y < |changes|
    ensures RankClass(Ranked(changes)[x]) <= RankClass(Ranked(changes)[y])
    ensures RankClass(Ranked(changes)[x]) == RankClass(Ranked(changes)[y]) ==> RankOrder(changes)[x] < RankOrder(changes)[y]
    ensures exists z :: 0 <= z < |changes| && RankOrder(changes)[z] == x
  {
    hide RankClass;
    hide RankOrder;
    var order := RankOrder(changes);
    assert order[x] in order && order[y] in order && x in order;
    assert Ranks(changes)(order[x], order[y]);
  }

  // ---------- reliability and status ----------

  datatype Quality = Quality(capture: string, storage: string, raw: Option<string>, provenance: Option<string>)

  function QualityOf(run: Run): Quality {
    var capture :=
      if run.storage == "unfinalized" then "unknown"
      else if run.metadata.state == "completed" && run.metadata.completeness == Some(COMPLETE) then "complete"
      else if run.metadata.completeness.None? then "unknown"
      else "incomplete";
    Quality(capture, run.storage, None, None)
  }

  predicate VerifiedIfPresent(component: Option<string>) { component.Some? ==> component.value == "verified" }

  predicate Trusted(q: Quality) {
    q.capture == "complete" && q.storage == "verified" && VerifiedIfPresent(q.raw) && VerifiedIfPresent(q.provenance)
  }

  /** Component facts a trace report adds to one side. */
  function TraceQuality(q: Quality, side: Option<Run>): Quality {
    var current := side.Some? && side.value.metadata.schemaVersion == 4;
    var raw := if current && side.value.raw.Some? then side.value.raw.value.status else "unverified";
    var provenance :=
      if !current then "unverified"
      else if side.value.storage == "unfinalized" then "unverified"
      else if side.value.metadata.targetProvenance.Some? then "verified"
      else "missing";
    q.(raw := Some(raw), provenance := Some(provenance))
  }

  datatype Report = Report(
    schemaVersion: nat, observed: Option<bool>, left: Quality, right: Quality, exitCode: nat,
    changes: seq<Change>, evidenceContract: Option<string>)

  function FailureQuality(kind: FailureKind): Quality {
    Quality("unknown", if kind.Corrupt? then "corrupt" else "unavailable", None, None)
  }

  predicate TraceReport(format: Format, l: Load, r: Load) {
    !format.Automatic? || (l.Loaded? && l.run.metadata.schemaVersion == 4)
    || (r.Loaded? && r.run.metadata.schemaVersion == 4)
  }

  function WithTrace(report: Report, left: Option<Run>, right: Option<Run>): Report {
    report.(schemaVersion := 5, left := TraceQuality(report.left, left), right := TraceQuality(report.right, right))
  }

  function WithOutcomes(report: Report): Report {
    report.(schemaVersion := 6, evidenceContract := Some("outcome_event_references_v1"))
  }

  function Versioned(report: Report, format: Format, trace: bool, left: Option<Run>, right: Option<Run>): Report {
    var traced := if trace then WithTrace(report, left, right) else report;
    if format.OutcomeV6? then WithOutcomes(traced) else traced
  }

  /** A side rechecked against the comparison contract. */
  ghost function Checked(load: Load): Load {
    if load.Loaded? && ValidateComparison(load.run).Fail? then Unloaded(ValidateComparison(load.run).kind) else load
  }

  function SideRun(load: Load): Option<Run> { if load.Loaded? then Some(load.run) else None }

  function SideQuality(load: Load): Quality {
    if load.Loaded? then QualityOf(load.run) else FailureQuality(load.kind)
  }

  ghost function ErrorReport(l: Load, r: Load, format: Format, trace: bool): Report {
    var left, right := Checked(l), Checked(r);
    Versioned(Report(4, None, SideQuality(left), SideQuality(right), 2, [], None), format, trace,
              SideRun(left), SideRun(right))
  }

  ghost function Produced(l: Run, r: Run, format: Format): seq<Change> {
    MetaChanges(MetadataChanges(l.metadata, r.metadata)) + ObservedChanges(ObservationChanges(l, r, format))
  }

  function MetaChanges(kinds: seq<MetaKind>): (r: seq<Change>)
    ensures |r| == |kinds|
  {
    seq(|kinds|, i requires 0 <= i < |kinds| => Meta(kinds[i]))
  }

  function ObservedChanges(observations: seq<Observation>): (r: seq<Change>)
    ensures |r| == |observations|
  {
    seq(|observations|, i requires 0 <= i < |observations| => Observed(observations[i]))
  }

  function StatusOf(left: Quality, right: Quality, changed: bool): nat {
    if Trusted(left) && Trusted(right) then (if changed then 1 else 0) else 3
  }

  ghost function CompareVersion(l: Run, r: Run, format: Format): Report {
    var trace := TraceReport(format, Loaded(l), Loaded(r));
    if RunFails(l) || RunFails(r) then ErrorReport(Loaded(l), Loaded(r), format, trace)
    else
      var base := Versioned(Report(4, None, QualityOf(l), QualityOf(r), 3, [], None), format, trace, Some(l), Some(r));
      var changes := Ranked(Produced(l, r, format));
      base.(changes := changes, observed := Some(changes != []),
            exitCode := StatusOf(base.left, base.right, changes != []))
  }

  /** Evaluate loaded or failed inputs under one requested format. */
  ghost function Evaluate(l: Load, r: Load, format: Format): Report {
    if l.Loaded? && r.Loaded? then CompareVersion(l.run, r.run, format)
    else ErrorReport(l, r, format, TraceReport(format, l, r))
  }

  // ---------- the status contract ----------

  /** Status 2 exactly when a side failed to load, its contract or its raw integrity, and then there is
      neither a change nor a conclusion; otherwise there is always a conclusion. */
  lemma StatusTwo(l: Load, r: Load, format: Format)
    ensures var report := Evaluate(l, r, format);
            && (report.exitCode == 2 <==> Fails(l) || Fails(r))
            && (report.exitCode == 2 ==> report.observed.None? && report.changes == [])
            && (report.exitCode != 2 ==> report.observed == Some(report.changes != []))
            && report.exitCode <= 3
  {
    hide ValidateComparison;
    hide Ranked;
    hide Produced;
    hide QualityOf;
    hide TraceQuality;
    hide FailureQuality;
  }

  /** Status 0 and 1 occur only when both sides are trusted, and distinguish equality from difference. */
  lemma TrustedStatus(l: Load, r: Load, format: Format)
    ensures var report := Evaluate(l, r, format);
            && (report.exitCode == 0 <==>
                report.exitCode != 2 && Trusted(report.left) && Trusted(report.right) && report.changes == [])
            && (report.exitCode == 1 <==>
                report.exitCode != 2 && Trusted(report.left) && Trusted(report.right) && report.changes != [])
  {
    hide ValidateComparison;
    hide Ranked;
    hide Produced;
    hide QualityOf;
    hide TraceQuality;
    hide FailureQuality;
  }

  predicate SameMetadata(l: Metadata, r: Metadata) {
    && TargetExit(l) == TargetExit(r) && l.cwd == r.cwd && l.command == r.command
    && CaptureText(l) == CaptureText(r) && Environment(l) == Environment(r)
  }

  lemma NothingProduced(l: Run, r: Run, format: Format)
    ensures Ranked(Produced(l, r, format)) == [] <==> SameMetadata(l.metadata, r.metadata) && SameTuples(l, r, format)
  {
    hide MetadataChanges;
    hide ObservationChanges;
    hide TargetExit;
    hide CaptureText;
    hide Environment;
    hide SameTuples;
    MetadataSilent(l.metadata, r.metadata);
    NoChangeIffSameTuples(l, r, format);
    assert |Produced(l, r, format)| ==
           |MetadataChanges(l.metadata, r.metadata)| + |ObservationChanges(l, r, format)|;
    hide Ranked;
  }

  /** Trusted equality means exactly: both sides admitted and trusted, the same compared metadata, and
      the same set of (kind, operation, path, outcome) tuples. */
  lemma TrustedEquality(l: Run, r: Run, format: Format)
    ensures var report := CompareVersion(l, r, format);
            report.exitCode == 0 <==>
              && !RunFails(l) && !RunFails(r) && Trusted(report.left) && Trusted(report.right)
              && SameMetadata(l.metadata, r.metadata) && SameTuples(l, r, format)
  {
    hide ValidateComparison;
    hide QualityOf;
    hide TraceQuality;
    hide SameMetadata;
    hide SameTuples;
    hide Produced;
    hide FailureQuality;
    NothingProduced(l, r, format);
    hide Ranked;
  }

  /** Only an unfinalized side is withheld, so other sides admit the same tuples in every format. */
  lemma SameAdmission(l: Run, r: Run)
    requires l.storage != "unfinalized" && r.storage != "unfinalized"
    ensures SameTuples(l, r, OutcomeV6) <==> SameTuples(l, r, TraceV5)
  {
    assert forall key, o :: Saw(l, OutcomeV6, key, o) <==> Saw(l, TraceV5, key, o);
    assert forall key, o :: Saw(r, OutcomeV6, key, o) <==> Saw(r, TraceV5, key, o);
    hide Saw;
    if SameTuples(l, r, TraceV5) {
      forall key, o ensures Saw(l, OutcomeV6, key, o) <==> Saw(r, OutcomeV6, key, o) {
        assert Saw(l, TraceV5, key, o) <==> Saw(r, TraceV5, key, o);
      }
    }
    if SameTuples(l, r, OutcomeV6) {
      forall key, o ensures Saw(l, TraceV5, key, o) <==> Saw(r, TraceV5, key, o) {
        assert Saw(l, OutcomeV6, key, o) <==> Saw(r, OutcomeV6, key, o);
      }
    }
  }

  /** What one loaded pair's report says about trust. */
  lemma ComparedStatus(l: Run, r: Run, format: Format)
    requires !RunFails(l) && !RunFails(r) && !format.Automatic?
    ensures CompareVersion(l, r, format).exitCode ==
            StatusOf(TraceQuality(QualityOf(l), Some(l)), TraceQuality(QualityOf(r), Some(r)),
                     Ranked(Produced(l, r, format)) != [])
  {
    hide ValidateComparison;
    hide QualityOf;
    hide TraceQuality;
    hide Produced;
    hide Ranked;
  }

  lemma TrustedIsFinalized(run: Run)
    ensures Trusted(TraceQuality(QualityOf(run), Some(run))) ==> run.storage == "verified" && run.metadata.schemaVersion == 4
    ensures Trusted(TraceQuality(QualityOf(run), Some(run))) ==> Trusted(QualityOf(run))
    ensures run.metadata.schemaVersion == 4 || !Trusted(TraceQuality(QualityOf(run), Some(run)))
  {
  }

  /** Complete references never change a status: the explicit format agrees with trace reports on
      every input pair, although it withholds unfinalized observations. */
  lemma OutcomeStatusMatches(l: Load, r: Load)
    ensures Evaluate(l, r, OutcomeV6).exitCode == Evaluate(l, r, TraceV5).exitCode
  {
    hide ValidateComparison;
    hide QualityOf;
    hide TraceQuality;
    hide Produced;
    hide Ranked;
    hide FailureQuality;
    if l.Loaded? && r.Loaded? && !RunFails(l.run) && !RunFails(r.run) {
      ComparedStatus(l.run, r.run, OutcomeV6);
      ComparedStatus(l.run, r.run, TraceV5);
      TrustedIsFinalized(l.run);
      TrustedIsFinalized(r.run);
      NothingProduced(l.run, r.run, OutcomeV6);
      NothingProduced(l.run, r.run, TraceV5);
      hide SameTuples;
      hide SameMetadata;
      if l.run.storage != "unfinalized" && r.run.storage != "unfinalized" { SameAdmission(l.run, r.run); }
      hide CompareVersion;
      hide RunFails;
    }
  }

  /** Requiring trace reports only ever withdraws trust: same status as the automatic format, or 3. */
  lemma TraceStatusOnlyWithdraws(l: Load, r: Load)
    ensures var trace, automatic := Evaluate(l, r, TraceV5).exitCode, Evaluate(l, r, Automatic).exitCode;
            trace == automatic || trace == 3
  {
    hide ValidateComparison;
    hide FailureQuality;
    if l.Loaded? && r.Loaded? && !RunFails(l.run) && !RunFails(r.run) {
      ComparedStatus(l.run, r.run, TraceV5);
      TrustedIsFinalized(l.run);
      TrustedIsFinalized(r.run);
      AutomaticStatus(l.run, r.run);
      SameUnlessWithheld(l.run, r.run);
      hide Produced;
      hide Ranked;
      hide CompareVersion;
      hide RunFails;
      hide QualityOf;
      hide TraceQuality;
    }
  }

  lemma SameUnlessWithheld(l: Run, r: Run)
    ensures Ranked(Produced(l, r, TraceV5)) == [] <==> Ranked(Produced(l, r, Automatic)) == []
  {
    NothingProduced(l, r, TraceV5);
    NothingProduced(l, r, Automatic);
    hide SameMetadata;
    hide Produced;
    hide Ranked;
    forall key, o
      ensures Saw(l, TraceV5, key, o) <==> Saw(l, Automatic, key, o)
      ensures Saw(r, TraceV5, key, o) <==> Saw(r, Automatic, key, o)
    { }
    hide Saw;
    if SameTuples(l, r, TraceV5) {
      forall key, o ensures Saw(l, Automatic, key, o) <==> Saw(r, Automatic, key, o) {
        assert Saw(l, TraceV5, key, o) <==> Saw(r, TraceV5, key, o);
      }
    }
    if SameTuples(l, r, Automatic) {
      forall key, o ensures Saw(l, TraceV5, key, o) <==> Saw(r, TraceV5, key, o) {
        assert Saw(l, Automatic, key, o) <==> Saw(r, Automatic, key, o);
      }
    }
  }

  lemma AutomaticStatus(l: Run, r: Run)
    requires !RunFails(l) && !RunFails(r)
    ensures var trace := l.metadata.schemaVersion == 4 || r.metadata.schemaVersion == 4;
            CompareVersion(l, r, Automatic).exitCode ==
            StatusOf(if trace then TraceQuality(QualityOf(l), Some(l)) else QualityOf(l),
                     if trace then TraceQuality(QualityOf(r), Some(r)) else QualityOf(r),
                     Ranked(Produced(l, r, Automatic)) != [])
  {
    hide ValidateComparison;
    hide QualityOf;
    hide TraceQuality;
    hide Produced;
    hide Ranked;
  }

  // ---------- the report, as it is assembled ----------

  /** Append metadata changes in production order: fixed facts, then every differing variable. */
  method AppendMetadataChanges(l: Metadata, r: Metadata) returns (changes: seq<MetaKind>)
    ensures changes == MetadataChanges(l, r)
  {
    LexStrictTotal();
    hide LexLess;
    changes := [];
    if TargetExit(l) != TargetExit(r) { changes := changes + [ExitStatus]; }
    if l.cwd != r.cwd { changes := changes + [InitialWorkingDirectory]; }
    if l.command != r.command { changes := changes + [CommandArguments]; }
    if CaptureText(l) != CaptureText(r) { changes := changes + [CaptureCompleteness]; }
    assert changes == FixedChanges(l, r);
    var keys := Enumerate(DifferingVariables(l, r), LexLess);
    changes := changes + Variables(keys);
  }

  /** Assign ranks in production order, then sort by them. */
  method RankChanges(changes: seq<Change>) returns (ranked: seq<Change>)
    ensures ranked == Ranked(changes)
  {
    RanksStrictTotal(changes);
    var order := Enumerate<nat>(Below(|changes|), Ranks(changes));
    assert order == RankOrder(changes);
    assert forall x :: 0 <= x < |order| ==> order[x] in order;
    ranked := Picked(changes, order);
  }

  /** Build a report from two loaded runs and the verdicts of their contract checks. */
  method Compare(l: Run, r: Run, format: Format, leftCheck: Check, rightCheck: Check) returns (report: Report)
    requires leftCheck == ValidateComparison(l) && rightCheck == ValidateComparison(r)
    ensures report == CompareVersion(l, r, format)
  {
    hide ValidateComparison;
    hide MetadataChanges;
    hide ObservationChanges;
    hide Ranked;
    var trace := TraceReport(format, Loaded(l), Loaded(r));
    if leftCheck.Fail? || rightCheck.Fail? || RawFailed(l) || RawFailed(r) {
      var left := if leftCheck.Fail? then Unloaded(leftCheck.kind) else Loaded(l);
      var right := if rightCheck.Fail? then Unloaded(rightCheck.kind) else Loaded(r);
      report := Report(4, None, SideQuality(left), SideQuality(right), 2, [], None);
      report := Versioned(report, format, trace, SideRun(left), SideRun(right));
      return;
    }
    report := Report(4, None, QualityOf(l), QualityOf(r), 3, [], None);
    report := Versioned(report, format, trace, Some(l), Some(r));
    var metadata := AppendMetadataChanges(l.metadata, r.metadata);
    var observations := CompareObservations(l, r, format);
    var changes := RankChanges(MetaChanges(metadata) + ObservedChanges(observations));
    report := report.(changes := changes, observed := Some(changes != []));
    report := report.(exitCode := StatusOf(report.left, report.right, changes != []));
  }

  // ---------- published records can be compared ----------

  lemma ReadableMetadata(m: Metadata)
    requires ValidateMetadata(m) == Pass && m.schemaVersion >= 3
    ensures m.environment.Some? && m.completeness.Some?
  {
    hide ValidateTraceClaims;
    hide StateFacts;
    hide CollectorConfirms;
  }

  lemma ReadableFacts(m: Metadata, f: Facts)
    requires ValidateFacts(m, f, true) == Pass && m.schemaVersion == 4
    ensures ValidateMetadata(m) == Pass && !f.hasNonV3 && m.state != "running"
  {
    hide ValidateMetadata;
  }

  /** A trace-v1 record that the saved-run contract and its parsed receipt admit is never a failed
      comparison input: a published record can always be compared. */
  lemma PublishedIsComparable(m: Metadata, events: seq<Event>, manifest: RawManifest)
    requires m.schemaVersion == 4 && ValidateRun(m, events, true) == Pass
    requires ValidateManifest(manifest, m) == Pass && manifest.receipt.Parsed?
    ensures !RunFails(Run(m, events, "verified", Some(RawIntegrity("verified", Some(manifest)))))
  {
    hide ValidateMetadata;
    hide ValidateFacts;
    hide ValidateTraceProvenance;
    hide ValidateManifest;
    hide FactsOf;
    VersionFactsMeaning(events, 0);
    ReadableFacts(m, FactsOf(events));
    ReadableMetadata(m);
    assert forall i :: 0 <= i < |events| ==> events[i] in events;
  }
}
