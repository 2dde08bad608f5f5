/** Reduction of observed capture facts to the outcome fields of a record.

    Every fact was observed elsewhere. Reduction only orders warnings and decides state,
    completeness and the recorder's own exit code.
 */
module Reduction {
  import opened Ordered
  import opened Spelling
  import opened Records
  import opened Provenance

  datatype CollectorFacts =
    | Reaped(exit: ProcessExit)
    | NotStarted(reason: string)
    | Failed(reason: string)

  /** What a wait status can carry. */
  predicate InRange(exit: ProcessExit) {
    match exit
    case Exited(code) => 0 <= code <= 255
    case Signaled(signal) => 1 <= signal <= 64
    case Unknown => true
  }

  predicate CollectorInRange(c: CollectorFacts) { c.Reaped? ==> InRange(c.exit) }

  datatype RecorderStop = NoSignal | StoppedBy(signal: int)

  datatype ByteExcess = ByteExcess(observed: nat, limit: nat)

  datatype Limits = Limits(duration: Option<nat>, traceBytes: Option<ByteExcess>) {
    predicate Exceeded() { duration.Some? || traceBytes.Some? }
  }

  /** Independently observed policy limits. Both facts latch. */
  class LimitFacts {
    var duration: Option<nat>
    var traceBytes: Option<ByteExcess>

    constructor ()
      ensures Facts() == Limits(None, None)
    {
      duration, traceBytes := None, None;
    }

    function Facts(): Limits
      reads this
    {
      Limits(duration, traceBytes)
    }

    /** A recorded excess was really above its limit. */
    predicate Valid()
      reads this
    {
      traceBytes.Some? ==> traceBytes.value.observed > traceBytes.value.limit
    }

    method ObserveDuration(limit: nat) returns (first: bool)
      requires Valid()
      modifies this`duration
      ensures Valid()
      ensures first == old(duration).None?
      ensures duration == (if first then Some(limit) else old(duration))
    {
      if duration.Some? {
        first := false;
      } else {
        duration := Some(limit);
        first := true;
      }
    }

    method ObserveTraceBytes(observed: nat, limit: nat) returns (first: bool)
      requires Valid()
      modifies this`traceBytes
      ensures Valid()
      ensures first == (old(traceBytes).None? && traceBytes.Some?)
      ensures traceBytes == (if observed > limit then Some(ByteExcess(observed, limit)) else old(traceBytes))
    {
      if observed <= limit {
        return false;
      }
      first := traceBytes.None?;
      traceBytes := Some(ByteExcess(observed, limit));
    }
  }

  datatype Target = Target(raw: string, outcome: ProcessExit)

  datatype Contract = StructuredV3 | TraceV1

  function DecodeTarget(raw: string, contract: Contract): Target {
    Target(raw, if contract.TraceV1? then TraceV1Exit(raw) else LegacyExit(raw))
  }

  datatype Input = Input(
    target: Option<Target>, missing: seq<Label>, collector: CollectorFacts, recorder: RecorderStop,
    limits: Limits, supervisionError: Option<string>, warnings: seq<string>, readError: Option<string>)

  datatype CaptureState = Completed | CaptureFailed | Interrupted

  datatype Completeness = CompleteForSupported | Partial | Incomplete

  datatype Decision = Decision(
    target: Option<Target>, collector: CollectorFacts, recorder: RecorderStop, limits: Limits,
    supervisionError: Option<string>, state: CaptureState, completeness: Completeness,
    warnings: seq<string>, cliExit: int)

  function WhenSome(text: Option<string>): seq<string> {
    match text case Some(t) => [t] case None => []
  }

  function When(flag: bool, text: string): seq<string> { if flag then [text] else [] }

  predicate UnreadSignal(target: Option<Target>) {
    target.Some? && KILLED <= target.value.raw && target.value.outcome.Unknown?
  }

  /** Whether a reaped collector confirms the target; absent when either is not comparable. */
  function Confirmation(target: Option<Target>, exit: ProcessExit): Option<bool> {
    match target
    case Some(Target(_, Exited(code))) => Some(exit == Exited(code))
    case Some(Target(_, Signaled(signal))) => Some(exit == Signaled(signal))
    case _ => None
  }

  function CollectorWarnings(target: Option<Target>, collector: CollectorFacts): seq<string> {
    match collector
    case Reaped(exit) =>
      When(exit.Unknown? || Confirmation(target, exit) == Some(false),
           "collector status does not confirm target completion")
    case NotStarted(reason) => [reason]
    case Failed(reason) => [reason]
  }

  function LimitWarnings(limits: Limits): seq<string> {
    When(limits.duration.Some?, "capture duration limit exceeded") +
    When(limits.traceBytes.Some?, "capture trace byte limit exceeded")
  }

  function ReducedWarnings(input: Input): seq<string> {
    input.warnings
    + When(input.readError.Some?, "cannot read trace")
    + When(UnreadSignal(input.target), "unrecognized target termination signal")
    + When(input.missing != [], "process completion not observed for PIDs")
    + When(input.target.None?, "root process completion not observed; capture incomplete")
    + CollectorWarnings(input.target, input.collector)
    + LimitWarnings(input.limits)
    + WhenSome(input.supervisionError)
  }

  function CliExit(exit: ProcessExit): Option<int> {
    match exit
    case Exited(code) => Some(code)
    case Signaled(signal) => Some(128 + signal)
    case Unknown => None
  }

  function OrElse(first: Option<int>, second: Option<int>): Option<int> {
    if first.Some? then first else second
  }

  /** Classify already-observed facts. */
  function Reduce(input: Input): Decision {
    var target := input.target;
    var outcome := match target case Some(t) => t.outcome case None => Unknown;
    var failed := !input.collector.Reaped?;
    var unknown := input.collector == Reaped(Unknown);
    var refuted := input.collector.Reaped? && Confirmation(target, input.collector.exit) == Some(false);
    var warnings := ReducedWarnings(input);
    var state :=
      if input.recorder.StoppedBy? then Interrupted
      else if target.None? || failed || unknown || input.limits.Exceeded() ||
              input.supervisionError.Some? || refuted then CaptureFailed
      else Completed;
    var completeness :=
      if state != Completed then Incomplete
      else if warnings == [] then CompleteForSupported
      else Partial;
    var collectorExit := if input.collector.Reaped? then CliExit(input.collector.exit) else None;
    var exit :=
      if input.recorder.StoppedBy? then 128 + input.recorder.signal
      else if state == CaptureFailed then 125
      else match OrElse(CliExit(outcome), collectorExit) case Some(code) => code case None => 125;
    Decision(target, input.collector, input.recorder, input.limits, input.supervisionError,
             state, completeness, warnings, exit)
  }

  function StateName(state: CaptureState): string {
    match state
    case Completed => "completed"
    case CaptureFailed => "capture_failed"
    case Interrupted => "interrupted"
  }

  function CompletenessName(completeness: Completeness): string {
    match completeness
    case CompleteForSupported => COMPLETE
    case Partial => "partial"
    case Incomplete => "incomplete"
  }

  function TargetFields(target: Option<Target>): Fields {
    match target case Some(t) => MetadataFields(t.outcome) case None => Fields(None, None)
  }

  function CollectorFields(collector: CollectorFacts): Fields {
    if collector.Reaped? then MetadataFields(collector.exit) else Fields(None, None)
  }

  /** Outcome fields of the saved metadata; identity, counts and provenance are not touched. */
  function ApplyToMetadata(d: Decision, m: Metadata): Metadata {
    var target := TargetFields(d.target);
    var collector := CollectorFields(d.collector);
    m.(exitCode := target.code, signal := target.signal,
       collectorExitCode := collector.code, collectorSignal := collector.signal,
       targetExitRaw := (match d.target case Some(t) => Some(t.raw) case None => None),
       state := StateName(d.state), completeness := Some(CompletenessName(d.completeness)),
       warnings := d.warnings)
  }

  // ---------- what a decision means ----------

  /** Every observation agrees and no policy limit or supervision error intervened. */
  predicate Confirmed(input: Input) {
    && input.target.Some?
    && input.collector.Reaped? && !input.collector.exit.Unknown?
    && (input.target.value.outcome.Unknown? || input.target.value.outcome == input.collector.exit)
    && !input.limits.Exceeded() && input.supervisionError.None?
  }

  /** No limitation was observed anywhere. */
  predicate Unlimited(input: Input) {
    && input.warnings == [] && input.readError.None? && input.missing == []
    && !UnreadSignal(input.target)
  }

  /** Warnings are silent exactly when nothing limited the capture. */
  lemma SilentMeaning(input: Input)
    ensures ReducedWarnings(input) == [] <==>
            && Unlimited(input) && input.target.Some? && CollectorWarnings(input.target, input.collector) == []
            && !input.limits.Exceeded() && input.supervisionError.None?
  {
    hide CollectorWarnings;
    hide UnreadSignal;
    assert |ReducedWarnings(input)| ==
           |input.warnings| + |When(input.readError.Some?, "cannot read trace")|
           + |When(UnreadSignal(input.target), "unrecognized target termination signal")|
           + |When(input.missing != [], "process completion not observed for PIDs")|
           + |When(input.target.None?, "root process completion not observed; capture incomplete")|
           + |CollectorWarnings(input.target, input.collector)|
           + |LimitWarnings(input.limits)| + |WhenSome(input.supervisionError)|;
  }

  lemma ConfirmationMeaning(target: Option<Target>, exit: ProcessExit)
    requires target.Some?
    ensures Confirmation(target, exit) == Some(false) <==> !target.value.outcome.Unknown? && target.value.outcome != exit
    ensures CollectorWarnings(target, Reaped(exit)) == [] <==>
            !exit.Unknown? && (target.value.outcome.Unknown? || target.value.outcome == exit)
  {
  }

  /** States, completeness and exit code in terms of the observations alone. A recorder signal decides
      the state and exit code but never hides another fact. */
  lemma DecisionMeaning(input: Input)
    ensures var d := Reduce(input);
            && (d.state == Interrupted <==> input.recorder.StoppedBy?)
            && (d.state == Completed <==> input.recorder.NoSignal? && Confirmed(input))
            && (d.completeness == CompleteForSupported <==>
                input.recorder.NoSignal? && Confirmed(input) && Unlimited(input))
            && (d.limits.Exceeded() ==> d.state != Completed)
            && (d.completeness != CompleteForSupported && input.recorder.NoSignal? ==> d.warnings != [])
            && (d.state == CaptureFailed ==> d.cliExit == 125)
            && (input.recorder.StoppedBy? ==> d.cliExit == 128 + input.recorder.signal)
  {
    SilentMeaning(input);
    if input.target.Some? && input.collector.Reaped? { ConfirmationMeaning(input.target, input.collector.exit); }
    hide ReducedWarnings;
    hide Unlimited;
    hide Confirmation;
    hide CliExit;
  }

  /** The recorder's exit code is the target's own whenever the run completed and it is readable, the
      collector's otherwise: a code as it is, a signal as 128 plus its number. */
  lemma CompletedExitIsTheTargets(input: Input)
    requires Reduce(input).state == Completed
    ensures var shown := if input.target.value.outcome.Unknown? then input.collector.exit else input.target.value.outcome;
            match shown
            case Exited(code) => Reduce(input).cliExit == code
            case Signaled(signal) => Reduce(input).cliExit == 128 + signal
            case Unknown => false
  {
    DecisionMeaning(input);
    hide ReducedWarnings;
  }

  /** Parts of a concatenation: the first is its prefix, the last its end, and each part's content is kept. */
  lemma Parts(a: seq<string>, b: seq<string>, c: seq<string>, d: seq<string>, e: seq<string>)
    ensures var all := a + b + c + d + e;
            && a <= all && (e != [] ==> all != [] && all[|all| - 1] == e[|e| - 1])
            && (forall w :: w in c || w in d ==> w in all)
  {
    var all := a + b + c + d + e;
    forall i | 0 <= i < |c| ensures c[i] in all { assert all[|a| + |b| + i] == c[i]; }
    forall i | 0 <= i < |d| ensures d[i] in all { assert all[|a| + |b| + |c| + i] == d[i]; }
  }

  lemma ReducedParts(input: Input)
    ensures var middle :=
              When(input.readError.Some?, "cannot read trace")
              + When(UnreadSignal(input.target), "unrecognized target termination signal")
              + When(input.missing != [], "process completion not observed for PIDs")
              + When(input.target.None?, "root process completion not observed; capture incomplete");
            ReducedWarnings(input) ==
            input.warnings + middle + CollectorWarnings(input.target, input.collector)
            + LimitWarnings(input.limits) + WhenSome(input.supervisionError)
  {
    hide UnreadSignal;
    hide CollectorWarnings;
    hide LimitWarnings;
    hide WhenSome;
    hide When;
  }

  lemma LimitsWarn(limits: Limits)
    ensures limits.duration.Some? ==> "capture duration limit exceeded" in LimitWarnings(limits)
    ensures limits.traceBytes.Some? ==> "capture trace byte limit exceeded" in LimitWarnings(limits)
  {
    var w := LimitWarnings(limits);
    if limits.duration.Some? { assert w[0] == "capture duration limit exceeded"; }
    if limits.traceBytes.Some? { assert w[|w| - 1] == "capture trace byte limit exceeded"; }
  }

  /** Precedence never erases a fact: every observation is carried unchanged, the parser's warnings stay
      first, the supervision error stays last, and each limitation has its warning. */
  lemma FactsKept(input: Input)
    ensures var d := Reduce(input);
            && d.target == input.target && d.collector == input.collector && d.recorder == input.recorder
            && d.limits == input.limits && d.supervisionError == input.supervisionError
            && input.warnings <= d.warnings
            && (input.supervisionError.Some? ==>
                  d.warnings != [] && d.warnings[|d.warnings| - 1] == input.supervisionError.value)
            && (input.collector.NotStarted? || input.collector.Failed? ==> input.collector.reason in d.warnings)
            && (input.limits.duration.Some? ==> "capture duration limit exceeded" in d.warnings)
            && (input.limits.traceBytes.Some? ==> "capture trace byte limit exceeded" in d.warnings)
  {
    hide Confirmation;
    hide UnreadSignal;
    hide CliExit;
    hide LimitWarnings;
    hide When;
    hide ReducedWarnings;
    var middle :=
      When(input.readError.Some?, "cannot read trace")
      + When(UnreadSignal(input.target), "unrecognized target termination signal")
      + When(input.missing != [], "process completion not observed for PIDs")
      + When(input.target.None?, "root process completion not observed; capture incomplete");
    ReducedParts(input);
    LimitsWarn(input.limits);
    Parts(input.warnings, middle, CollectorWarnings(input.target, input.collector), LimitWarnings(input.limits),
          WhenSome(input.supervisionError));
  }
}
