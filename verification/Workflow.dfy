/** The whole recording workflow, from signal acquisition to the published record.

    The trace's contents, every system call's result and the moment of each signal are arbitrary.
    The row parser and the path-context pass enter as functions with stated promises.
 */
module Workflow {
  import opened Ordered
  import opened Text
  import opened Spelling
  import opened Records
  import opened TraceRows
  import opened Timeline
  import opened Lifetimes
  import opened Agreement
  import opened LifetimeLaws
  import opened Provenance
  import opened Findings
  import opened Reduction
  import opened WriterReader
  import opened OutcomeLaws
  import opened Recorder
  import opened Reader
  import opened Signals
  import opened Collector
  import opened Supervision
  import opened Probe

  // ---------- the parser ----------

  datatype SpawnEffect = SharedFs | PrivateFs | PrivateFsNamespaceUncertain | UnknownSpawn

  datatype UnshareEffect = NoFsChange | SplitFs | SplitFsNamespaceUncertain | ConnectedFsNamespaceUncertain | UnknownUnshare

  datatype InvalidationScope = ConnectedFs | AllActiveContexts

  /** What a row did to filesystem contexts, decoded beside the row. */
  datatype FsAction =
    | NoAction
    | ChangedCwd
    | Spawned(spawn: SpawnEffect)
    | Unshared(unshare: UnshareEffect)
    | Invalidated(scope: InvalidationScope)
    | Exits

  /** Rows with their actions and syntax warnings, and the path-context pass over marked rows, their actions
      and the timeline, starting in the initial directory. */
  datatype Parser = Parser(
    initialCwd: Option<string>,
    rows: seq<nat> -> seq<Event>, actions: seq<nat> -> seq<FsAction>, syntax: seq<nat> -> seq<string>,
    resolve: (Option<string>, seq<Event>, seq<FsAction>, Builder) -> (seq<Event>, seq<string>))
  {
    function Resolution(data: seq<nat>, marked: seq<Event>, t: Builder): (seq<Event>, seq<string>) {
      resolve(initialCwd, marked, actions(data), t)
    }
  }

  /** Rows marked by the identity pass of their own timeline. */
  ghost predicate Marked(raw: seq<Event>, marked: seq<Event>, t: Builder) {
    EvidenceOrderVisits(raw);
    var order := EvidenceOrder(raw);
    t == BuildTo(Along(raw, order), order, |order|) && Fits(t, raw, order) && Identified(raw, marked, t, order)
  }

  ghost predicate ResolvesWell(p: Parser, data: seq<nat>, marked: seq<Event>, t: Builder) {
    var (resolved, added) := p.Resolution(data, marked, t);
    && ContextResolved(marked, resolved, Quiet(t, added))
    && forall i :: 0 <= i < |resolved| ==> Normalized(resolved[i], |LogicalLines(data)|)
  }

  ghost predicate ParsesWell(p: Parser, data: seq<nat>) {
    && |p.actions(data)| == |p.rows(data)|
    && (forall i :: 0 <= i < |p.rows(data)| ==> !p.rows(data)[i].contextUncertain)
    && forall marked, t :: Marked(p.rows(data), marked, t) ==> ResolvesWell(p, data, marked, t)
  }

  /** Rows start without uncertainty, context resolution keeps its relation, and an empty trace has none. */
  ghost predicate Promises(p: Parser) {
    (forall data :: ParsesWell(p, data)) && p.rows([]) == [] && p.syntax([]) == []
  }

  lemma ParsedFrom(p: Parser, data: seq<nat>, marked: seq<Event>, t: Builder, order: seq<nat>, identity: seq<string>)
    requires ParsesWell(p, data) && order == EvidenceOrder(p.rows(data)) && Fits(t, p.rows(data), order)
    requires t == BuildTo(Along(p.rows(data), order), order, |order|) && Identified(p.rows(data), marked, t, order)
    requires |identity| == UntrustedCount(t.generations)
    ensures var (resolved, added) := p.Resolution(data, marked, t);
            ParsedTrace(p.rows(data), marked, resolved, t, order, p.syntax(data) + identity + added, |LogicalLines(data)|)
  {
    hide EvidenceOrder;
    hide BuildTo;
    hide Fits;
    hide Identified;
    hide ContextResolved;
    hide Normalized;
    hide Quiet;
    assert Marked(p.rows(data), marked, t);
    assert ResolvesWell(p, data, marked, t);
    var (resolved, added) := p.Resolution(data, marked, t);
    assert WarnedBy(t, p.syntax(data) + identity + added, added);
  }

  /** Rows, timeline, identity marks, then path context. */
  method ParseTrace(p: Parser, data: seq<nat>)
    returns (resolved: seq<Event>, t: Builder, order: seq<nat>, warnings: seq<string>, ghost raw: seq<Event>,
             ghost marked: seq<Event>)
    requires Promises(p)
    ensures ParsedTrace(raw, marked, resolved, t, order, warnings, |LogicalLines(data)|)
    ensures raw == p.rows(data) && |resolved| == |p.rows(data)| && (data == [] ==> raw == [] && resolved == [])
    ensures forall contract :: Savable(contract, resolved) <==> Savable(contract, p.rows(data))
    ensures RowsKept(p.rows(data), resolved) && p.syntax(data) <= warnings
  {
    assert ParsesWell(p, data);
    hide ParsesWell;
    hide ParsedTrace;
    hide EvidenceOrder;
    hide BuildTo;
    hide Fits;
    hide Identified;
    hide TaskIdsSaved;
    hide Spelled;
    hide RowsKept;
    hide LogicalLines;
    var rows := p.rows(data);
    raw := rows;
    var marks, identity;
    order, t, marks, identity := Identify(rows);
    marked := marks;
    ParsedFrom(p, data, marks, t, order, identity);
    var pair := p.Resolution(data, marks, t);
    resolved, warnings := pair.0, p.syntax(data) + identity + pair.1;
    ParsedKept(raw, marked, resolved, t, order, warnings, |LogicalLines(data)|);
    KeptSpelling(raw, resolved);
    KeptLength(raw, resolved);
    Leads(p.syntax(data), identity, pair.1);
  }

  lemma Leads(a: seq<string>, b: seq<string>, c: seq<string>)
    ensures a <= a + b + c
  {
  }

  /** Identity marks and path context only add doubt and the directory. */
  lemma ParsedKept(raw: seq<Event>, marked: seq<Event>, resolved: seq<Event>, t: Builder, order: seq<nat>,
                   warnings: seq<string>, lines: nat)
    requires ParsedTrace(raw, marked, resolved, t, order, warnings, lines)
    ensures RowsKept(raw, resolved)
  {
    ResolvedRow(raw, marked, resolved, t, order, warnings, lines);
    hide EvidenceOrder;
    hide BuildTo;
    hide Normalized;
    hide WarnedBy;
    hide SameObservations;
    var quiet :| ContextResolved(marked, resolved, quiet);
    forall i | 0 <= i < |raw| ensures RowKept(raw[i], resolved[i]) {
      assert EventResolved(marked[i], resolved[i], quiet);
      assert RaisedAt(raw[i], marked[i], ActsUntrusted(t, order, |order|, i) || ExposesUntrusted(t, |t.generations|, i));
    }
  }

  /** So they change no row's task IDs, kind or spelling. */
  lemma KeptSpelling(raw: seq<Event>, saved: seq<Event>)
    requires RowsKept(raw, saved)
    ensures TaskIdsSaved(saved) == TaskIdsSaved(raw) && Spelled(saved) == Spelled(raw)
  {
    hide SavedSpelling;
    hide IsTaskId;
    assert forall i :: 0 <= i < |raw| ==> RowKept(raw[i], saved[i]);
  }

  // ---------- finishing ----------

  datatype Outcome =
    | Refused(unquiesced: bool)
    | Rejected
    | Published(metadata: Metadata, events: seq<Event>, manifest: Option<RawManifest>, cliExit: int)
    | Unfinished

  /** The receipt speaks about the bytes that were parsed, or nothing was. */
  predicate ReceiptOf(receipt: RawReceipt, data: seq<nat>) {
    match receipt
    case Parsed(bytes, lines, sha256) => bytes == |data| && lines == |LogicalLines(data)| && Sha256Text(sha256)
    case Unverified(reason) => reason != "" && data == []
  }

  lemma ExitsOf(raw: seq<Event>, t: Builder, order: seq<nat>)
    requires Visits(raw, order) && t == BuildTo(Along(raw, order), order, |order|)
    ensures ExitsKnown(t, raw)
  {
    hide BuildTo;
    hide Sound;
    hide Chronological;
    hide ExitsLocated;
    hide Located;
    BuildHistory(Along(raw, order), order, |order|);
    forall g | 0 <= g < |t.generations| && t.generations[g].exitEvent.Some?
      ensures var i := t.generations[g].exitEvent.value; i < |raw| && raw[i].kind == "exit"
    {
      ExitBounded(t, raw, order, g);
    }
  }

  lemma SameExits(raw: seq<Event>, resolved: seq<Event>, t: Builder)
    requires ExitsKnown(t, raw) && SameObservations(raw, resolved)
    ensures ExitsKnown(t, resolved)
  {
    forall g | 0 <= g < |t.generations| && t.generations[g].exitEvent.Some?
      ensures var i := t.generations[g].exitEvent.value; i < |resolved| && resolved[i].kind == "exit"
    {
      assert SameObservation(raw[t.generations[g].exitEvent.value], resolved[t.generations[g].exitEvent.value]);
    }
  }

  lemma ParsedFits(raw: seq<Event>, marked: seq<Event>, resolved: seq<Event>, t: Builder, order: seq<nat>,
                   warnings: seq<string>, lines: nat)
    requires ParsedTrace(raw, marked, resolved, t, order, warnings, lines)
    ensures EvidenceOrder(resolved) == order && Fits(t, resolved, order) && |resolved| == |raw|
    ensures ExitsKnown(t, resolved)
  {
    ResolvedRow(raw, marked, resolved, t, order, warnings, lines);
    hide EvidenceOrder;
    hide BuildTo;
    hide Identified;
    hide SameObservations;
    hide ExitsKnown;
    SameOrder(raw, resolved);
    ExitsOf(raw, t, order);
    SameExits(raw, resolved, t);
  }

  /** Binding changes no row's task IDs, kind or spelling. */
  lemma BoundSpelling(resolved: seq<Event>, bound: seq<Event>, t: Builder, order: seq<nat>)
    requires order == EvidenceOrder(resolved) && Fits(t, resolved, order) && Bound(resolved, bound, t, order)
    ensures Savable(TraceV1, bound) <==> Savable(TraceV1, resolved)
  {
    BoundKept(resolved, bound, t, order);
    KeptSpelling(resolved, bound);
    hide TaskIdsSaved;
    hide Spelled;
  }

  lemma SavableMeans(contract: Contract, events: seq<Event>)
    ensures Savable(contract, events) <==> TaskIdsSaved(events) && (contract.TraceV1? ==> Spelled(events))
  {
  }

  /** Written rows have the parse's order and timeline. */
  lemma BoundTimeline(raw: seq<Event>, marked: seq<Event>, resolved: seq<Event>, events: seq<Event>, t: Builder,
                      order: seq<nat>, warnings: seq<string>, lines: nat, contract: Contract)
    requires ParsedTrace(raw, marked, resolved, t, order, warnings, lines) && Fits(t, resolved, order)
    requires if contract.TraceV1? then Bound(resolved, events, t, order) else events == resolved
    ensures EvidenceOrder(events) == order && Visits(events, order) && |order| == |t.actors| == |events|
    ensures t == BuildTo(Along(events, order), order, |order|)
    ensures forall a :: 0 <= a < |order| ==> t.actors[a] < |t.generations|
  {
    hide BuildTo;
    hide ParsedTrace;
    ResolvedRow(raw, marked, resolved, t, order, warnings, lines);
    ParsedOrder(raw, marked, resolved, t, order, warnings, lines);
    SameOrder(raw, resolved);
    SameTimeline(Along(raw, order), Along(resolved, order), order, |order|);
    hide EvidenceOrder;
    if contract.TraceV1? {
      BoundParse(raw, marked, resolved, events, t, order, warnings, lines);
      TimelineMeans(events, t, order);
    }
  }

  lemma ParsedOrder(raw: seq<Event>, marked: seq<Event>, resolved: seq<Event>, t: Builder, order: seq<nat>,
                    warnings: seq<string>, lines: nat)
    requires ParsedTrace(raw, marked, resolved, t, order, warnings, lines) && |resolved| == |raw|
    requires SameObservations(raw, resolved)
    ensures order == EvidenceOrder(raw) && Visits(raw, order) && t == BuildTo(Along(raw, order), order, |order|)
    ensures SameObservations(Along(raw, order), Along(resolved, order))
  {
    hide BuildTo;
    hide EvidenceOrder;
    hide Identified;
    hide Normalized;
    hide WarnedBy;
    hide ContextResolved;
  }

  lemma TimelineMeans(events: seq<Event>, t: Builder, order: seq<nat>)
    requires order == EvidenceOrder(events) && t == TimelineOf(events) && Visits(events, order)
    ensures t == BuildTo(Along(events, order), order, |order|)
  {
    hide BuildTo;
    hide EvidenceOrder;
  }

  lemma BoundKept(resolved: seq<Event>, bound: seq<Event>, t: Builder, order: seq<nat>)
    requires order == EvidenceOrder(resolved) && Fits(t, resolved, order) && Bound(resolved, bound, t, order)
    ensures RowsKept(resolved, bound)
  {
    forall i | 0 <= i < |bound| ensures RowKept(resolved[i], bound[i]) {
      assert i in order;
      var a :| 0 <= a < |order| && order[a] == i;
    }
  }

  /** Whatever was observed, the frozen record passes the reader's own check exactly when its task IDs are
      saved ones and, for trace-v1, its exit rows are spelled in the saved vocabulary. */
  lemma FrozenIsRead(raw: seq<Event>, marked: seq<Event>, resolved: seq<Event>, events: seq<Event>, t: Builder,
                     order: seq<nat>, lines: nat, m0: Metadata, ended: nat, o: Observations, contract: Contract,
                     c: Completion, m: Metadata)
    requires ParsedTrace(raw, marked, resolved, t, order, o.warnings, lines) && Fits(t, resolved, order)
    requires Started(m0, contract) && CollectorInRange(o.collector)
    requires if contract.TraceV1? then Bound(resolved, events, t, order) else events == resolved
    requires Visits(events, order) && |order| == |t.actors| && forall a :: 0 <= a < |order| ==> t.actors[a] < |t.generations|
    requires c == CompletionOf(t, Along(events, order), order) && InBounds(c, t, events)
    requires m == Written(m0, contract, events, t, c, lines, ended, o)
    ensures ValidateRun(m, events, true) == Pass <==> Savable(contract, events)
  {
    hide *;
    SavableMeans(contract, events);
    if contract.TraceV1? {
      var c1, m1 := TraceRecordIsRead(raw, marked, resolved, events, t, order, lines, m0, ended, o);
    } else {
      assert contract == StructuredV3;
      var c1, m1 := StructuredRecordIsRead(raw, marked, resolved, t, order, lines, m0, ended, o);
    }
  }

  lemma WrittenStates(m0: Metadata, contract: Contract, events: seq<Event>, t: Builder, c: Completion, lines: nat,
                      ended: nat, o: Observations, m: Metadata)
    requires InBounds(c, t, events) && m == Written(m0, contract, events, t, c, lines, ended, o)
    ensures m.state == "interrupted" <==> o.recorder.StoppedBy?
    ensures m.schemaVersion == m0.schemaVersion && m.id == m0.id && m.rawLines == lines
    ensures o.recorder.StoppedBy? ==> Reduce(InputOf(c, events, contract, o)).cliExit == 128 + o.recorder.signal
  {
    DecisionMeaning(InputOf(c, events, contract, o));
    hide ReducedWarnings;
    hide ProvenanceOf;
    hide Confirmed;
    hide Unlimited;
    hide CliExit;
  }

  /** A published record is the account of one capture: its identity is the draft's, its rows the parsed ones,
      its outcome and warnings the observed facts', its target the one the rows show. */
  ghost predicate Accounted(outcome: Outcome, m0: Metadata, rows: seq<Event>, lines: nat, ended: nat, o: Observations)
    requires outcome.Published?
  {
    && KeepsIdentity(m0, outcome.metadata) && RowsKept(rows, outcome.events)
    && Tells(outcome.metadata, outcome.cliExit, o)
    && TargetTold(outcome.metadata, rows) && TargetNumbered(outcome.metadata)
    && outcome.metadata.parsedEvents == |rows| && outcome.metadata.rawLines == lines
    && outcome.metadata.ended == Some(ended)
  }

  lemma WrittenAccounted(m0: Metadata, contract: Contract, resolved: seq<Event>, events: seq<Event>, t: Builder,
                         order: seq<nat>, c: Completion, lines: nat, ended: nat, o: Observations, m: Metadata,
                         manifest: Option<RawManifest>, exit: int)
    requires RowsKept(resolved, events) && order == EvidenceOrder(events) && Visits(events, order)
    requires t == BuildTo(Along(events, order), order, |order|)
    requires |t.actors| == |order| && forall a :: 0 <= a < |order| ==> t.actors[a] < |t.generations|
    requires c == CompletionOf(t, Along(events, order), order) && InBounds(c, t, events)
    requires m == Written(m0, contract, events, t, c, lines, ended, o)
    requires exit == Reduce(InputOf(c, events, contract, o)).cliExit
    ensures Accounted(Published(m, events, manifest, exit), m0, resolved, lines, ended, o)
  {
    hide *;
    WrittenTells(m0, contract, events, t, c, lines, ended, o, m);
    WrittenKeeps(m0, contract, events, t, c, lines, ended, o, m);
    WrittenNumbers(m0, contract, events, t, c, lines, ended, o, m);
    WrittenTarget(m0, contract, events, t, order, lines, ended, o, c, m);
    TargetKept(m, resolved, events);
    KeptLength(resolved, events);
    AccountedFrom(Published(m, events, manifest, exit), m0, resolved, lines, ended, o);
  }

  lemma AlwaysKept(rows: seq<Event>)
    ensures RowsKept(rows, rows)
  {
  }

  lemma KeptLength(raw: seq<Event>, saved: seq<Event>)
    requires RowsKept(raw, saved)
    ensures |raw| == |saved|
  {
  }

  lemma AccountedFrom(outcome: Outcome, m0: Metadata, rows: seq<Event>, lines: nat, ended: nat, o: Observations)
    requires outcome.Published?
    requires KeepsIdentity(m0, outcome.metadata) && RowsKept(rows, outcome.events)
    requires Tells(outcome.metadata, outcome.cliExit, o)
    requires TargetTold(outcome.metadata, rows) && TargetNumbered(outcome.metadata)
    requires outcome.metadata.parsedEvents == |rows| && outcome.metadata.rawLines == lines
    requires outcome.metadata.ended == Some(ended)
    ensures Accounted(outcome, m0, rows, lines, ended, o)
  {
  }

  lemma AccountedThrough(outcome: Outcome, m0: Metadata, raw: seq<Event>, rows: seq<Event>, lines: nat, ended: nat,
                         o: Observations)
    requires outcome.Published? && Accounted(outcome, m0, rows, lines, ended, o) && RowsKept(raw, rows)
    ensures Accounted(outcome, m0, raw, lines, ended, o)
  {
    hide KeepsIdentity;
    hide Tells;
    hide TargetNumbered;
    hide TargetTold;
    KeptLength(raw, rows);
    RowsKeptThrough(raw, rows, outcome.events);
    TargetKept(outcome.metadata, raw, rows);
  }

  /** Admit the record and its receipt, then publish. Only a task ID or an exit row outside the saved
      vocabulary can be refused by the record's own contract. */
  method FinishRecord(m0: Metadata, contract: Contract, resolved: seq<Event>, t: Builder, order: seq<nat>,
                      data: seq<nat>, receipt: RawReceipt, ended: nat, o: Observations, stored: bool,
                      ghost raw: seq<Event>, ghost marked: seq<Event>)
    returns (outcome: Outcome)
    requires ParsedTrace(raw, marked, resolved, t, order, o.warnings, |LogicalLines(data)|)
    requires Started(m0, contract) && CollectorInRange(o.collector) && ReceiptOf(receipt, data)
    requires data == [] ==> raw == []
    ensures outcome.Rejected? <==> !Savable(contract, resolved)
    ensures outcome.Published? <==> stored && !outcome.Rejected?
    ensures outcome.Published? ==> Admitted(outcome, contract)
    ensures outcome.Published? ==> Accounted(outcome, m0, resolved, |LogicalLines(data)|, ended, o)
    ensures outcome.Published? ==> |outcome.events| == |resolved|
    ensures outcome.Published? ==> (outcome.metadata.state == "interrupted" <==> o.recorder.StoppedBy?)
    ensures outcome.Published? && o.recorder.StoppedBy? ==> outcome.cliExit == 128 + o.recorder.signal
    ensures outcome.Published? || outcome.Rejected? || outcome == Refused(false)
  {
    hide EvidenceOrder;
    hide BuildTo;
    hide CompletionOf;
    hide Written;
    hide ParsedTrace;
    hide ValidateRun;
    hide ValidateManifest;
    hide Savable;
    hide InBounds;
    hide Bound;
    hide ExitsKnown;
    hide IdentityFields;
    hide NothingFinalized;
    hide Reduce;
    hide LogicalLines;
    hide Accounted;
    hide RowsKept;
    var lines := |LogicalLines(data)|;
    ParsedFits(raw, marked, resolved, t, order, o.warnings, lines);
    var m, events, exit;
    ghost var c;
    m, events, exit, c := Publish(m0, contract, resolved, t, order, lines, ended, o);
    assert Visits(events, order);
    FrozenIsRead(raw, marked, resolved, events, t, order, lines, m0, ended, o, contract, c, m);
    WrittenStates(m0, contract, events, t, c, lines, ended, o, m);
    BoundTimeline(raw, marked, resolved, events, t, order, o.warnings, lines, contract);
    if contract.TraceV1? { BoundKept(resolved, events, t, order); } else { AlwaysKept(resolved); }
    forall manifest
      ensures Accounted(Published(m, events, manifest, exit), m0, resolved, lines, ended, o)
    {
      WrittenAccounted(m0, contract, resolved, events, t, order, c, lines, ended, o, m, manifest, exit);
    }
    var verdict := CheckRun(m, events, true);
    if contract.TraceV1? { BoundSpelling(resolved, events, t, order); }
    if verdict.Fail? { return Rejected; }
    var manifest := None;
    if contract.TraceV1? {
      var file := RawManifest(1, m.id, RAW_FILE, receipt);
      if receipt.Parsed? {
        ParsedReceiptIsRead(m, data, receipt.sha256);
      } else {
        NoneLeft();
        assert events == [] && order == [] && t.actors == [] && Along(events, order) == [];
        UnverifiedReceiptIsRead(m0, t, ended, o, receipt.reason);
      }
      manifest := Some(file);
    }
    outcome := if stored then Published(m, events, manifest, exit) else Refused(false);
  }

  /** A published record is admitted by its own reader, with its receipt. */
  ghost predicate Admitted(outcome: Outcome, contract: Contract)
    requires outcome.Published?
  {
    && ValidateRun(outcome.metadata, outcome.events, true) == Pass && Savable(contract, outcome.events)
    && (contract.TraceV1? <==> outcome.manifest.Some?)
    && (contract.TraceV1? ==>
          outcome.metadata.schemaVersion == 4 &&
          ValidateManifest(outcome.manifest.value, outcome.metadata) == Pass)
  }

  // ---------- reading the evidence ----------

  /** What came out of the raw trace: nothing at all unless reading was admitted and succeeded. */
  datatype RawEvidence = RawEvidence(data: seq<nat>, receipt: RawReceipt, readError: Option<string>)

  const NOT_ATTEMPTED := "raw normalization traversal was not attempted"

  predicate AllAccepted(trace: seq<nat>, accepts: seq<nat> -> bool) {
    forall k :: 0 <= k < |LogicalLines(trace)| ==> accepts(LogicalLines(trace)[k])
  }

  /** Read the trace only when its length was verified and within the limit; a broken read keeps
      nothing. */
  method ReadEvidence(plan: ReadPlan, trace: seq<nat>, accepts: seq<nat> -> bool, digest: seq<nat> -> string) returns (e: RawEvidence)
    requires forall data :: Sha256Text(digest(data))
    ensures ReceiptOf(e.receipt, e.data) && (e.readError.Some? ==> e.data == [])
    ensures !plan.Parse? ==> e.data == [] && e.readError.None? && e.receipt == Unverified(NOT_ATTEMPTED)
    ensures plan.Parse? ==> (e.readError.None? <==> e.receipt.Parsed?)
    ensures plan.Parse? && AllAccepted(trace, accepts) ==> e.data == trace && e.readError.None? && e.receipt.Parsed?
    ensures plan.Parse? && !AllAccepted(trace, accepts) ==> e.data == [] && e.readError.Some?
  {
    hide LogicalLines;
    if !plan.Parse? { return RawEvidence([], Unverified(NOT_ATTEMPTED), None); }
    assert Sha256Text(digest(trace));
    var receipt, delivered := TraverseTrace(trace, accepts, digest(trace));
    e := if receipt.Parsed? then RawEvidence(trace, receipt, None) else RawEvidence([], receipt, Some("cannot read trace"));
  }

  /** Metadata as the workflow first writes it; its identity fields are whatever the caller supplied. */
  predicate Drafted(m: Metadata, contract: Contract) {
    && m.schemaVersion == (if contract.TraceV1? then 4 else 3)
    && m.evidenceContract == (if contract.TraceV1? then Some(TRACE_CONTRACT) else None)
    && m.targetProvenance.None? && m.state == "running" && m.completeness == Some("pending")
    && NothingFinalized(m)
  }

  /** The initial write admits exactly the drafts with well-formed identity fields. */
  lemma DraftAdmitted(m: Metadata, contract: Contract)
    requires Drafted(m, contract)
    ensures ValidateMetadata(m) == Pass <==> Started(m, contract)
  {
    hide IdentityFields;
    if Started(m, contract) { StartedIsReadable(m, contract); }
  }

  // ---------- the formal capture ----------

  datatype Captured =
    | Observed(collector: CollectorFacts, limits: Limits, lengthFailed: bool)
    | CaptureRefused(unquiesced: bool)
    | StillCapturing

  predicate NothingRuns(producer: Option<CollectorGuard>)
    reads if producer.Some? then {producer.value} else {}
  {
    producer.None? || producer.value.ownership.Reaped?
  }

  /** What the collector's own journal says behind the captured facts: its status is the last wait's, and without
      a recorder signal, a crossed limit or an unreadable length nothing was ever sent to it. */
  ghost predicate Captures(captured: Captured, formal: Option<CollectorGuard>, policy: Policy, signal: Option<int>)
    requires captured.Observed?
    reads if formal.Some? then {formal.value} else {}
  {
    && (captured.collector.Reaped? ==>
          && formal.Some? && StatusRead(Exit(captured.collector.exit), formal.value.waits)
          && (!captured.lengthFailed && !captured.limits.Exceeded() && signal.None? ==>
                formal.value.journal == [WaitConsumed]))
    && (captured.limits.duration.Some? ==> captured.limits.duration == policy.duration)
  }

  lemma CapturesStill(captured: Captured, formal: Option<CollectorGuard>, policy: Policy, before: Option<int>,
                      after: Option<int>)
    requires captured.Observed? && Captures(captured, formal, policy, before) && (before.Some? ==> after == before)
    ensures Captures(captured, formal, policy, after)
  {
  }

  /** One launch: what it reported, how far it got, what it did and saw, and the recorder signal known by then. */
  datatype Launch = Launch(formal: Formal, attempt: Attempt, log: Log, seen: Option<int>)

  /** The captured facts are the launch's own, and there are none without permission to start. */
  ghost predicate Recounts(captured: Captured, launch: Option<Launch>, formal: Option<CollectorGuard>, policy: Policy,
                           signal: Option<int>, rounds: nat)
    reads if formal.Some? then {formal.value, formal.value.clock} else {}
  {
    match launch
    case None =>
      formal.None? && captured == Observed(NotStarted("collector was not started"), Limits(None, None), false)
    case Some(l) =>
      && Reports(l.formal, l.attempt, formal, l.log, policy, l.seen, rounds) && (l.seen.Some? ==> signal == l.seen)
      && match l.formal
         case Facts(collector, limits, lengthFailed) => captured == Observed(collector, limits, lengthFailed)
         case ScheduleRefused => captured == CaptureRefused(false)
         case UnquiescedError => captured == CaptureRefused(true)
         case Unfinished => captured.StillCapturing?
  }

  lemma RecountsStill(captured: Captured, launch: Option<Launch>, formal: Option<CollectorGuard>, policy: Policy,
                      before: Option<int>, after: Option<int>, rounds: nat)
    requires Recounts(captured, launch, formal, policy, before, rounds) && (before.Some? ==> after == before)
    ensures Recounts(captured, launch, formal, policy, after, rounds)
  {
    hide Reports;
  }

  /** Start the collector only with permission; without it, say why it was not started. */
  method Capture(gate: StartupGate, scope: SignalScope, clock: Clock, policy: Policy, rounds: nat)
    returns (r: Captured, ghost producer: Option<CollectorGuard>, ghost launch: Option<Launch>)
    requires scope.Valid()
    modifies scope`firstObserved, scope.kernel`consumed, scope.kernel`drains, clock
    ensures scope.Valid()
    ensures old(scope.firstObserved).Some? ==> scope.firstObserved == old(scope.firstObserved)
    ensures Recounts(r, launch, producer, policy, scope.firstObserved, rounds) && (launch.Some? <==> gate.state.GateReady?)
    ensures !gate.state.GateReady? ==> r.Observed? && r.collector.NotStarted? && producer.None?
    ensures gate.state.GateReady? && r.Observed? ==> !r.collector.NotStarted?
    ensures r.Observed? ==> NothingRuns(producer) && CollectorInRange(r.collector)
    ensures r.Observed? ==> ExcessAbove(r.limits) && Captures(r, producer, policy, scope.firstObserved)
    ensures r.CaptureRefused? && r.unquiesced ==> producer.Some? && !producer.value.ownership.Reaped?
    ensures policy.duration.Some? && rounds > policy.duration.value + policy.grace + 1 ==> !r.StillCapturing?
  {
    hide SignalScope.Valid;
    hide Reports;
    producer, launch := None, None;
    if gate.state.GateReady? {
      var formal;
      ghost var log, attempt;
      formal, producer, log, attempt := CaptureCollector(scope, clock, policy, rounds);
      launch := Some(Launch(formal, attempt, log, scope.firstObserved));
      match formal {
        case Facts(collector, limits, lengthFailed) => r := Observed(collector, limits, lengthFailed);
        case ScheduleRefused => r := CaptureRefused(false);
        case UnquiescedError => r := CaptureRefused(true);
        case Unfinished => r := StillCapturing;
      }
    } else {
      r := Observed(NotStarted("collector was not started"), Limits(None, None), false);
    }
  }

  /** Later supervision errors are appended, never replacing an earlier one. */
  function Additionally(previous: Option<string>, error: string): (r: Option<string>)
    ensures r.Some?
  {
    match previous case Some(p) => Some(p + "; additionally " + error) case None => Some(error)
  }

  lemma LimitsSound(limits: Limits)
    requires ExcessAbove(limits)
    ensures limits.traceBytes.Some? ==> limits.traceBytes.value.observed > limits.traceBytes.value.limit
  {
  }

  /** Limits once the final length is known: a last excess replaces an earlier one. */
  function AfterFinal(limits: Limits, policy: Policy, final: LengthRead): Limits {
    if policy.traceBytes.Some? && final.Length? && final.bytes > policy.traceBytes.value
    then limits.(traceBytes := Some(ByteExcess(final.bytes, policy.traceBytes.value))) else limits
  }

  method LengthErrors(startupError: Option<string>, during: bool, after: bool) returns (error: Option<string>)
    ensures error.Some? <==> startupError.Some? || during || after
  {
    error := startupError;
    if during { error := Additionally(error, "recorder trace length supervision failed"); }
    if after { error := Additionally(error, "recorder trace length supervision failed after collector completion"); }
  }

  /** The trace may be read: its length never failed to be read and no excess is known. */
  predicate MayRead(captured: Captured, limits: Limits, policy: Policy, final: LengthRead)
    requires captured.Observed?
  {
    !captured.lengthFailed && limits.traceBytes.None? && !(policy.traceBytes.Some? && final.LengthFailed?)
  }

  /** The whole trace when it may be read and every line is accepted; nothing otherwise, with an error only when
      reading itself broke. */
  predicate ReadAs(e: RawEvidence, admitted: bool, trace: seq<nat>, accepts: seq<nat> -> bool) {
    if !admitted then e.data == [] && e.readError.None? && e.receipt.Unverified?
    else if AllAccepted(trace, accepts) then e.data == trace && e.readError.None? && e.receipt.Parsed?
    else e.data == [] && e.readError.Some? && e.receipt.Unverified?
  }

  /** The last length check, then the reading it admits. */
  method AdmitAndRead(policy: Policy, captured: Captured, startupError: Option<string>, trace: seq<nat>, accepts: seq<nat> -> bool,
                      digest: seq<nat> -> string)
    returns (evidence: RawEvidence, limits: Limits, error: Option<string>, ghost final: LengthRead)
    requires captured.Observed? && ExcessAbove(captured.limits) && forall data :: Sha256Text(digest(data))
    ensures ReceiptOf(evidence.receipt, evidence.data)
    ensures ReadAs(evidence, MayRead(captured, limits, policy, final), trace, accepts)
    ensures limits == AfterFinal(captured.limits, policy, final)
    ensures error.Some? <==> startupError.Some? || captured.lengthFailed || (policy.traceBytes.Some? && final.LengthFailed?)
  {
    hide ReceiptOf;
    hide Sha256Text;
    hide Additionally;
    hide LogicalLines;
    hide ExcessAbove;
    LimitsSound(captured.limits);
    var facts := new LimitFacts();
    facts.duration, facts.traceBytes := captured.limits.duration, captured.limits.traceBytes;
    var last: LengthRead := *;
    final := last;
    var plan := AdmitRead(facts, captured.lengthFailed, policy.traceBytes, last);
    error := LengthErrors(startupError, captured.lengthFailed, policy.traceBytes.Some? && last.LengthFailed?);
    limits := facts.Facts();
    evidence := ReadEvidence(plan, trace, accepts, digest);
  }

  /** A recorded excess was above its limit. */
  predicate ExcessAbove(limits: Limits) {
    limits.traceBytes.Some? ==> limits.traceBytes.value.observed > limits.traceBytes.value.limit
  }

  /** What one run observed: the capture, an error before it, the evidence read, the final length, whether the last
      signal read and the final storing succeeded, and the facts that were reduced. */
  datatype Witness = Witness(
    captured: Captured, startupError: Option<string>, evidence: RawEvidence, final: LengthRead, drained: bool,
    stored: bool, facts: Observations)

  /** The reduced facts are exactly the observed ones. */
  ghost predicate Witnessed(w: Witness, policy: Policy, parser: Parser, trace: seq<nat>, accepts: seq<nat> -> bool,
                            signal: Option<int>)
  {
    && w.captured.Observed? && w.facts.collector == w.captured.collector
    && w.facts.recorder == (match signal case Some(n) => StoppedBy(n) case None => NoSignal)
    && w.facts.limits == AfterFinal(w.captured.limits, policy, w.final)
    && (w.facts.supervisionError.Some? <==>
          || w.startupError.Some? || w.captured.lengthFailed || !w.drained
          || (policy.traceBytes.Some? && w.final.LengthFailed?))
    && parser.syntax(w.evidence.data) <= w.facts.warnings
    && w.facts.readError == w.evidence.readError
    && ReadAs(w.evidence, MayRead(w.captured, w.facts.limits, policy, w.final), trace, accepts)
  }

  /** Everything after the collector: final length, reading, parsing, freezing, publication. The recorder's
      stop is frozen before anything is decided from it. */
  method Conclude(scope: SignalScope, m0: Metadata, contract: Contract, policy: Policy, captured: Captured,
                  startupError: Option<string>, parser: Parser, trace: seq<nat>, accepts: seq<nat> -> bool,
                  digest: seq<nat> -> string, ended: nat)
    returns (outcome: Outcome, ghost w: Witness)
    requires scope.Valid() && Promises(parser) && (forall data :: Sha256Text(digest(data)))
    requires Started(m0, contract) && captured.Observed? && CollectorInRange(captured.collector)
    requires ExcessAbove(captured.limits)
    modifies scope`firstObserved, scope`frozen, scope`frozenAt, scope.kernel`consumed, scope.kernel`drains
    ensures scope.Valid() && scope.frozen
    ensures old(scope.firstObserved).Some? ==> scope.firstObserved == old(scope.firstObserved)
    ensures outcome.Published? || outcome.Rejected? || outcome == Refused(false)
    ensures scope.kernel.drains == old(scope.kernel.drains) + (if old(scope.frozen) then [] else [w.drained])
    ensures Witnessed(w, policy, parser, trace, accepts, scope.firstObserved) && w.captured == captured && w.startupError == startupError
    ensures outcome.Rejected? <==> !Savable(contract, parser.rows(w.evidence.data))
    ensures outcome.Published? <==> w.stored && !outcome.Rejected?
    ensures outcome.Published? ==> Admitted(outcome, contract) && Interrupts(outcome, scope.firstObserved)
    ensures outcome.Published? ==>
              Accounted(outcome, m0, parser.rows(w.evidence.data), |LogicalLines(w.evidence.data)|, ended, w.facts)
  {
    hide SignalScope.Valid;
    hide Promises;
    hide Sha256Text;
    hide ReceiptOf;
    hide ParsedTrace;
    hide Admitted;
    hide Started;
    hide LogicalLines;
    hide Interrupts;
    hide Savable;
    hide Accounted;
    hide RowsKept;
    hide AfterFinal;
    hide Additionally;
    hide ExcessAbove;
    hide Witnessed;
    hide CollectorInRange;
    hide ReadAs;
    hide MayRead;
    var evidence, limits, error;
    ghost var final;
    evidence, limits, error, final := AdmitAndRead(policy, captured, startupError, trace, accepts, digest);
    var resolved, t, order, warnings;
    ghost var raw, marked;
    resolved, t, order, warnings, raw, marked := ParseTrace(parser, evidence.data);
    var drained, stop := scope.Freeze();
    if !drained { error := Additionally(error, "recorder signal supervision failed"); }
    var o := Observations(captured.collector, stop, limits, error, warnings, evidence.readError);
    var stored: bool := *;
    outcome := FinishRecord(m0, contract, resolved, t, order, evidence.data, evidence.receipt, ended, o, stored,
                            raw, marked);
    w := Witness(captured, startupError, evidence, final, drained, stored, o);
    WitnessedFrom(w, policy, parser, trace, accepts, scope.firstObserved);
    if outcome.Published? {
      AccountedThrough(outcome, m0, raw, resolved, |LogicalLines(evidence.data)|, ended, o);
    }
    StopObserved(outcome, o.recorder, scope.firstObserved);
  }

  lemma WitnessedFrom(w: Witness, policy: Policy, parser: Parser, trace: seq<nat>, accepts: seq<nat> -> bool,
                      signal: Option<int>)
    requires w.captured.Observed? && w.facts.collector == w.captured.collector
    requires w.facts.recorder == (match signal case Some(n) => StoppedBy(n) case None => NoSignal)
    requires w.facts.limits == AfterFinal(w.captured.limits, policy, w.final)
    requires w.facts.supervisionError.Some? <==>
               || w.startupError.Some? || w.captured.lengthFailed || !w.drained
               || (policy.traceBytes.Some? && w.final.LengthFailed?)
    requires parser.syntax(w.evidence.data) <= w.facts.warnings
    requires w.facts.readError == w.evidence.readError
    requires ReadAs(w.evidence, MayRead(w.captured, w.facts.limits, policy, w.final), trace, accepts)
    ensures Witnessed(w, policy, parser, trace, accepts, signal)
  {
    hide AfterFinal;
    hide ReadAs;
    hide MayRead;
  }

  /** A recorder signal always shows: as the state, and as the exit code. */
  ghost predicate Interrupts(outcome: Outcome, signal: Option<int>)
    requires outcome.Published?
  {
    && (outcome.metadata.state == "interrupted" <==> signal.Some?)
    && (signal.Some? ==> outcome.cliExit == 128 + signal.value)
  }

  lemma StopObserved(outcome: Outcome, stop: RecorderStop, signal: Option<int>)
    requires stop == (match signal case Some(n) => StoppedBy(n) case None => NoSignal)
    requires outcome.Published? ==> (outcome.metadata.state == "interrupted" <==> stop.StoppedBy?)
    requires outcome.Published? && stop.StoppedBy? ==> outcome.cliExit == 128 + stop.signal
    ensures outcome.Published? ==> Interrupts(outcome, signal)
  {
  }

  /** The collector of a completed record ended by itself: no signal was ever sent to it. */
  lemma CompletedUntouched(outcome: Outcome, m0: Metadata, rows: seq<Event>, lines: nat, ended: nat, w: Witness,
                           policy: Policy, parser: Parser, trace: seq<nat>, accepts: seq<nat> -> bool, signal: Option<int>,
                           formal: Option<CollectorGuard>)
    requires outcome.Published? && Accounted(outcome, m0, rows, lines, ended, w.facts)
    requires Witnessed(w, policy, parser, trace, accepts, signal) && Captures(w.captured, formal, policy, signal)
    ensures outcome.metadata.state == "completed" ==> formal.Some? && formal.value.journal == [WaitConsumed]
  {
    hide TargetTold;
    hide TargetNumbered;
    hide KeepsIdentity;
    hide RowsKept;
    hide WarningsTold;
    hide CollectorSaved;
  }

  const UNSEEN := Witness(
    StillCapturing, None, RawEvidence([], Unverified(NOT_ATTEMPTED), None), LengthFailed, true, false,
    Observations(CollectorFacts.NotStarted(""), NoSignal, Limits(None, None), None, [], None))

  // ---------- the whole workflow ----------

  /** How far a run got: the preflight, the first write, the capture, or all the way. */
  datatype Stage =
    | ProbeEnded(probed: Probed)
    | NotBegun(written: bool)
    | CaptureEnded(captured: Captured, launch: Option<Launch>)
    | Reached(launch: Option<Launch>)

  function CaptureOf(stage: Stage, w: Witness): Captured {
    if stage.CaptureEnded? then stage.captured else w.captured
  }

  /** A run stops short only for what its stage reports, and a record that got all the way is published exactly
      when it can be saved and is stored. */
  ghost predicate StoppedAt(stage: Stage, outcome: Outcome, m0: Metadata, stored: bool, savable: bool) {
    match stage
    case ProbeEnded(probed) =>
      if probed.StillProbing? then outcome == Outcome.Unfinished
      else probed.ProbeFailed? && outcome == Refused(probed.error.unquiesced)
    case NotBegun(written) => outcome == Refused(false) && (!written || ValidateMetadata(m0) != Pass)
    case CaptureEnded(captured, _) =>
      if captured.StillCapturing? then outcome == Outcome.Unfinished
      else captured.CaptureRefused? && outcome == Refused(captured.unquiesced)
    case Reached(_) =>
      && (outcome.Rejected? <==> !savable) && (outcome.Published? <==> stored && savable)
      && (outcome.Published? || outcome.Rejected? || outcome == Refused(false))
  }

  /** The producers a run started: the version probe and the formal collector. */
  datatype Producers = Producers(probe: Option<CollectorGuard>, formal: Option<CollectorGuard>)

  /** Once a record is published or rejected on its contents, nothing this run started can still be writing. */
  ghost predicate Quiesced(producers: Producers)
    reads if producers.probe.Some? then {producers.probe.value} else {}
    reads if producers.formal.Some? then {producers.formal.value} else {}
  {
    NothingRuns(producers.probe) && NothingRuns(producers.formal)
  }

  /** Permission for the formal start: observe once after the preflight, and once after storage is ready. */
  method OpenGate(scope: SignalScope, probed: Probed, stored: bool) returns (gate: StartupGate, admitted: bool)
    requires scope.Valid() && (probed.Completed? || probed.ProbeCancelled?)
    requires probed.ProbeCancelled? ==> scope.firstObserved.Some?
    modifies scope`firstObserved, scope.kernel`consumed, scope.kernel`drains
    ensures fresh(gate) && scope.Valid() && admitted == stored
    ensures old(scope.firstObserved).Some? ==> scope.firstObserved == old(scope.firstObserved)
    ensures gate.state.GateReady? && admitted ==> probed.Completed? && scope.firstObserved.None?
    ensures admitted && probed.Completed? && scope.firstObserved.None? ==>
              (gate.state.GateReady? <==> AllRead(old(scope.kernel.drains), scope.kernel.drains))
  {
    hide SignalScope.Valid;
    gate := new StartupGate(if probed.Completed? then None else Some(probed.cleanupFailed));
    if gate.state.GateReady? { gate.ObserveBeforeSpawn(scope); }
    admitted := stored;
    if admitted { gate.ObserveBeforeSpawn(scope); }
  }

  /** Capture under an open or closed gate, then conclude. */
  method RecordStarted(gate: StartupGate, scope: SignalScope, clock: Clock, m0: Metadata, contract: Contract,
                       policy: Policy, parser: Parser, trace: seq<nat>, accepts: seq<nat> -> bool, digest: seq<nat> -> string,
                       ended: nat, rounds: nat)
    returns (outcome: Outcome, ghost formal: Option<CollectorGuard>, ghost w: Witness, ghost stage: Stage)
    requires scope.Valid() && Promises(parser) && (forall data :: Sha256Text(digest(data))) && Started(m0, contract)
    modifies scope`firstObserved, scope`frozen, scope`frozenAt, scope.kernel`consumed, scope.kernel`drains, clock
    ensures scope.Valid() && (stage.CaptureEnded? || stage.Reached?)
    ensures Recounts(CaptureOf(stage, w), stage.launch, formal, policy, scope.firstObserved, rounds)
    ensures stage.launch.Some? <==> gate.state.GateReady?
    ensures StoppedAt(stage, outcome, m0, w.stored, Savable(contract, parser.rows(w.evidence.data)))
    ensures stage.Reached? ==>
              (w.startupError.Some? <==> gate.HasError()) && w.captured.Observed? &&
              (gate.state.GateReady? <==> !w.captured.collector.NotStarted?)
    ensures outcome.Published? || outcome.Rejected? ==> NothingRuns(formal) && scope.frozen
    ensures outcome.Published? && !gate.state.GateReady? ==> formal.None?
    ensures outcome.Rejected? ==> !Savable(contract, parser.rows(w.evidence.data))
    ensures outcome.Published? ==>
              Savable(contract, parser.rows(w.evidence.data)) &&
              Accounted(outcome, m0, parser.rows(w.evidence.data), |LogicalLines(w.evidence.data)|, ended, w.facts)
    ensures outcome.Published? ==> Admitted(outcome, contract) && Interrupts(outcome, scope.firstObserved)
    ensures outcome.Published? || outcome.Rejected? ==>
              Witnessed(w, policy, parser, trace, accepts, scope.firstObserved) && Captures(w.captured, formal, policy, scope.firstObserved)
    ensures outcome.Refused? && outcome.unquiesced ==> !NothingRuns(formal)
  {
    hide SignalScope.Valid;
    hide Promises;
    hide Sha256Text;
    hide Admitted;
    hide Interrupts;
    hide Started;
    hide Savable;
    hide Accounted;
    hide AfterFinal;
    hide Captures;
    hide Recounts;
    hide Witnessed;
    hide LogicalLines;
    w, stage := UNSEEN, NotBegun(false);
    var captured;
    ghost var launch;
    captured, formal, launch := Capture(gate, scope, clock, policy, rounds);
    stage := Reached(launch);
    if captured.StillCapturing? { return Outcome.Unfinished, formal, w, CaptureEnded(captured, launch); }
    if captured.CaptureRefused? { return Refused(captured.unquiesced), formal, w, CaptureEnded(captured, launch); }
    ghost var seen := scope.firstObserved;
    var startupError := if gate.HasError() then Some("recorder signal supervision failed before collector spawn") else None;
    outcome, w := Conclude(scope, m0, contract, policy, captured, startupError, parser, trace, accepts, digest, ended);
    CapturesStill(captured, formal, policy, seen, scope.firstObserved);
    RecountsStill(captured, launch, formal, policy, seen, scope.firstObserved, rounds);
  }

  /** The workflow inside an acquired signal scope. */
  method RecordInScope(scope: SignalScope, clock: Clock, m0: Metadata, contract: Contract, policy: Policy,
                       parser: Parser, trace: seq<nat>, accepts: seq<nat> -> bool, digest: seq<nat> -> string, ended: nat, rounds: nat)
    returns (outcome: Outcome, ghost producers: Producers, ghost w: Witness, ghost stage: Stage)
    requires scope.Valid() && Promises(parser) && (forall data :: Sha256Text(digest(data)))
    requires Drafted(m0, contract)
    modifies scope`firstObserved, scope`frozen, scope`frozenAt, scope.kernel`consumed, scope.kernel`drains, clock
    ensures scope.Valid()
    ensures StoppedAt(stage, outcome, m0, w.stored, Savable(contract, parser.rows(w.evidence.data)))
    ensures outcome.Published? || outcome.Rejected? ==> Quiesced(producers) && scope.frozen
    ensures outcome.Rejected? ==> !Savable(contract, parser.rows(w.evidence.data))
    ensures outcome.Published? ==>
              Savable(contract, parser.rows(w.evidence.data)) &&
              Accounted(outcome, m0, parser.rows(w.evidence.data), |LogicalLines(w.evidence.data)|, ended, w.facts)
    ensures outcome.Published? ==> Admitted(outcome, contract) && Interrupts(outcome, scope.firstObserved)
    ensures outcome.Published? && producers.formal.Some? ==> producers.probe.Some?
    ensures outcome.Published? || outcome.Rejected? ==>
              Witnessed(w, policy, parser, trace, accepts, scope.firstObserved) &&
              Captures(w.captured, producers.formal, policy, scope.firstObserved)
    ensures stage.CaptureEnded? || stage.Reached? ==>
              Recounts(CaptureOf(stage, w), stage.launch, producers.formal, policy, scope.firstObserved, rounds)
    ensures outcome.Refused? && outcome.unquiesced ==> !Quiesced(producers)
  {
    hide SignalScope.Valid;
    hide CollectorGuard.Valid;
    hide Promises;
    hide Sha256Text;
    hide Admitted;
    hide Interrupts;
    hide Started;
    hide Drafted;
    hide ValidateMetadata;
    hide Savable;
    hide Accounted;
    hide Witnessed;
    hide Recounts;
    producers := Producers(None, None);
    w, stage := UNSEEN, NotBegun(false);
    var probed;
    ghost var probe, last;
    probed, probe, last := ProbeBackend(scope, clock, rounds);
    producers := Producers(probe, None);
    if probed.StillProbing? { return Outcome.Unfinished, producers, w, ProbeEnded(probed); }
    if probed.ProbeFailed? { return Refused(probed.error.unquiesced), producers, w, ProbeEnded(probed); }
    var begun: bool := *;
    DraftAdmitted(m0, contract);
    var gate, admitted := OpenGate(scope, probed, begun && ValidateMetadata(m0) == Pass);
    if !admitted { return Refused(false), producers, w, NotBegun(begun); }
    ghost var formal;
    outcome, formal, w, stage := RecordStarted(gate, scope, clock, m0, contract, policy, parser, trace, accepts, digest, ended, rounds);
    producers := Producers(probe, formal);
  }

  /** The recorder's workflow: acquire signal state, record, then restore the caller's signal state on every
      way out. A record is published only when no producer can still be writing, its own reader admits it
      with its receipt, and a recorder signal shows in it. */
  method RecordOwned(kernel: Kernel, clock: Clock, m0: Metadata, contract: Contract, policy: Policy, parser: Parser,
                     trace: seq<nat>, accepts: seq<nat> -> bool, digest: seq<nat> -> string, ended: nat, rounds: nat)
    returns (outcome: Outcome, restored: bool, ghost producers: Producers, ghost scope: SignalScope?,
             ghost w: Witness, ghost stage: Stage)
    requires kernel.Total() && Promises(parser) && (forall data :: Sha256Text(digest(data)))
    requires Drafted(m0, contract)
    modifies kernel, clock
    ensures kernel.Total() && kernel.Safe()
    ensures if scope == null then outcome == Refused(false)
            else StoppedAt(stage, outcome, m0, w.stored, Savable(contract, parser.rows(w.evidence.data)))
    ensures outcome.Published? || outcome.Rejected? ==> Quiesced(producers)
    ensures outcome.Rejected? ==> !Savable(contract, parser.rows(w.evidence.data))
    ensures outcome.Published? ==>
              Savable(contract, parser.rows(w.evidence.data)) &&
              Accounted(outcome, m0, parser.rows(w.evidence.data), |LogicalLines(w.evidence.data)|, ended, w.facts)
    ensures outcome.Published? ==>
              scope != null && Admitted(outcome, contract) && Interrupts(outcome, scope.firstObserved)
    ensures outcome.Published? || outcome.Rejected? ==>
              scope != null && Witnessed(w, policy, parser, trace, accepts, scope.firstObserved) &&
              Captures(w.captured, producers.formal, policy, scope.firstObserved)
    ensures scope != null && (stage.CaptureEnded? || stage.Reached?) ==>
              Recounts(CaptureOf(stage, w), stage.launch, producers.formal, policy, scope.firstObserved, rounds)
    ensures outcome.Published? && outcome.metadata.state == "completed" ==>
              producers.formal.Some? && producers.formal.value.journal == [WaitConsumed]
    ensures scope != null && restored ==> !kernel.Temporary() && kernel.masked == old(kernel.masked)
    ensures !restored ==> WATCHED <= kernel.masked || !kernel.Temporary()
  {
    hide Promises;
    hide Captures;
    hide StoppedAt;
    hide CaptureOf;
    hide Sha256Text;
    hide Admitted;
    hide Interrupts;
    hide Drafted;
    hide Savable;
    hide Accounted;
    hide Witnessed;
    hide Recounts;
    producers := Producers(None, None);
    w, stage := UNSEEN, NotBegun(false);
    var owner;
    ghost var readable;
    owner, readable := Acquire(kernel);
    scope := owner;
    if owner == null { return Refused(false), false, producers, scope, w, stage; }
    outcome, producers, w, stage := RecordInScope(owner, clock, m0, contract, policy, parser, trace, accepts, digest, ended, rounds);
    if outcome.Published? {
      CompletedUntouched(outcome, m0, parser.rows(w.evidence.data), |LogicalLines(w.evidence.data)|, ended, w, policy, parser,
                         trace, accepts, owner.firstObserved, producers.formal);
    }
    ghost var seen := owner.firstObserved;
    var r := owner.RestoreParent();
    restored := r.Complete();
    if stage.CaptureEnded? || stage.Reached? {
      RecountsStill(CaptureOf(stage, w), stage.launch, producers.formal, policy, seen, owner.firstObserved, rounds);
    }
  }
}
