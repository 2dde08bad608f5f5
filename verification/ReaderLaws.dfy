/** Which saved records the reader admits, written out on metadata fields and event rows.

    Every condition is spelled here once more from the saved vocabulary, family by family and state by
    state, and proved to be exactly what the chained checks let through.
 */
module ReaderLaws {
  import opened Ordered
  import opened Text
  import opened Spelling
  import opened Records
  import opened Provenance
  import opened TargetLaws

  // ---------- spelled values ----------

  /** A decimal number from 1 to 2^32 - 1, digits only. */
  predicate SpelledTask(s: string) {
    s != "" && (forall i :: 0 <= i < |s| ==> '0' <= s[i] <= '9') && 1 <= NumberIn(s, 10) <= 4294967295
  }

  lemma FramedMeans(outcome: string, opening: string, middle: string)
    ensures Framed(outcome, opening) == Some(middle) <==> outcome == opening + middle + CLOSE
  {
    if outcome == opening + middle + CLOSE { FramedIs(opening, middle); }
    if Framed(outcome, opening) == Some(middle) {
      var rest := outcome[|opening|..];
      assert outcome == opening + rest && rest == middle + CLOSE;
    }
  }

  lemma CoreDropped(name: string)
    ensures DropCore(name + CORE) == name
  {
    var s := name + CORE;
    assert s[|s| - |CORE|..] == CORE && s[..|s| - |CORE|] == name;
  }

  lemma NoCoreInName(name: string)
    requires SignalName(name)
    ensures DropCore(name) == name
  {
    if |CORE| <= |name| {
      var at := |name| - |CORE|;
      assert NameChar(name[at]) && name[at..][0] == name[at];
    }
  }

  lemma NameSpelled(name: string)
    ensures SignalName(name) <==>
              name != "" && forall c :: c in name ==> IsLetter(c) || IsDigit(c) || c == '_' || c == '+' || c == '-'
  {
    if forall c :: c in name ==> NameChar(c) { assert forall i :: 0 <= i < |name| ==> name[i] in name; }
  }

  /** The number a signal name stands for. */
  ghost predicate SignalOf(name: string, n: int) {
    || StandardSignal(name) == Some(n)
    || (n == 34 && name == "SIGRTMIN")
    || (n == 64 && name == "SIGRTMAX")
    || (32 <= n <= 64 && exists text :: name == "SIGRT_" + text && ParseI32(text) == Some(n - 32))
    || (34 <= n <= 64 && exists text :: name == "SIGRTMIN+" + text && ParseI32(text) == Some(n - 34))
  }

  lemma OffsetNamed(name: string, prefix: string, base: int, n: int)
    requires base <= RTMAX
    ensures RealtimeOffset(name, prefix, base) == Some(n) <==>
              base <= n <= RTMAX && exists text :: name == prefix + text && ParseI32(text) == Some(n - base)
  {
    if prefix <= name { assert name == prefix + name[|prefix|..]; }
    forall text | name == prefix + text ensures name[|prefix|..] == text && prefix <= name { }
    hide ParseI32;
  }

  /** A name is read in one way only. */
  lemma RealtimeApart(name: string)
    ensures StandardSignal(name).Some? ==>
              && name != "SIGRTMIN" && name != "SIGRTMAX"
              && RealtimeOffset(name, "SIGRT_", KERNEL_RTMIN).None? && RealtimeOffset(name, "SIGRTMIN+", LIBC_RTMIN).None?
    ensures name == "SIGRTMIN" || name == "SIGRTMAX" ==>
              RealtimeOffset(name, "SIGRT_", KERNEL_RTMIN).None? && RealtimeOffset(name, "SIGRTMIN+", LIBC_RTMIN).None?
    ensures RealtimeOffset(name, "SIGRT_", KERNEL_RTMIN).Some? ==> RealtimeOffset(name, "SIGRTMIN+", LIBC_RTMIN).None?
  {
    hide StandardSignal;
    hide ParseI32;
    if StandardSignal(name).Some? { StandardNamesHaveNoRealtimePrefix(name); }
    assert "SIGRT_"[5] == '_' && "SIGRTMIN+"[5] == 'M';
    if "SIGRT_" <= name { assert name[5] == '_'; }
  }

  lemma SignalMeans(name: string, n: int)
    ensures TraceV1Signal(name) == Some(n) <==> SignalOf(name, n)
  {
    hide RealtimeOffset;
    hide StandardSignal;
    hide ParseI32;
    RealtimeApart(name);
    OffsetNamed(name, "SIGRT_", KERNEL_RTMIN, n);
    OffsetNamed(name, "SIGRTMIN+", LIBC_RTMIN, n);
  }

  predicate NamedSignal(outcome: string, name: string) {
    && (outcome == "+++ killed by " + name + " +++" || outcome == "+++ killed by " + name + " (core dumped) +++")
    && name != "" && forall c :: c in name ==> IsLetter(c) || IsDigit(c) || c == '_' || c == '+' || c == '-'
  }

  predicate NumberedExit(outcome: string, text: string) {
    outcome == "+++ exited with " + text + " +++" && text != "" && AllDigits(text) && NumberIn(text, 10) <= 255
  }

  /** A completion row and the numbers it carries; an unnumbered signal name carries none. */
  ghost predicate DecodedRow(outcome: string, code: Option<int>, signal: Option<int>) {
    || (exists text :: NumberedExit(outcome, text) && code == Some(NumberIn(text, 10)) && signal.None?)
    || (exists name :: NamedSignal(outcome, name) && code.None? && forall n :: signal == Some(n) <==> SignalOf(name, n))
  }

  lemma ExitDecoded(outcome: string, text: string)
    requires NumberedExit(outcome, text)
    ensures TraceV1Fields(outcome) == Some(Fields(Some(NumberIn(text, 10)), None))
  {
    FramedMeans(outcome, EXITED, text);
    assert !IsDigit('+');
  }

  lemma SignalDecoded(outcome: string, name: string)
    requires NamedSignal(outcome, name)
    ensures TraceV1Fields(outcome) == Some(Fields(None, TraceV1Signal(name)))
  {
    FramesDiffer(outcome);
    NameSpelled(name);
    if outcome == "+++ killed by " + name + " +++" {
      FramedMeans(outcome, KILLED, name);
      NoCoreInName(name);
    } else {
      CoreFramed(outcome, name);
      CoreDropped(name);
    }
    hide TraceV1Signal;
  }

  lemma CoreFramed(outcome: string, name: string)
    requires outcome == "+++ killed by " + name + " (core dumped) +++"
    ensures Framed(outcome, KILLED) == Some(name + CORE)
  {
    assert CORE + CLOSE == " (core dumped) +++";
    assert KILLED + (name + CORE) + CLOSE == KILLED + name + (CORE + CLOSE);
    FramedMeans(outcome, KILLED, name + CORE);
  }

  /** A completion row of the saved vocabulary: an exit code of plain digits up to 255, or a signal name with
      or without the core-dump note. */
  ghost predicate CompletionRow(outcome: string) {
    (exists text :: NumberedExit(outcome, text)) || (exists name :: NamedSignal(outcome, name))
  }

  /** The saved vocabulary is exactly the completion rows. */
  lemma CompletionSpelled(outcome: string)
    ensures TraceV1Fields(outcome).Some? <==> CompletionRow(outcome)
  {
    NothingElseDecodes(outcome);
    forall text | NumberedExit(outcome, text) ensures TraceV1Fields(outcome).Some? { ExitDecoded(outcome, text); }
    forall name | NamedSignal(outcome, name) ensures TraceV1Fields(outcome).Some? { SignalDecoded(outcome, name); }
    hide TraceV1Fields;
    hide NumberedExit;
    hide NamedSignal;
  }

  lemma ExitRead(outcome: string)
    requires TraceV1Fields(outcome).Some? && Framed(outcome, EXITED).Some?
    ensures NumberedExit(outcome, Framed(outcome, EXITED).value)
  {
    FramedMeans(outcome, EXITED, Framed(outcome, EXITED).value);
    assert !IsDigit('+');
  }

  lemma SignalRead(outcome: string)
    requires TraceV1Fields(outcome).Some? && Framed(outcome, EXITED).None?
    ensures Framed(outcome, KILLED).Some? && NamedSignal(outcome, DropCore(Framed(outcome, KILLED).value))
  {
    hide TraceV1Signal;
    hide ParseUnsigned;
    var spelling := Framed(outcome, KILLED).value;
    var name := DropCore(spelling);
    NameSpelled(name);
    FramedMeans(outcome, KILLED, spelling);
    hide Framed;
    hide SignalName;
    hide NameChar;
    if name != spelling {
      assert spelling == name + CORE && CORE + CLOSE == " (core dumped) +++";
      assert KILLED + (name + CORE) + CLOSE == KILLED + name + (CORE + CLOSE);
    }
  }

  /** Nothing outside the two families decodes. */
  lemma NothingElseDecodes(outcome: string)
    ensures TraceV1Fields(outcome).Some? ==> CompletionRow(outcome)
  {
    hide TraceV1Fields;
    hide NumberedExit;
    hide NamedSignal;
    if TraceV1Fields(outcome).Some? {
      if Framed(outcome, EXITED).Some? { ExitRead(outcome); } else { SignalRead(outcome); }
    }
  }

  lemma NamedDecodes(outcome: string, name: string, code: Option<int>, signal: Option<int>)
    requires NamedSignal(outcome, name)
    ensures TraceV1Fields(outcome) == Some(Fields(code, signal)) <==>
              code.None? && forall n :: signal == Some(n) <==> SignalOf(name, n)
  {
    hide *;
    SignalDecoded(outcome, name);
    SameSignal(name, TraceV1Signal(name), signal);
  }

  lemma SameSignal(name: string, read: Option<int>, signal: Option<int>)
    requires read == TraceV1Signal(name)
    ensures signal == read <==> forall n :: signal == Some(n) <==> SignalOf(name, n)
  {
    hide *;
    forall n ensures read == Some(n) <==> SignalOf(name, n) { SignalMeans(name, n); }
    if signal != read {
      var n := if read.Some? then read.value else signal.value;
      assert !(signal == Some(n) <==> SignalOf(name, n));
    }
  }

  /** The saved decoding is exactly the decoded rows. */
  lemma DecodedMeans(outcome: string, code: Option<int>, signal: Option<int>)
    ensures TraceV1Fields(outcome) == Some(Fields(code, signal)) <==> DecodedRow(outcome, code, signal)
  {
    hide TraceV1Fields;
    hide NumberedExit;
    hide NamedSignal;
    hide SignalOf;
    NothingElseDecodes(outcome);
    forall text | NumberedExit(outcome, text)
      ensures AllDigits(text) && TraceV1Fields(outcome) == Some(Fields(Some(NumberIn(text, 10)), None))
    {
      ExitDecoded(outcome, text);
      NumberedDigits(outcome, text);
    }
    forall name | NamedSignal(outcome, name)
      ensures TraceV1Fields(outcome) == Some(Fields(code, signal)) <==>
                code.None? && forall n :: signal == Some(n) <==> SignalOf(name, n)
    {
      NamedDecodes(outcome, name, code, signal);
    }
  }

  lemma NumberedDigits(outcome: string, text: string)
    requires NumberedExit(outcome, text)
    ensures AllDigits(text)
  {
  }

  // ---------- one event ----------

  predicate Rooted(path: Option<string>) { path.Some? && path.value != "" && path.value[0] == '/' }

  predicate Unresolved(e: Event) { e.contextUncertain && e.path.Some? && "relative:" <= e.path.value }

  /** What each family's row must look like. */
  predicate FamilyRow(e: Event) {
    match e.kind
    case "file" =>
      && e.operation in ["open", "openat", "openat2", "access", "faccessat", "faccessat2"]
      && e.argv.None? && e.childPid.None? && (Rooted(e.path) || Unresolved(e))
    case "exec" =>
      && e.operation in ["execve", "execveat"]
      && e.childPid.None? && (Rooted(e.path) || Unresolved(e))
    case "cwd" =>
      && e.operation in ["chdir", "fchdir"]
      && e.argv.None? && e.childPid.None? && (Rooted(e.path) || Unresolved(e) || (e.path.None? && e.contextUncertain))
    case "spawn" =>
      && e.operation in ["clone", "clone3", "fork", "vfork"] && e.argv.None?
      && (if e.outcome == "success"
          then e.childPid.Some? && SpelledTask(e.childPid.value) && e.path == e.childPid
          else e.childPid.None?)
    case "context" =>
      && e.operation in ["unshare", "setns", "chroot", "pivot_root", "mount", "umount2", "move_mount", "mount_setattr"]
      && e.argv.None? && e.childPid.None? && e.path.None?
    case "exit" =>
      && e.operation == "exit" && e.argv.None? && e.childPid.None? && e.path.None?
    case _ => false
  }

  /** A row of a current record, version 2 without lifetimes or version 3 with them. */
  ghost predicate CurrentRow(e: Event) {
    && SpelledTask(e.pid) && e.outcome != "" && FamilyRow(e)
    && e.evidence.file == "raw/trace.log" && 1 <= e.evidence.line <= e.evidence.endLine
    && (e.schemaVersion == 2 || e.schemaVersion == 3)
    && (e.schemaVersion == 2 ==> e.taskGeneration.None? && e.childGeneration.None?)
    && (e.schemaVersion == 3 ==>
          && e.taskGeneration.Some? && e.taskGeneration.value >= 1
          && (e.childPid.Some? <==> e.childGeneration.Some?)
          && (e.childGeneration.Some? ==> e.childGeneration.value >= 1)
          && (e.kind == "exit" ==> CompletionRow(e.outcome)))
  }

  lemma FamilyRowMeans(e: Event)
    ensures FamilyRow(e) <==>
              && FamilyMatches(e.kind, e.operation) && FamilyShape(e)
              && (e.argv.Some? ==> e.kind == "exec") && (e.childPid.Some? ==> e.kind == "spawn")
  {
    hide IsTaskId;
    hide SpelledTask;
    if e.childPid.Some? { TaskMeans(e.childPid.value); }
  }

  /** The chained shape checks admit exactly the current rows. */
  lemma ShapeMeans(e: Event)
    ensures CurrentShape(e) <==> CurrentRow(e)
  {
    FamilyRowMeans(e);
    CompletionSpelled(e.outcome);
    hide FamilyRow;
    hide FamilyShape;
    hide IsTaskId;
    hide SpelledTask;
    hide CompletionRow;
    hide TraceV1Fields;
    assert FamilyMatches(e.kind, e.operation) ==> e.operation != "";
    hide FamilyMatches;
    assert IsTaskId(e.pid) <==> SpelledTask(e.pid) by { TaskMeans(e.pid); }
  }

  lemma TaskMeans(s: string)
    ensures IsTaskId(s) <==> SpelledTask(s)
  {
  }

  // ---------- metadata ----------

  /** A generated record ID: a hexadecimal time below 2^128, a hyphen, a process ID. */
  ghost predicate RecordIdRow(id: string) {
    exists time, pid ::
      && id == time + "-" + pid && SpelledTask(pid)
      && time != "" && (forall i :: 0 <= i < |time| ==> IsHexDigit(time[i])) && NumberIn(time, 16) < 0x1_0000_0000_0000_0000_0000_0000_0000_0000
  }

  lemma RecordIdMeans(id: string)
    ensures ValidRecordId(id) <==> RecordIdRow(id)
  {
    var at := FirstWhere(id, c => c == '-');
    hide SpelledTask;
    hide IsTaskId;
    if ValidRecordId(id) {
      var time, pid := id[..at], id[at + 1..];
      TaskMeans(pid);
      assert id == time + "-" + pid;
    }
    if RecordIdRow(id) {
      var time, pid :|
        && id == time + "-" + pid && SpelledTask(pid)
        && time != "" && (forall i :: 0 <= i < |time| ==> IsHexDigit(time[i])) && NumberIn(time, 16) < 0x1_0000_0000_0000_0000_0000_0000_0000_0000;
      TaskMeans(pid);
      assert id[|time|] == '-';
      assert forall i :: 0 <= i < |time| ==> id[i] == time[i] && id[i] != '-';
      assert at == |time| && id[..at] == time && id[at + 1..] == pid;
    }
  }

  predicate NoControl(s: string) { forall c :: c in s ==> c >= ' ' && !('\U{7f}' <= c <= '\U{9f}') }

  /** Who was recorded, with what. */
  ghost predicate IdentityRow(m: Metadata) {
    && RecordIdRow(m.id) && m.name != "" && NoControl(m.name)
    && |m.command| >= 1 && m.toolVersion != "" && m.cwd != "" && m.backend != ""
    && m.environment.Some?
    && forall key :: key in m.environment.value ==> key != "" && NoControl(key) && '=' !in key
  }

  lemma IdentityMeans(m: Metadata)
    ensures IdentityFields(m) <==> IdentityRow(m)
  {
    RecordIdMeans(m.id);
    hide ValidRecordId;
    hide RecordIdRow;
    if m.environment.Some? {
      forall key | key in m.environment.value
        ensures EnvironmentKey(key) <==> key != "" && NoControl(key) && '=' !in key
      { }
    }
    hide EnvironmentKey;
  }

  /** A process outcome: nothing, one exit code of a byte, or one signal number. */
  predicate OutcomeRow(code: Option<int>, signal: Option<int>) {
    && (code.None? || (signal.None? && 0 <= code.value <= 255))
    && (signal.None? || (code.None? && 1 <= signal.value <= 64))
  }

  /** The four states a current record may be saved in. */
  predicate StateRow(m: Metadata) {
    match m.state
    case "running" =>
      && m.completeness == Some("pending") && m.ended.None? && m.warnings == []
      && m.exitCode.None? && m.signal.None? && m.targetExitRaw.None?
      && m.collectorExitCode.None? && m.collectorSignal.None?
      && m.parsedEvents == 0 && m.rawLines == 0
    case "completed" =>
      && m.ended.Some? && m.targetExitRaw.Some? && (m.collectorExitCode.Some? || m.collectorSignal.Some?)
      && (m.exitCode.Some? || m.signal.Some? ==> m.collectorExitCode == m.exitCode && m.collectorSignal == m.signal)
      && (|| (m.completeness == Some("partial") && m.warnings != [])
          || (m.completeness == Some("complete_for_supported_events") && m.warnings == [] &&
              (m.exitCode.Some? || m.signal.Some?)))
    case "capture_failed" =>
      m.ended.Some? && m.completeness == Some("incomplete") && m.warnings != [] &&
      (m.exitCode.Some? || m.signal.Some? ==> m.targetExitRaw.Some?)
    case "interrupted" =>
      m.ended.Some? && m.completeness == Some("incomplete") &&
      (m.exitCode.Some? || m.signal.Some? ==> m.targetExitRaw.Some?)
    case _ => false
  }

  /** What schema 4 alone may claim, and must. */
  ghost predicate ClaimsRow(m: Metadata) {
    if m.schemaVersion != 4 then m.evidenceContract.None? && m.targetProvenance.None?
    else
      && m.evidenceContract == Some("trace-v1")
      && (m.targetExitRaw.Some? <==> m.targetProvenance.Some?)
      && (m.targetExitRaw.Some? ==> DecodedRow(m.targetExitRaw.value, m.exitCode, m.signal))
      && (m.targetProvenance.Some? ==> EnvelopeRow(m, m.targetProvenance.value))
  }

  predicate ReferenceRow(m: Metadata, r: EventReference) {
    r.index < m.parsedEvents && r.evidence.file == "raw/trace.log" && 1 <= r.evidence.line <= r.evidence.endLine <= m.rawLines
  }

  /** A saved target's own shape: its rules by name, a named task, two references in evidence order. */
  predicate EnvelopeRow(m: Metadata, p: TargetProvenance) {
    && p.schemaVersion == 1 && p.selectionRule == "first_successful_exec_evidence_order_v1"
    && p.identityContract == "task_generations_evidence_order_v1"
    && p.root.generation >= 1 && SpelledTask(p.root.pid)
    && ReferenceRow(m, p.rootExec) && ReferenceRow(m, p.targetExit) && p.rootExec.index != p.targetExit.index
    && p.rootExec.evidence.line <= p.targetExit.evidence.line
    && (p.rootExec.evidence.line == p.targetExit.evidence.line ==>
          && p.rootExec.evidence.endLine <= p.targetExit.evidence.endLine
          && (p.rootExec.evidence.endLine == p.targetExit.evidence.endLine ==> p.rootExec.index < p.targetExit.index))
  }

  /** Metadata the reader admits. Before schema 3 only the claims and the two outcomes are looked at. */
  ghost predicate MetadataRow(m: Metadata) {
    && ClaimsRow(m)
    && (m.exitCode.None? || m.signal.None?) && (m.collectorExitCode.None? || m.collectorSignal.None?)
    && (m.schemaVersion >= 3 ==>
          && OutcomeRow(m.exitCode, m.signal) && OutcomeRow(m.collectorExitCode, m.collectorSignal)
          && IdentityRow(m) && StateRow(m))
  }

  lemma EnvelopeMeans(m: Metadata)
    requires m.targetProvenance.Some?
    ensures ValidateEnvelope(m) == Pass <==> EnvelopeRow(m, m.targetProvenance.value)
  {
    TaskMeans(m.targetProvenance.value.root.pid);
    hide IsTaskId;
    hide SpelledTask;
  }

  lemma ClaimsMean(m: Metadata)
    ensures ValidateTraceClaims(m) == Pass <==> ClaimsRow(m)
  {
    if m.targetExitRaw.Some? { DecodedMeans(m.targetExitRaw.value, m.exitCode, m.signal); }
    if m.targetProvenance.Some? { EnvelopeMeans(m); } else { assert ValidateEnvelope(m) == Pass; }
    hide ValidateEnvelope;
    hide EnvelopeRow;
    hide TraceV1Fields;
    hide DecodedRow;
  }

  lemma StateMeans(m: Metadata)
    requires OutcomeRow(m.exitCode, m.signal) && OutcomeRow(m.collectorExitCode, m.collectorSignal)
    ensures StateRow(m) <==>
              && KnownState(m.state) && KnownCompleteness(m.completeness) && StateFacts(m)
              && (m.completeness == Some(COMPLETE) ==> m.warnings == [])
              && (m.exitCode.Some? || m.signal.Some? ==> m.targetExitRaw.Some?)
              && (m.completeness == Some(COMPLETE) || (m.state == "completed" && (m.exitCode.Some? || m.signal.Some?))
                  ==> CollectorConfirms(m))
  {
  }

  lemma OutcomeMeans(code: Option<int>, signal: Option<int>)
    ensures OutcomeRow(code, signal) <==> (code.None? || signal.None?) && CodeInRange(code) && SignalInRange(signal)
  {
  }

  /** The chained metadata checks admit exactly these fields. */
  lemma MetadataMeans(m: Metadata)
    ensures ValidateMetadata(m) == Pass <==> MetadataRow(m)
  {
    ClaimsMean(m);
    IdentityMeans(m);
    OutcomeMeans(m.exitCode, m.signal);
    OutcomeMeans(m.collectorExitCode, m.collectorSignal);
    hide OutcomeRow;
    hide CodeInRange;
    hide SignalInRange;
    hide ValidateTraceClaims;
    hide ClaimsRow;
    hide IdentityFields;
    hide IdentityRow;
    if OutcomeRow(m.exitCode, m.signal) && OutcomeRow(m.collectorExitCode, m.collectorSignal) { StateMeans(m); }
    hide StateRow;
    hide StateFacts;
    hide KnownState;
    hide KnownCompleteness;
    hide CollectorConfirms;
  }

  // ---------- the whole record ----------

  /** Rows of a record: as many as counted, inside the trace, of the versions its schema allows. */
  predicate RowsFit(m: Metadata, events: seq<Event>) {
    && m.parsedEvents == |events|
    && forall e :: e in events ==>
         && 1 <= e.evidence.line <= e.evidence.endLine <= m.rawLines
         && (m.schemaVersion < 3 ==> e.schemaVersion != 3)
         && (m.schemaVersion == 3 ==> e.schemaVersion == 2)
         && (m.schemaVersion == 4 ==> e.schemaVersion == 3)
  }

  /** Complete evidence: nothing uncertain, every exec with its arguments, every path resolved. */
  predicate NothingLimited(events: seq<Event>) {
    forall e :: e in events ==>
      && !e.contextUncertain && (e.kind == "exec" ==> e.argv.Some?)
      && (e.kind in ["file", "exec", "cwd"] ==> Rooted(e.path))
  }

  ghost predicate FactsRow(m: Metadata, events: seq<Event>, finalized: bool) {
    && MetadataRow(m) && RowsFit(m, events)
    && (m.schemaVersion >= 3 ==>
          && (finalized ==> m.state != "running")
          && (forall e :: e in events ==> CurrentRow(e))
          && (m.completeness == Some("complete_for_supported_events") ==> NothingLimited(events)))
  }

  /** Every record the reader admits, and no other: metadata, rows and, for trace-v1, lifetimes and target. */
  ghost predicate Readable(m: Metadata, events: seq<Event>, finalized: bool) {
    FactsRow(m, events, finalized) && (m.schemaVersion == 4 ==> TraceAdmits(m, events))
  }

  lemma LimitsMean(e: Event)
    ensures ArgvMissing(e) || PathIncomplete(e) || e.contextUncertain <==>
              !(&& !e.contextUncertain && (e.kind == "exec" ==> e.argv.Some?)
                && (e.kind in ["file", "exec", "cwd"] ==> Rooted(e.path)))
  {
  }

  lemma FactsMean(m: Metadata, events: seq<Event>, finalized: bool)
    ensures ValidateFacts(m, FactsOf(events), finalized) == Pass <==> FactsRow(m, events, finalized)
  {
    MetadataMeans(m);
    VersionFactsMeaning(events, m.rawLines);
    ShapeFactsMeaning(events);
    hide FactsOf;
    hide ValidateMetadata;
    hide MetadataRow;
    forall e ensures CurrentShape(e) <==> CurrentRow(e) { ShapeMeans(e); }
    hide CurrentShape;
    hide CurrentRow;
    LimitedRows(events);
    hide NothingLimited;
    hide ArgvMissing;
    hide PathIncomplete;
  }

  lemma LimitedRows(events: seq<Event>)
    ensures NothingLimited(events) <==>
              forall e :: e in events ==> !e.contextUncertain && !ArgvMissing(e) && !PathIncomplete(e)
  {
    forall e { LimitsMean(e); }
    hide ArgvMissing;
    hide PathIncomplete;
  }

  /** The reader's verdict on any record. */
  lemma RunMeans(m: Metadata, events: seq<Event>, finalized: bool)
    ensures ValidateRun(m, events, finalized) == Pass <==> Readable(m, events, finalized)
  {
    FactsMean(m, events, finalized);
    hide ValidateFacts;
    hide ValidateTraceProvenance;
    if m.schemaVersion == 4 && FactsRow(m, events, finalized) {
      RowsBounded(m, events, finalized);
      TraceVerdict(m, events);
    }
    hide FactsRow;
    hide TraceAdmits;
  }

  lemma RowsBounded(m: Metadata, events: seq<Event>, finalized: bool)
    requires FactsRow(m, events, finalized) && m.schemaVersion >= 3
    ensures Bounded(m, events)
  {
    hide MetadataRow;
    hide NothingLimited;
    hide CurrentShape;
    forall i | 0 <= i < |events| ensures CurrentShape(events[i]) && events[i].evidence.endLine <= m.rawLines {
      assert events[i] in events;
      ShapeMeans(events[i]);
    }
    hide CurrentRow;
  }
}
