/** Rows as the trace parser emits them, against the shape the saved contract demands.

    The parser checks a task ID only for digits and takes a spawn's child from the printed result. The
    saved contract wants positive 32-bit IDs in plain digits. Nothing else in a row's shape differs before
    annotation.
 */
module TraceRows {
  import opened Ordered
  import opened Text
  import opened Spelling
  import opened Records

  // ---------- what the parser guarantees ----------

  // Opens a descriptor annotation after a printed result.
  const ANNOTATION := '<'

  /** The printed result's number, before any descriptor annotation. */
  function ResultNumber(token: string): Option<int> {
    ParseI64(token[..FirstWhere(token, c => c == ANNOTATION)])
  }

  /** A result the parser takes for success. */
  predicate Succeeded(token: string) {
    ResultNumber(token).Some? && ResultNumber(token).value >= 0
  }

  /** Paths, children and results by family; only a successful spawn names a child, by its result. */
  predicate ParsedFamily(e: Event) {
    if PathKind(e.kind) then PathShape(e) && e.childPid.None?
    else if e.kind == "spawn" then
      if e.outcome == "success"
      then e.childPid.Some? && e.path == e.childPid && Succeeded(e.childPid.value)
      else e.childPid.None?
    else e.path.None? && e.childPid.None?
  }

  predicate ParsedShape(e: Event) {
    && e.schemaVersion == 2 && e.taskGeneration.None? && e.childGeneration.None?
    && e.pid != "" && AllDigits(e.pid)
    && e.outcome != "" && FamilyMatches(e.kind, e.operation)
    && e.evidence.file == RAW_FILE && EvidenceOrdered(e.evidence)
    && (e.argv.Some? ==> e.kind == "exec")
    && ParsedFamily(e)
  }

  /** A normalized row within a trace: exits only from accepted rows. */
  predicate Normalized(e: Event, lines: nat) {
    && ParsedShape(e) && e.evidence.endLine <= lines
    && (e.kind == "exit" ==> ParserAccepts(e.outcome))
  }

  // ---------- what the saved contract adds ----------

  predicate TaskIdSaved(e: Event) {
    IsTaskId(e.pid) && (e.childPid.Some? ==> IsTaskId(e.childPid.value))
  }

  predicate TaskIdsSaved(events: seq<Event>) {
    forall i :: 0 <= i < |events| ==> TaskIdSaved(events[i])
  }

  /** A successful result is a saved task ID exactly when it has no sign and no annotation and its number
      is a positive 32-bit one. */
  lemma ResultAgainstContract(token: string)
    requires Succeeded(token)
    ensures IsTaskId(token) <==>
              token[0] != '+' && token[0] != '-' && ANNOTATION !in token && 0 < ResultNumber(token).value < 0x1_0000_0000
  {
    var n := FirstWhere(token, c => c == ANNOTATION);
    if ANNOTATION !in token {
      assert n == |token| && token[..n] == token;
    }
    assert !IsDigit(ANNOTATION) && !IsDigit('+') && !IsDigit('-');
  }

  /** The saved shape of a parsed row asks for saved task IDs and nothing more. */
  lemma ParsedAgainstContract(e: Event)
    requires ParsedShape(e)
    ensures CurrentShape(e) <==> TaskIdSaved(e)
  {
    hide IsTaskId;
    hide Succeeded;
  }

  /** Whatever its version, a saved row has saved task IDs. */
  lemma ShapeHasTaskIds(e: Event)
    requires CurrentShape(e)
    ensures TaskIdSaved(e)
  {
    hide IsTaskId;
    hide TraceV1Fields;
  }

  // ---------- concrete rows ----------

  function ExitRow(pid: string, line: nat): Event {
    Event(2, pid, "exit", "exit", None, "+++ exited with 0 +++", Evidence(RAW_FILE, line, line), None, None, None,
          false, None, None)
  }

  function ForkRow(pid: string, result: string, line: nat): Event {
    Event(2, pid, "spawn", "fork", Some(result), "success", Evidence(RAW_FILE, line, line), None, Some(result), None,
          false, None, None)
  }

  lemma ExitRowParsed(pid: string, line: nat)
    requires line > 0 && pid != "" && AllDigits(pid)
    ensures Normalized(ExitRow(pid, line), line) && SavedSpelling(ExitRow(pid, line).outcome)
  {
    assert EXITED + "0" + CLOSE == "+++ exited with 0 +++";
    FramedIs(EXITED, "0");
    assert AllDigits("0") && NumberIn("0", 10) == 0;
  }

  /** An exit of task zero is a parsed row without a saved task ID. */
  lemma ZeroTaskExit(line: nat)
    requires line > 0
    ensures var e := ExitRow("0", line); Normalized(e, line) && SavedSpelling(e.outcome) && !TaskIdSaved(e)
  {
    hide Normalized;
    hide SavedSpelling;
    hide IsTaskId;
    ResultZero();
    ExitRowParsed("0", line);
  }

  /** So is an exit of a task beyond 32 bits. */
  lemma WideTaskExit(line: nat)
    requires line > 0
    ensures var e := ExitRow("4294967296", line); Normalized(e, line) && SavedSpelling(e.outcome) && !TaskIdSaved(e)
  {
    hide Normalized;
    hide SavedSpelling;
    hide IsTaskId;
    TwoToThirtyTwo();
    ExitRowParsed("4294967296", line);
  }

  lemma TwoToThirtyTwo()
    ensures AllDigits("4294967296") && NumberIn("4294967296", 10) == 0x1_0000_0000 && !IsTaskId("4294967296")
  {
    FirstDigits();
    var s := "4294967296";
    assert s[..9] == "429496729";
    assert "429496729"[..8] == "42949672";
    assert "42949672"[..7] == "4294967";
    assert "4294967"[..6] == "429496";
  }

  lemma FirstDigits()
    ensures NumberIn("429496", 10) == 429496
  {
    assert "429496"[..5] == "42949" && "42949"[..4] == "4294" && "4294"[..3] == "429";
    assert "429"[..2] == "42" && "42"[..1] == "4" && "4"[..0] == "";
  }

  lemma ForkRowParsed(result: string, line: nat)
    requires line > 0 && Succeeded(result)
    ensures Normalized(ForkRow("7", result, line), line)
  {
    hide Succeeded;
    assert AllDigits("7");
  }

  /** A fork printed as returning zero is a parsed row without a saved task ID. */
  lemma ZeroForkResult(line: nat)
    requires line > 0
    ensures var e := ForkRow("7", "0", line); Normalized(e, line) && !TaskIdSaved(e)
  {
    ResultZero();
    hide ResultNumber;
    hide Normalized;
    hide IsTaskId;
    ForkRowParsed("0", line);
  }

  /** So is a fork printed as returning a signed number. */
  lemma SignedForkResult(line: nat)
    requires line > 0
    ensures var e := ForkRow("7", "+8", line); Normalized(e, line) && !TaskIdSaved(e)
  {
    ResultPlusEight();
    hide ResultNumber;
    hide Normalized;
    hide IsTaskId;
    ForkRowParsed("+8", line);
  }

  lemma ResultZero()
    ensures AllDigits("0") && ResultNumber("0") == Some(0) && !IsTaskId("0")
  {
    assert "0"[..1] == "0" && AllDigits("0") && NumberIn("0", 10) == 0;
  }

  lemma ResultPlusEight()
    ensures ResultNumber("+8") == Some(8) && !IsTaskId("+8")
  {
    assert "+8"[..2] == "+8" && "+8"[1..] == "8" && AllDigits("8") && NumberIn("8", 10) == 8;
    assert !IsDigit('+') && "+8"[0] == '+';
  }
}
