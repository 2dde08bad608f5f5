/** The reader's checks as they run over a saved vector. */
module Reader {
  import opened Ordered
  import opened Records
  import opened Timeline
  import opened Replay
  import opened Provenance
  import opened Findings

  /** Sort, replay the annotations, then decide the saved target. */
  method CheckTraceProvenance(m: Metadata, events: seq<Event>) returns (verdict: Check)
    ensures verdict == ValidateTraceProvenance(m, events)
  {
    hide EvidenceOrder;
    hide ReplayTo;
    hide Selected;
    hide ExitOfIdentity;
    hide TargetCheck;
    var order := SortByEvidence(events);
    EvidenceOrderVisits(events);
    var replayed := CheckAnnotations(events, order);
    if replayed.None? { return Fail(Corrupt); }
    var s := replayed.value;
    if s.missing != {} && (m.completeness == Some(COMPLETE) || m.warnings == []) { return Fail(Corrupt); }
    if s.uncertain && (m.completeness == Some(COMPLETE) || m.warnings == []) { return Fail(Corrupt); }
    var replay := Along(events, order);
    var (root, exit) := Selected(replay);
    var selected := if m.targetProvenance.None? then None else ExitOfIdentity(replay, m.targetProvenance.value.root);
    verdict := TargetCheck(m, events, IndexAt(order, root), IndexAt(order, exit), IndexAt(order, selected));
  }

  /** Summarize the vector, check the aggregate contract, then lifetimes and target for trace-v1. */
  method CheckRun(m: Metadata, events: seq<Event>, finalized: bool) returns (verdict: Check)
    ensures verdict == ValidateRun(m, events, finalized)
  {
    hide ValidateFacts;
    hide FactsOf;
    hide ValidateTraceProvenance;
    var facts := FromEvents(events);
    verdict := ValidateFacts(m, facts, finalized);
    if verdict.Fail? { return; }
    if m.schemaVersion == 4 { verdict := CheckTraceProvenance(m, events); }
  }
}
