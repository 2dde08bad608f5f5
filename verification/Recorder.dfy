/** The recording workflow around the parser: read admission, publication and raw receipt. */
module Recorder {
  import opened Ordered
  import opened Text
  import opened Records
  import opened Timeline
  import opened Provenance
  import opened Findings
  import opened Reduction
  import opened WriterReader

  // ---------- admission to normalization ----------

  datatype ReadPlan = Parse | LengthUnverified | ByteLimit

  function AfterLimits(plan: ReadPlan, limits: Limits): ReadPlan {
    if plan.LengthUnverified? then plan
    else if limits.traceBytes.Some? then ByteLimit
    else plan
  }

  datatype LengthRead = Length(bytes: nat) | LengthFailed

  /** The final length check before reading, with the plan left by supervision. */
  method AdmitRead(facts: LimitFacts, supervisionFailed: bool, byteLimit: Option<nat>, final: LengthRead)
    returns (plan: ReadPlan)
    requires facts.Valid()
    modifies facts`traceBytes
    ensures facts.Valid()
    ensures facts.Facts().duration == old(facts.Facts()).duration
    ensures plan.LengthUnverified? <==> supervisionFailed || (byteLimit.Some? && final.LengthFailed?)
    ensures plan.Parse? ==> facts.traceBytes.None? && old(facts.traceBytes).None?
    ensures plan.Parse? && byteLimit.Some? ==> final.Length? && final.bytes <= byteLimit.value
    ensures plan.ByteLimit? ==> facts.traceBytes.Some?
    ensures facts.traceBytes ==
            if byteLimit.Some? && final.Length? && final.bytes > byteLimit.value
            then Some(ByteExcess(final.bytes, byteLimit.value)) else old(facts.traceBytes)
  {
    plan := if supervisionFailed then LengthUnverified else Parse;
    if byteLimit.Some? {
      match final {
        case Length(bytes) =>
          var first := facts.ObserveTraceBytes(bytes, byteLimit.value);
        case LengthFailed =>
          plan := LengthUnverified;
      }
    }
    plan := AfterLimits(plan, facts.Facts());
  }

  // ---------- publication ----------

  /** Timeline and identity marks of the retained rows, before context resolution. */
  method Identify(raw: seq<Event>) returns (order: seq<nat>, t: Builder, marked: seq<Event>, warnings: seq<string>)
    ensures order == EvidenceOrder(raw) && Fits(t, raw, order) && t == BuildTo(Along(raw, order), order, |order|)
    ensures Identified(raw, marked, t, order) && |warnings| == UntrustedCount(t.generations)
  {
    order := SortByEvidence(raw);
    EvidenceOrderVisits(raw);
    t := FromObservations(raw, order);
    ghost var same := TimelineFits(raw, order);
    marked, warnings := ApplyIdentityFindings(raw, t, order);
  }

  /** Recorded exits are exit rows of the vector. */
  predicate ExitsKnown(t: Builder, events: seq<Event>) {
    forall g :: 0 <= g < |t.generations| && t.generations[g].exitEvent.Some? ==>
      t.generations[g].exitEvent.value < |events| && events[t.generations[g].exitEvent.value].kind == "exit"
  }

  /** Freeze the parse into a record: bind, scan completion, reduce, project. */
  method Publish(m0: Metadata, contract: Contract, resolved: seq<Event>, t: Builder, order: seq<nat>,
                 lines: nat, ended: nat, o: Observations)
    returns (m: Metadata, events: seq<Event>, exit: int, ghost c: Completion)
    requires order == EvidenceOrder(resolved) && Fits(t, resolved, order)
    requires ExitsKnown(t, resolved)
    ensures if contract.TraceV1? then Bound(resolved, events, t, order) else events == resolved
    ensures |events| == |resolved|
    ensures c == CompletionOf(t, Along(events, order), order) && InBounds(c, t, events)
    ensures m == Written(m0, contract, events, t, c, lines, ended, o)
    ensures exit == Reduce(InputOf(c, events, contract, o)).cliExit
  {
    hide EvidenceOrder;
    hide Reduce;
    hide CompletionOf;
    hide ProvenanceOf;
    hide BoundEvent;
    events := resolved;
    if contract.TraceV1? {
      events := BindTaskGenerations(resolved, t, order);
      BoundKinds(resolved, events, t, order);
    }
    var completion := FromTimeline(t, Along(events, order), order);
    c := completion;
    ScanFits(t, events, order);
    m := m0.(rawLines := lines, parsedEvents := |events|, ended := Some(ended));
    var decision := Reduce(InputOf(completion, events, contract, o));
    m := ApplyToMetadata(decision, m);
    exit := decision.cliExit;
    m := m.(targetProvenance := if contract.TraceV1? then ProvenanceOf(completion, t, events) else None);
  }

  lemma BoundKinds(resolved: seq<Event>, bound: seq<Event>, t: Builder, order: seq<nat>)
    requires order == EvidenceOrder(resolved) && Fits(t, resolved, order) && Bound(resolved, bound, t, order)
    ensures forall i :: 0 <= i < |bound| ==> bound[i].kind == resolved[i].kind
  {
    forall i | 0 <= i < |bound| ensures bound[i].kind == resolved[i].kind {
      assert i in order;
      var a :| 0 <= a < |order| && order[a] == i;
    }
  }

  lemma ScanFits(t: Builder, events: seq<Event>, order: seq<nat>)
    requires Fits(t, events, order)
    requires ExitsKnown(t, events)
    ensures InBounds(CompletionOf(t, Along(events, order), order), t, events)
  {
    hide MissingTo;
  }

  // ---------- the raw receipt ----------

  const NEWLINE: nat := 10

  /** Bytes up to and including the first newline, or all of them. */
  function FirstLine(data: seq<nat>): (n: nat)
    requires data != []
    ensures 1 <= n <= |data|
    ensures forall i :: 0 <= i < n - 1 ==> data[i] != NEWLINE
    ensures n < |data| ==> data[n - 1] == NEWLINE
  {
    if data[0] == NEWLINE || |data| == 1 then 1 else 1 + FirstLine(data[1..])
  }

  function LogicalLines(data: seq<nat>): seq<seq<nat>> {
    if data == [] then []
    else
      var n := FirstLine(data);
      [data[..n]] + LogicalLines(data[n..])
  }

  function Joined(lines: seq<seq<nat>>): seq<nat> {
    if lines == [] then [] else lines[0] + Joined(lines[1..])
  }

  /** A nonempty line whose inside holds no newline. */
  predicate IsLine(line: seq<nat>) {
    line != [] && forall i :: 0 <= i < |line| - 1 ==> line[i] != NEWLINE
  }

  predicate EndsLine(line: seq<nat>) { line != [] && line[|line| - 1] == NEWLINE }

  lemma FirstIsLine(data: seq<nat>)
    requires data != []
    ensures var n := FirstLine(data); IsLine(data[..n]) && (n < |data| ==> EndsLine(data[..n]))
  {
    hide FirstLine;
    var n := FirstLine(data);
    assert forall i :: 0 <= i < n - 1 ==> data[..n][i] == data[i];
  }

  lemma JoinedNext(line: seq<nat>, rest: seq<seq<nat>>)
    ensures Joined([line] + rest) == line + Joined(rest)
  {
    assert ([line] + rest)[1..] == rest;
  }

  lemma LinesNext(data: seq<nat>)
    requires data != []
    ensures LogicalLines(data) == [data[..FirstLine(data)]] + LogicalLines(data[FirstLine(data)..])
  {
    hide FirstLine;
  }

  lemma NothingJoined()
    ensures Joined(LogicalLines([])) == []
  {
  }

  lemma CutLine(data: seq<nat>, n: nat)
    requires n <= |data|
    ensures data == data[..n] + data[n..]
  {
  }

  /** Logical lines partition the raw bytes; only the last may lack its newline. */
  lemma {:induction false} LinesPartition(data: seq<nat>)
    ensures Joined(LogicalLines(data)) == data
    ensures forall k :: 0 <= k < |LogicalLines(data)| ==> IsLine(LogicalLines(data)[k])
    ensures forall k :: 0 <= k < |LogicalLines(data)| - 1 ==> EndsLine(LogicalLines(data)[k])
    ensures |LogicalLines(data)| <= |data| && (data == [] <==> LogicalLines(data) == [])
    decreases |data|
  {
    if data == [] {
      NothingJoined();
    } else {
      hide IsLine;
      hide EndsLine;
      hide Joined;
      hide FirstLine;
      var n := FirstLine(data);
      LinesNext(data);
      FirstIsLine(data);
      LinesPartition(data[n..]);
      hide LogicalLines;
      JoinedNext(data[..n], LogicalLines(data[n..]));
      CutLine(data, n);
    }
  }

  /** The hashed traversal: every delivered line is counted, a refused one loses the receipt. */
  method TraverseTrace(data: seq<nat>, accepts: seq<nat> -> bool, sha256: string)
    returns (receipt: RawReceipt, delivered: seq<seq<nat>>)
    ensures delivered <= LogicalLines(data)
    ensures (forall k :: 0 <= k < |LogicalLines(data)| ==> accepts(LogicalLines(data)[k])) <==> receipt.Parsed?
    ensures receipt.Parsed? ==>
              delivered == LogicalLines(data) && receipt == Parsed(|data|, |LogicalLines(data)|, sha256)
    ensures receipt.Unverified? ==> receipt.reason != ""
  {
    hide FirstLine;
    hide LogicalLines;
    var rest := data;
    var bytes := 0;
    delivered := [];
    while rest != []
      invariant bytes + |rest| == |data|
      invariant LogicalLines(data) == delivered + LogicalLines(rest)
      invariant forall k :: 0 <= k < |delivered| ==> accepts(LogicalLines(data)[k])
      decreases |rest|
    {
      var n := FirstLine(rest);
      var line := rest[..n];
      bytes := bytes + n;
      LinesNext(rest);
      NextDelivered(LogicalLines(data), delivered, line, LogicalLines(rest[n..]));
      if !accepts(line) {
        receipt := Unverified("normalization stream did not reach a successful EOF");
        return;
      }
      delivered := delivered + [line];
      rest := rest[n..];
    }
    NoneLeft();
    receipt := Parsed(bytes, |delivered|, sha256);
  }

  lemma NextDelivered(all: seq<seq<nat>>, delivered: seq<seq<nat>>, line: seq<nat>, rest: seq<seq<nat>>)
    requires all == delivered + ([line] + rest)
    ensures all == delivered + [line] + rest && all[|delivered|] == line && delivered + [line] <= all
  {
  }

  lemma NoneLeft()
    ensures LogicalLines([]) == []
  {
  }

  predicate Sha256Text(text: string) {
    |text| == 64 && forall c :: c in text ==> IsDigit(c) || 'a' <= c <= 'f'
  }

  /** A completed traversal's receipt is admitted for the record of its own lines. */
  lemma ParsedReceiptIsRead(m: Metadata, data: seq<nat>, sha256: string)
    requires m.schemaVersion == 4 && m.rawLines == |LogicalLines(data)| && Sha256Text(sha256)
    ensures ValidateManifest(RawManifest(1, m.id, RAW_FILE, Parsed(|data|, |LogicalLines(data)|, sha256)), m) == Pass
  {
    LinesPartition(data);
  }

  /** An unread or broken trace publishes no rows, and its unverified receipt is admitted: without
      rows there is no target, so completeness is never claimed. */
  lemma UnverifiedReceiptIsRead(m0: Metadata, t: Builder, ended: nat, o: Observations, reason: string)
    requires Started(m0, TraceV1) && reason != "" && t.actors == []
    ensures var c := CompletionOf(t, [], []);
            && InBounds(c, t, [])
            && var m := Written(m0, TraceV1, [], t, c, 0, ended, o);
               ValidateManifest(RawManifest(1, m.id, RAW_FILE, Unverified(reason)), m) == Pass
  {
    hide ReducedWarnings;
    hide MissingTo;
    hide IdentityFields;
    var c := CompletionOf(t, [], []);
    assert First([], RootExec).None?;
    DecisionMeaning(InputOf(c, [], TraceV1, o));
    WrittenFields(m0, TraceV1, [], t, c, 0, ended, o);
  }
}
