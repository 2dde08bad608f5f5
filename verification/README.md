# RunDelta, modelled and proved

RunDelta records a traced command, reduces what it saw to a small set of stored facts, and later
re-validates and compares those facts. This project models the parts whose correctness spans many
functions and proves the properties they are for. It is a Dafny 4.11 project: `dafny verify
dfyconfig.toml` checks all of it.

**Task lifetimes.** One numeric PID can name several lifetimes in a trace. The recorder assigns
lifetimes while walking the events in evidence order; the reader replays the saved annotations and
accepts or refuses them. `Timeline` and `Lifetimes` hold the recorder's machine and its invariants,
`Replay` the reader's, `Agreement` the theorem that the reader accepts exactly what the recorder
assigns, and `LifetimeLaws` what follows for every accepted run. `LifetimeCounts` states both sides
without either machine: lifetimes counted on the rows, in an order stated on lines. `Provenance` adds the
selected target: what the recorder names, what the reader admits, and why those coincide; `TargetLaws`
gives that target and the reader's trace verdict on rows.

**Facts and the stored contract.** `Spelling` and `Records` model the saved vocabulary and the
contracts a reader checks, `TraceRows` the rows a parse yields against the shape that contract demands,
`Reduction` the decision over observed facts, `Findings` the parser's annotation passes, and
`WriterReader` the theorem on exactly which conclusions of the recorder its own reader accepts.
`Recorder` and `Reader` are the two sides as they run. `OutcomeLaws` says on fields what a finished record
tells of the observed facts, and `ReaderLaws` which records the reader admits.

**Supervision.** `Signals`, `Collector`, `Supervision` and `Probe` model the recorder's temporary
signal state, its authority over a spawned process, the supervision loop and the version preflight.
Every system call's result, every signal's arrival and every clock step is arbitrary. `Workflow`
composes all of the above into the complete recording operation.

**Comparison.** `Buckets`, `Merge`, `Aggregation`, `Sampling` and `Comparison` model the observation
engine from the space-saving bucket to complete references; `Reports` the ranking and the four-way
status across report versions. `ObservationLaws` states the changes on the rows of the two runs, and
`StatusLaws` the status on the facts of the two runs.

**Supporting tools.** `Frame` is the binary request carried into a fresh process image, `View` the
experimental grouping view, `SlotLaws` which patterns a path offers to it, `GroupLaws` what each of its groups guarantees, `Privacy` the export scanner's decoder worklist and range masking,
`History` its commit-graph checks. `Ordered`, `Text` and `Words` hold shared orders,
string readings and little-endian words.

## Results worth knowing

- The trace parser admits completion rows that the saved trace-v1 contract refuses:
  `+++ exited with +5 +++` and `+++ killed by SIG A +++` are exit events for the parser and unreadable
  for the reader, so a trace-v1 recording that meets one cannot be finalized. The parser's comment
  promises to preserve unknown spellings as raw facts; the model follows the code and gives both rows as
  lemmas (`Spelling.SignedExitCodeRefused`, `Spelling.SpacedSignalNameRefused`).
- The parser checks a PID only for digits and takes a child's ID from any result that reads as a
  nonnegative 64-bit number, while the reader wants positive 32-bit IDs in plain digits. Rows such as
  `0 +++ exited with 0 +++`, `4294967296 +++ exited with 0 +++`, `7 fork() = 0` and `7 fork() = +8` are
  events for the parser and make a record unfinalizable under both contracts (`TraceRows.ZeroTaskExit`,
  `TraceRows.WideTaskExit`, `TraceRows.ZeroForkResult`, `TraceRows.SignedForkResult`,
  `WriterReader.UnsavedTaskIdRefused`).
- Given the parser's guarantees these are the only gaps: a default record is read if and only if its task
  IDs are saved ones, a trace-v1 record if and only if its exit spellings are too
  (`WriterReader.StructuredRecordIsRead`, `WriterReader.TraceRecordIsRead`, `Workflow.FinishRecord`).
- A path-context pass that warns of nothing may still raise uncertainty when a spawn collided with a
  live PID, because the collision was already warned about by the identity pass. The writer/reader
  theorems therefore call a parse quiet only when both passes were.
- With a duration limit the supervision loop ends within its remaining time plus its grace, on a clock
  that advances at every reading; without one it may run for as long as the target does.

## Model

| member | source | states |
|---|---|---|
| Spelling.ParserAgainstContract | src/model/mod.rs:1716-1792 | a completion row the trace parser admits is readable under the saved vocabulary if and only if its exit code carries no sign and its signal name, without the core-dump suffix, is nonempty and free of spaces and parentheses |
| Spelling.SignedExitCodeRefused | src/parse/mod.rs:1671-1693 | concrete row the parser admits and the saved contract refuses: a plus sign before the exit code |
| Spelling.SpacedSignalNameRefused | src/parse/mod.rs:1671-1693 | concrete row the parser admits and the saved contract refuses: a space in the signal name |
| Spelling.LegacyOutcomeRange | src/capture/platform_exit.rs:24-38 | on admitted rows the host decoder yields codes in 0..=255 and signals in 1..=64, and only a killed row stays unknown |
| Spelling.DecodersAgree | src/capture/platform_exit.rs:60-117 | on every spelling the saved vocabulary accepts, the host decoder and the trace-v1 decoder read the same outcome, although one takes a whitespace token and the other strips exact framing |
| Records.VersionFactsMeaning | src/model/mod.rs:1274-1325 | the summary's count, version latches and greatest end line mean exactly what they say of the whole vector |
| Records.ShapeFactsMeaning | src/model/mod.rs:1293-1315 | the summary's shape, order, uncertainty, argv and path latches are set if and only if some event of the vector has the defect |
| Records.FirstUnsupportedMeaning | src/model/mod.rs:1295-1297 | the latched schema number is the first event's outside the readable vocabulary, and is absent exactly when every event is readable |
| Records.EventFacts.Observe | src/model/mod.rs:1293-1315 | observing one event updates the eleven latched fields to the summary of the longer vector |
| Records.FromEvents | src/model/mod.rs:1318-1324 | the streaming pass returns the summary of the whole vector |
| TraceRows.ParsedAgainstContract | src/model/mod.rs:451-560 | a row shaped as the parser guarantees has the saved version 2 shape if and only if its PID and its child's are saved task IDs |
| TraceRows.ResultAgainstContract | src/parse/mod.rs:1726-1731 | a result the parser takes for success is a saved task ID if and only if it has no sign and no descriptor annotation and its number is a positive 32-bit one |
| TraceRows.ShapeHasTaskIds | src/model/mod.rs:464-470 | a row of either current version that the reader accepts has saved task IDs |
| TraceRows.ZeroTaskExit | src/parse/mod.rs:1620-1624 | concrete row the parser admits and the reader refuses: an exit of task 0, with a saved spelling |
| TraceRows.WideTaskExit | src/parse/mod.rs:1620-1624 | concrete row the parser admits and the reader refuses: an exit of task 4294967296, with a saved spelling |
| TraceRows.ZeroForkResult | src/parse/mod.rs:1726-1731 | concrete row the parser admits and the reader refuses: a fork printed as returning 0 |
| TraceRows.SignedForkResult | src/parse/mod.rs:1726-1731 | concrete row the parser admits and the reader refuses: a fork printed as returning +8 |
| Findings.SortByEvidence | src/model/mod.rs:1563-1564 | the recorder's sorting loop returns the evidence order, which `LifetimeCounts.OrderedByLines` states on lines |
| LifetimeCounts.OrderedByLines | src/parse/mod.rs:172-176 | in evidence order an earlier place means a smaller entry line, on equal entry lines a smaller end line, and on equal lines a smaller index |
| Timeline.FromObservations | src/parse/mod.rs:171-246 | the recorder's loop builds the timeline defined one step at a time: resolve or introduce the actor's lifetime, attribute the event, allocate the spawned lifetime |
| Lifetimes.StepSound | src/parse/mod.rs:147-169 | every step keeps the timeline sound: the live lifetime of a PID is its latest and unexited, ordinals of a PID grow and are contiguous from one, only the first lifetime is initial, origins point to earlier lifetimes |
| Lifetimes.FreshOrdinal | src/model/mod.rs:1576-1580 | the next ordinal of a PID exceeds all its earlier ones and never exceeds the number of lifetimes plus one |
| Lifetimes.BuildHistory | src/parse/mod.rs:171-246 | after any number of events every event carries a lifetime of its own PID, a lifetime's recorded exit is exactly its exit event, acting lifetimes of a PID only advance, displaced lifetimes never act again, and spawned lifetimes are new |
| Lifetimes.BuildAccounted | src/parse/mod.rs:171-246 | every lifetime was brought in by exactly the kind of event its origin names, and a trace introduces at most two lifetimes per event |
| Replay.CheckAnnotations | src/model/mod.rs:1565-1628 | the reader's loop over the saved vector returns the replay state, or nothing once an annotation is contradicted |
| Replay.StepChecked | src/model/mod.rs:1570-1627 | one iteration with the reader's own map and set updates is one replay step |
| Agreement.PrefixAgrees | src/model/mod.rs:1565-1628 | after any number of events the reader has accepted if and only if every event carries the identity and uncertainty the recorder's timeline assigns, and then its maps and missing set describe exactly the timeline's lifetimes |
| LifetimeLaws.AnnotationsDetermined | src/model/mod.rs:1563-1628 | two accepted vectors that agree on coordinates, PID, kind and child PID carry identical actor and child generations at every index |
| LifetimeCounts.AcceptedIsCounted | src/model/mod.rs:1565-1628 | the reader accepts a replay if and only if every event carries the ordinals that counting exits, unannounced actors and spawns of its PID gives, and every doubtful one is marked uncertain; no timeline or map is named |
| LifetimeCounts.PrefixCounted | src/model/mod.rs:1565-1628 | after any number of events the reader's live and latest maps are those counts |
| LifetimeCounts.TimelineIsCounted | src/parse/mod.rs:171-246 | the recorder's timeline gives each event and each spawned child its counted ordinal, and distrusts exactly the lifetimes whose beginning was unannounced or a collision |
| LifetimeCounts.SameActor | src/parse/mod.rs:171-246 | two events act in one lifetime of the recorder's timeline if and only if they share a PID that neither exited nor was spawned from the earlier up to the later |
| LifetimeCounts.SharedLifetime | src/model/mod.rs:1570-1627 | the same on saved annotations |
| LifetimeCounts.ActsAsSpawned | src/model/mod.rs:1607-1627 | a later event of a spawned PID acts in the spawned lifetime if and only if neither an exit nor another spawn of that PID lies between |
| LifetimeCounts.EnteredSpawnIntroduces | src/parse/mod.rs:166-170 | on saved rows and lines: a child's event entered on a later line than its spawn, with no exit and no other spawn of the PID read between, carries the generation the spawn introduced, even when the spawn ends after it |
| LifetimeLaws.GenerationsAdvance | src/model/mod.rs:1570-1611 | in an accepted run the generations of a PID never decrease along the trace and strictly increase across an exit, so nothing belongs to a lifetime after its exit |
| LifetimeLaws.DisplacedStaysSilent | src/model/mod.rs:1612-1627 | a lifetime displaced by a spawn of its PID never receives another event |
| LifetimeLaws.SpawnIntroducesNew | src/model/mod.rs:1612-1627 | a spawn introduces a generation no earlier event or spawn of that PID carried |
| LifetimeLaws.MissingIsIntroducedMinusExited | src/model/mod.rs:1607-1628 | the reader's missing-exit set is exactly the introduced lifetimes minus the exited ones |
| LifetimeLaws.OrdinalsContiguous | src/model/mod.rs:1575-1584 | introduced ordinals of a PID are contiguous from one and at most twice the number of events, so the saturating increment never saturates |
| LifetimeLaws.CompleteRunIsRootedTree | src/model/mod.rs:1629-1644 | a run whose lifetimes may be claimed complete is one rooted spawn tree: every lifetime descends from the first actor, which no spawn introduced, and every other lifetime was introduced by exactly one spawn event |
| LifetimeLaws.CompleteLifetimesExitOnce | src/model/mod.rs:1629-1644 | in such a run every introduced lifetime exits, exactly once |
| LifetimeLaws.CompleteSpawnsDoNotCollide | src/model/mod.rs:1629-1644 | in such a run a lifetime that acted under a child's PID before the spawn had exited by then |
| LifetimeLaws.CompleteSpawnsDoNotReplace | src/model/mod.rs:1629-1644 | in such a run a lifetime of a child's PID that an earlier spawn introduced had exited by the later spawn, even if it never acted in between |
| LifetimeLaws.CompleteSpawnsAreFree | src/model/mod.rs:1629-1644 | together: in such a run whatever carried a child's PID before the spawn, acting or only introduced, had exited by then |
| Provenance.FromTimeline | src/capture/completion.rs:33-70 | the completion scan selects the first successful exec in evidence order, its lifetime, that lifetime's exit, and the labels of all unexited lifetimes |
| Provenance.MissingLabels | src/capture/completion.rs:42-58 | missing labels are exactly those of lifetimes without an exit |
| Provenance.LabelsDistinct | src/capture/completion.rs:42-58 | no two lifetimes share a label, although a PID with one lifetime is shown without its ordinal |
| Provenance.SelectedExit | src/model/mod.rs:1649-1655 | the reader's search over saved fields finds the timeline's recorded exit of the selected lifetime, or finds nothing exactly when there is none |
| Provenance.ExitFollowsExec | src/model/mod.rs:1544-1552 | a selected exit comes strictly after its exec in evidence order, whatever the vector order |
| Provenance.NamedEnvelope | src/model/mod.rs:1500-1554 | the recorder's projected references always pass the envelope check, its ordering rule included |
| Provenance.TargetDecided | src/model/mod.rs:1645-1706 | on accepted annotations the saved target is admitted if and only if it is the selected pair's projection with that exit's spelling; absence is admitted only when the selected lifetime has no exit |
| Provenance.TraceProvenanceDecided | src/model/mod.rs:1562-1707 | the reader admits a vector if and only if it carries the recorder's annotations, its limitations make no claim, and its target is the recorder's own projection; hence a vector admits at most one target, absence included |
| TargetLaws.CompletionOnRows | src/capture/completion.rs:33-70 | the completion scan on rows: its exec is the successful exec entered first, so every exec entered before it failed, and its exit is the first end of that task with no other spawn of its PID between; each is absent exactly when no such row exists |
| TargetLaws.TargetVerdict | src/model/mod.rs:1645-1706 | on accepted annotations the saved target passes if and only if it names those two rows with their coordinates, task, generation and spelling |
| TargetLaws.TraceVerdict | src/model/mod.rs:1562-1707 | the reader's whole trace verdict on fields: counted annotations, completeness or silence only when every lifetime exits and nothing is doubtful, and that target |
| Reader.CheckTraceProvenance | src/model/mod.rs:1562-1707 | the reader's whole pass, from sorting to the last target check, computes the verdict that `TargetLaws.TraceVerdict` states on fields |
| Reader.CheckRun | src/model/mod.rs:1425-1435 | summary, aggregate contract and, for trace-v1, provenance, in that order; `ReaderLaws.RunMeans` states on fields and rows which records it passes |
| ReaderLaws.CompletionSpelled | src/model/mod.rs:1716-1792 | the saved vocabulary is exactly the exit rows of plain digits up to 255 and the killed rows naming a signal of letters, digits, underscore, plus or minus, with or without a core dump |
| ReaderLaws.DecodedMeans | src/model/mod.rs:1716-1792 | a spelling decodes to a code or a signal if and only if the row says it, an unnumbered signal name to neither |
| ReaderLaws.SignalMeans | src/model/mod.rs:1716-1792 | which number a signal name stands for: the standard names, and the realtime names by their offsets up to 64 |
| ReaderLaws.ShapeMeans | src/model/mod.rs:451-560 | a row passes the current shape if and only if its task, outcome, coordinates, family, path, argv, child and generations are as its kind and version demand |
| ReaderLaws.RecordIdMeans | src/model/mod.rs:433-448 | which strings are record identifiers |
| ReaderLaws.MetadataMeans | src/model/mod.rs:764-956 | metadata passes if and only if its identity, outcomes, state, completeness, collector facts and trace claims are the listed ones for its schema |
| ReaderLaws.FactsMean | src/model/mod.rs:1357-1415 | metadata and rows pass together if and only if the row count is the recorded one, every row lies inside the trace and has the version and shape its schema demands, a finalized current record is not running, and completeness excludes every uncertain, unresolved or argument-less row |
| ReaderLaws.RunMeans | src/model/mod.rs:1425-1435 | the reader admits a record if and only if these conditions and, for trace-v1, the trace verdict on fields hold |
| Findings.ApplyIdentityFindings | src/parse/mod.rs:317-368 | exactly the events of untrusted lifetimes and the events that exposed them become uncertain, with one warning per untrusted lifetime |
| Findings.BindTaskGenerations | src/parse/mod.rs:49-61 | every event gets its lifetimes' ordinals and the new schema version, and nothing else changes |
| Reduction.LimitFacts.ObserveDuration | src/capture/reduction.rs:99-106 | the duration fact latches its first observation and reports only that one as first |
| Reduction.LimitFacts.ObserveTraceBytes | src/capture/reduction.rs:110-117 | only a length strictly above the limit is recorded, the latest one is kept, and only the first is reported as first |
| Reduction.SilentMeaning | src/capture/reduction.rs:321-375 | the reduced warnings are empty if and only if no limitation, disagreement, missing exit or error was observed |
| Reduction.DecisionMeaning | src/capture/reduction.rs:377-403 | state and completeness characterised by the observations alone: interrupted iff a recorder signal, completed iff everything confirms, complete iff also nothing was limited; a limit never completes; a failed capture exits 125 and an interrupted one 128 plus the signal |
| Reduction.FactsKept | src/capture/reduction.rs:316-375 | precedence erases nothing: every fact is carried unchanged, parser warnings stay first, the supervision error stays last, and each limitation has its warning |
| Reduction.CompletedExitIsTheTargets | src/capture/reduction.rs:396-403 | a completed run exits with the target's own code or 128 plus its signal, and with the collector's when the target's is unreadable |
| OutcomeLaws.WrittenTells | src/capture/reduction.rs:321-403 | the written record on its fields: the collector's outcome is the observed one; a recorder signal means interrupted and 128 plus it; otherwise a crossed limit, a supervision error, a missing or unknown collector, an unseen or contradicted target means capture_failed, incomplete and 125; otherwise completed with the target's code; and every limitation has its warning |
| OutcomeLaws.WrittenTarget | src/capture/completion.rs:33-70 | its target exit is the spelling of the row that ends the first successful exec's task, and absent exactly when no row does |
| OutcomeLaws.WrittenNumbers | src/capture/reduction.rs:226-256 | its exit code and signal are the numbers of that spelling, and absent without one |
| WriterReader.StartedIsReadable | src/capture/mod.rs:437-475 | the initial running record passes the metadata contract |
| WriterReader.BoundIsAnnotated | src/parse/mod.rs:49-61 | binding the parser's timeline gives annotations the reader accepts, with the same evidence order and timeline |
| WriterReader.StructuredRecordIsRead | src/capture/reduction.rs:226-256 | for every parse and every mix of collector, recorder, limit and error facts, the finalized default record passes the saved-run contract if and only if every task ID of its rows is a saved one |
| WriterReader.TraceRecordIsRead | src/model/mod.rs:1425-1435 | for every parse and every mix of facts, the finalized trace-v1 record passes the saved-run contract if and only if every task ID of its rows is a saved one and every exit row is spelled in the saved vocabulary |
| WriterReader.UnsavedTaskIdRefused | src/model/mod.rs:464-470 | one row without a saved task ID makes every current record unreadable, under both contracts and whatever its metadata |
| Recorder.AdmitRead | src/capture/mod.rs:513-537 | reading is admitted exactly when no length observation failed and no excess is known; the final check records an excess only from a successful read strictly above the limit |
| Recorder.Identify | src/parse/mod.rs:1571-1592 | timeline and identity marks are computed once over the retained rows in evidence order |
| Recorder.Publish | src/capture/mod.rs:551-592 | binding, completion scan, reduction and projection freeze exactly the written record of the observations, and the recorder's exit code is the decision's |
| Recorder.LinesPartition | src/store/mod.rs:876-931 | logical lines partition the raw bytes, each holds no inner newline, and only the last may lack its own |
| Recorder.TraverseTrace | src/store/mod.rs:876-931 | the traversal earns a parsed receipt if and only if every line is accepted, and then the receipt counts exactly the delivered bytes and lines |
| Recorder.ParsedReceiptIsRead | src/model/mod.rs:1438-1472 | a completed traversal's receipt is admitted for the record of its own lines |
| Recorder.UnverifiedReceiptIsRead | src/model/mod.rs:1473-1486 | an unread trace publishes nothing, and its unverified receipt is admitted because such a record never claims completeness or a target |
| Workflow.ParseTrace | src/capture/mod.rs:107-120 | the parser's rows get one timeline, identity marks and context resolution, which add only doubt and the observed directory: PID, kind, operation, path, outcome, coordinates, argv and child of every row stay; an empty stream leaves nothing |
| Workflow.FrozenIsRead | src/store/mod.rs:3102-3140 | whatever was observed, the frozen record passes the reader's own check if and only if its rows' task IDs are saved ones and, for trace-v1, its exit rows are spelled in the saved vocabulary |
| Workflow.FinishRecord | src/store/mod.rs:953-980 | a record is rejected by its own contract if and only if a row's task ID is not a saved one or it is trace-v1 with an unspelled exit row; otherwise it is published exactly when storage succeeds, with an admitted receipt, and then it is the account of what was observed (`Workflow.Accounted`: identity, rows, outcomes, state, exit code, target and warnings) |
| Workflow.DraftAdmitted | src/store/mod.rs:807-825 | the initial write admits exactly the drafts whose identity fields are well formed |
| Workflow.ReadEvidence | src/capture/mod.rs:538-550 | nothing is read without admission; an admitted trace whose lines are all accepted is read whole, and any other keeps nothing and reports the error |
| Workflow.Conclude | src/capture/mod.rs:513-608 | the recorder's stop is frozen before anything is decided; the reduced facts are exactly the captured collector, its limits with the final excess, the signal, and an error if and only if one of the four sources had one; the contract rejects exactly when a parsed row cannot be saved; a published record is admitted by its reader and is the account of those facts |
| Workflow.CompletedUntouched | src/capture/mod.rs:513-608 | the collector of a completed record was reaped without any signal ever having been sent to it |
| Workflow.RecordInScope | src/capture/mod.rs:422-608 | a record is published or rejected on its contents only when both the probe and the collector are reaped or never existed; the run stops short only for what its stage reports; a published record is the account of the facts that the capture, the final length, the reading and the signal source gave; an unquiesced error means a producer was not reaped |
| Workflow.RecordOwned | src/capture/mod.rs:397-614 | over every schedule of signals, waits, limits and failures: no watched signal ever acts on a temporary disposition; a published record is quiesced, admitted, and accounts for the captured facts: a crossed limit, an excess at the end, a supervision error or an uncertain collector is never completed, exits 125 without a recorder signal and has its warning; the collector of a completed record ended by itself, without any signal sent to it; complete restoration returns the caller's dispositions and mask |
| Signals.Acquire | src/capture/supervision.rs:1009-1086 | a scope exists if and only if every setup call succeeded, with all three signals blocked and set to their default action and the caller's actions, mask and blocked bits saved; every partial failure rolls back without unblocking over a temporary disposition |
| Signals.SignalScope.Observe | src/capture/supervision.rs:1100-1147 | draining latches only the first record ever read; a frozen scope consumes nothing |
| Signals.SignalScope.Freeze | src/capture/supervision.rs:1168-1175 | acquisition ends even when the last read fails, and the first observation is final |
| Signals.SignalScope.RestoreParent | src/capture/supervision.rs:1231-1271 | reports exactly what the calls answered: the last read, every disposition attempted once in reverse, and the mask only after all succeeded; a failed attempt leaves signals blocked or dispositions original, and a retry after success does nothing |
| Signals.RestoreActions | src/capture/supervision.rs:1387-1400 | each changed disposition is attempted once, last first, and success means all are the caller's again |
| Signals.Rollback | src/capture/supervision.rs:1403-1435 | a failed setup attempts every changed disposition and never unblocks while one is temporary |
| Collector.CollectorGuard.WaitUntil | src/capture/supervision.rs:691-715 | retrying ends at a fixed deadline, whatever the wait results |
| Collector.CollectorGuard.ObserveWait | src/capture/supervision.rs:551-560 | a wait status consumes authority, a missing child disproves it, and any other error keeps it |
| Collector.CollectorGuard.Terminate | src/capture/supervision.rs:587-612 | a kill is attempted exactly while the child is still owned |
| Collector.CollectorGuard.TerminateAndReapStatus | src/capture/supervision.rs:572-585 | one kill, then reaping whatever the kill's result; a status means exactly one kill and a consumed wait, and a guard without authority does nothing |
| Collector.CollectorGuard.RevokeUnquiesced | src/capture/supervision.rs:679-687 | authority is given up unless the child was reaped, and exactly then the error is marked |
| Collector.CollectorGuard.Finish | src/capture/supervision.rs:515-524 | the status is the last wait's own, without any signal; otherwise nothing is left to own and the error is marked if and only if the child was not reaped |
| Collector.CollectorGuard.Abort | src/capture/supervision.rs:527-531 | kills first when still owned, leaves nothing for Drop, and marks exactly the unreaped |
| Collector.CollectorGuard.Cancel | src/capture/supervision.rs:671-676 | a status follows exactly one kill and a consumed wait; otherwise as for an abort |
| Collector.CollectorGuard.Drop | src/capture/supervision.rs:719-731 | after an explicit ending Drop does nothing; otherwise it kills once and gives authority up |
| Collector.AttachOwned | src/capture/supervision.rs:470-500 | a process handle is kept if and only if it could be opened; a lost identity is never signalled by number, and every refusal ends authority truthfully |
| Supervision.StartupGate.ObserveBeforeSpawn | src/capture/mod.rs:153-176 | a prior error forbids another read, only a silent observation keeps permission, exactly a failed read is an error, and a cancellation is never forgotten |
| Supervision.HandshakeExact | src/capture/supervision.rs:383-396 | the decoder reports an errno if and only if it is positive and the stream is exactly the child's frame for it, and a launch only for an empty stream |
| Supervision.Handshake.Observe | src/capture/supervision.rs:356-381 | the verdict depends on the stream's total content, never on how reads cut it; a longer stream or a failed read is refused at once, and only its end closes it |
| Supervision.ObserveCaptureLimits | src/capture/supervision.rs:1913-1933 | an overdue duration is always latched; a byte fact comes from the last successful read, the first strictly above the limit; an unreadable length decides nothing |
| Supervision.PollDeadline | src/capture/supervision.rs:1946-1963 | the wakeup is one of the pending boundaries and no later than any of them |
| Supervision.Decide | src/capture/supervision.rs:1994-2030 | after a round's first half an observed signal has been handled and a crossed limit has a running grace that was never restarted or extended |
| Supervision.ForwardRecorderSignal | src/capture/supervision.rs:2004-2018 | the first signal is forwarded once unless the backend would ignore it, in which case the collector is cancelled |
| Supervision.RequestLimitTermination | src/capture/supervision.rs:2020-2030 | a newly crossed limit sends one TERM and starts the only grace |
| Supervision.Await | src/capture/supervision.rs:2032-2095 | the round's sight is the poll's own: a ready collector is reaped by waiting and the run ends with its status, an expired grace or a failed or invalid poll ends it, and otherwise readiness is exactly what the poll reported |
| Supervision.SuperviseCollector | src/capture/supervision.rs:1972-2096 | every run sets at most one deadline and never moves it, sends at most one TERM and one forwarded signal in that order, and ends with authority settled; it is still running only if every poll before its last was not ready; readiness in its last round without a signal, limit or error ends it by a consumed wait with nothing sent; with a duration limit it needs no more rounds than its remaining time, its grace and one |
| Supervision.SentAtMostOnce | src/capture/supervision.rs:1972-2096 | in any run's journal no TERM follows a recorder signal, neither is repeated, and after cleanup begins only kills follow |
| Supervision.CaptureCollector | src/capture/supervision.rs:2149-2201 | facts are returned only when no child was created or its wait status was consumed, with that status; the duration fact is the configured one, the byte fact is explained by what was read, with neither limit, signal nor unreadable length the child was waited for and nothing else; an unquiesced error means the child was not reaped |
| Probe.CapturedPipe.Drain | src/capture/supervision.rs:1510-1548 | everything received within the limit is kept, an oversized stream is refused and never truncated, and neither interruptions nor output outlast the deadline |
| Probe.CancelProbe | src/capture/supervision.rs:1600-1616 | a cancellation is admitted only once the probe was reaped; otherwise the marked error stays an error |
| Probe.FailProbe | src/capture/supervision.rs:1620-1632 | an observable cancellation takes precedence over the probe's own error |
| Probe.CompleteProbe | src/capture/supervision.rs:1637-1676 | completion means reaped with the consumed wait's status zero, no signal observed before or after, no signal sent, and the output is all that was received |
| Probe.SuperviseProbe | src/capture/supervision.rs:1682-1786 | every ending of the probe loop tells whether the probe was reaped, the probe is only ever killed, and it is still running only if every poll was silent |
| Probe.ProbeBackend | src/capture/supervision.rs:1790-1827 | the preflight completes only with the probe reaped and no signal seen, is cancelled only with it reaped or never started, and marks exactly the unreaped failures |
| Buckets.Record | src/diff/mod.rs:299-322 | one occurrence is appended under its outcome and nothing else changes, through the empty, single and promoted representations |
| Buckets.RecordAll | src/diff/mod.rs:275-322 | any sequence of occurrences is kept exactly: each outcome's list is its pushed indices in order, no outcome lost or invented, and the map form only for two or more |
| Buckets.KeysDecideSets | src/diff/mod.rs:323-341 | comparing two buckets' outcome iterations for equality is comparing their outcome sets |
| Aggregation.IndicesMeaning | src/diff/mod.rs:420-431 | the indices of a key's outcome are exactly its supporting saved events, in increasing order |
| Aggregation.Aggregated | src/diff/mod.rs:415-432 | every bucket holds exactly the saved indices of its key, outcome by outcome; the explicit format withholds unfinalized sides entirely |
| Aggregation.PresentKeys | src/diff/mod.rs:415-432 | a key has a bucket if and only if some saved event supports it |
| Aggregation.OrderedAggregates | src/diff/mod.rs:440-467 | the merge-join yields the ascending key union, each key once, with both sides' exact buckets |
| Sampling.SampleEventIndices | src/diff/mod.rs:356-401 | the three passes give the policy's selection |
| Sampling.SamplesSound | src/diff/mod.rs:356-401 | samples are at most three distinct supporting occurrences, never more than there are, nonempty when any exist, and begin with the first occurrences of side-only outcomes |
| Sampling.SamplesUseBudget | src/diff/mod.rs:356-401 | fewer than three samples mean that every occurrence's coordinates are already sampled |
| Comparison.ObservationChange | src/diff/mod.rs:763-813 | a key changes if and only if its outcome sets differ, and the change carries its sets, samples and, in the explicit format, complete mappings |
| Comparison.CompareObservations | src/diff/mod.rs:864-875 | aggregation, join and materialization give one change per changed key, in key order |
| ObservationLaws.ChangesOnRows | src/diff/mod.rs:815-875 | on rows: the changes are those of exactly the keys whose seen outcomes differ between the runs, once each in key order |
| ObservationLaws.ChangeOnRows | src/diff/mod.rs:763-813 | each change carries its own side's outcomes in order and up to three of its own rows, left as left and right as right, and in the explicit format the row count, samples and omitted count of each side or its withholding |
| Comparison.NormalizedMappingOf | src/diff/mod.rs:553-588 | counts, samples and references of a side are those of its outcomes, or withheld when the side is unfinalized |
| Comparison.NoChangeIffSameTuples | src/diff/mod.rs:763-774 | there is no observation change if and only if both sides admit the same (kind, operation, path, outcome) tuples |
| Comparison.ChangesDependOnTuples | src/diff/mod.rs:404-414 | runs with the same tuples have changes with the same keys and outcome sets at the same positions |
| Comparison.ChangesSurviveRewriting | src/diff/mod.rs:404-414 | runs with equal storage facts whose compared events show the same facts, in any order and number and under any PIDs, have changes with the same keys and outcome sets at the same positions |
| Comparison.RewritingsKeepFacts | src/diff/mod.rs:404-414 | permuting a vector, appending repetitions and renaming every task, all at once, keeps those facts |
| Comparison.SwapKeepsOrder | src/diff/mod.rs:815-875 | swapping the sides keeps keys and production order, exchanges outcomes, samples and mappings, and turns new accesses into removed ones and back, leaving other kinds as they are |
| Comparison.MappingExact | src/diff/mod.rs:574-587 | the references of a changed key's outcome are exactly its saved events, each once, in increasing order |
| Comparison.ReferencesDistinct | src/diff/mod.rs:562-564 | no saved event is referenced under two outcomes |
| Comparison.SamplesWithinMapping | src/diff/mod.rs:565-573 | samples never outnumber the mapped events, so the omitted count never underflows |
| Comparison.WithheldSideHoldsNothing | src/diff/mod.rs:415-419 | an unfinalized side contributes no observation to an explicit report |
| Reports.MetadataSilent | src/diff/mod.rs:658-755 | metadata changes are absent if and only if target outcome, directory, command, capture summary and environment agree |
| StatusLaws.MetadataListed | src/diff/mod.rs:658-755 | each metadata change is listed if and only if its own facts differ: the target's numbers, or spelling when there are none; directory; command; state, completeness or warning count; each environment variable |
| StatusLaws.MetadataInOrder | src/diff/mod.rs:658-755 | in one order, environment variables last by name, none repeated |
| Reports.AppendMetadataChanges | src/diff/mod.rs:658-755 | fixed facts in order, then every differing variable in key order |
| Reports.RankTiers | src/diff/mod.rs:617-643 | metadata precedes every observation, the exit status first and the capture summary second |
| Reports.ObservationTier | src/diff/mod.rs:617-643 | the tier of every changed key by its kind and its sides' outcome sets alone: a lone success turned into failures only, other executions that only fail now, a new clean execution, a new access, a clean execution that disappeared, mixed outcomes, a removed access |
| Reports.RankedIsStable | src/diff/mod.rs:617-643 | ranking reorders by tier, keeps production order within a tier and loses nothing |
| Reports.RankChanges | src/diff/mod.rs:904-910 | assigned ranks sort the changes into that order |
| Reports.StatusTwo | src/diff/mod.rs:1048-1078 | status 2 if and only if a side failed to load, its contract or its raw integrity, and then there is no change and no conclusion; otherwise there is a conclusion |
| StatusLaws.InputMeans | src/model/mod.rs:569-655 | which loaded runs the comparison admits, on storage, schemas, metadata, rows and raw receipt |
| StatusLaws.FailureOnFacts | src/diff/mod.rs:1048-1078 | status 2 if and only if a side did not load, is not admitted, or its raw trace is corrupt or unavailable |
| StatusLaws.StatusOnFacts | src/diff/mod.rs:930-977 | for two admitted runs status 3 unless each is verified, completed and complete and, when either is trace-v1 or the format shows traces, each is schema 4 with a verified raw trace and a saved target; then 0 if outcome, directory, command, environment and the seen file and exec facts agree and 1 otherwise |
| StatusLaws.ReportShown | src/diff/mod.rs:1091-1211 | every report's version and what it says of each side: an admitted run's own storage and whether its capture is complete, incomplete or unknown, a failed input's kind, and in trace reports the raw status and whether a target is saved |
| Reports.TrustedStatus | src/diff/mod.rs:930-935 | statuses 0 and 1 occur only with both sides trusted, and tell equality from difference; `StatusLaws.StatusOnFacts` says which runs those are |
| Reports.TrustedEquality | src/diff/mod.rs:815-936 | status 0 if and only if both sides are admitted and trusted, their compared metadata agrees and they admit the same tuples |
| Reports.OutcomeStatusMatches | src/diff/mod.rs:1208-1211 | the explicit format's status equals the trace format's on every input pair, although it withholds unfinalized observations |
| Reports.TraceStatusOnlyWithdraws | src/diff/mod.rs:1165-1183 | the trace format's status equals the automatic one or is 3 |
| Reports.Compare | src/diff/mod.rs:815-936 | report assembly computes the specified report from two runs and their contract verdicts; `StatusLaws.FailureOnFacts` and `StatusLaws.StatusOnFacts` state its status on run facts |
| Reports.PublishedIsComparable | src/model/mod.rs:569-655 | a trace-v1 record admitted by the saved-run contract with an admitted parsed receipt is never a failed comparison input |
| Frame.WordsAtOffsets | src/capture/owner.rs:265-303 | the reader's fixed byte offsets are those of the header's consecutive words |
| Frame.FixedLayout | src/capture/owner.rs:184-254 | magic, version, header length, total, contract and flags stand at their byte offsets of a written frame |
| Frame.LimitLayout | src/capture/owner.rs:184-254 | and so do the duration, byte limit and grace, absent ones as zero, and the counts of each kind of part |
| Frame.PayloadLayout | src/capture/owner.rs:176-183 | after the header come root, name, selected names, command and environment, each after its length |
| Words.LowBytesFirst | src/capture/owner.rs:265-303 | a word's earlier bytes are its lower ones |
| Frame.ReadsWhatIsWritten | src/capture/owner.rs:184-374 | reading a written request gives it back, for every valid request with a command |
| Frame.AcceptedIsCanonical | src/capture/owner.rs:256-374 | every accepted byte string is exactly what the writer produces for the request it holds |
| Frame.AcceptedFramesDoNotExtend | src/capture/owner.rs:276-279 | no accepted frame is a proper prefix or extension of another |
| Frame.WriteRequest | src/capture/owner.rs:184-254 | a request is written as its frame if and only if no part holds a NUL and its length and counts fit |
| Frame.ReadFields | src/capture/owner.rs:315-345 | fields are taken in order from what is left, and the remaining budget never underflows |
| Frame.ReadRequest | src/capture/owner.rs:256-374 | the decoder accepts exactly the frames within its budget |
| Frame.BoundSuffices | src/capture/owner.rs:154-167 | for every pointer width the kernel-derived budget suffices for any request whose strings passed through the kernel, with a root of one such string and the suffix |
| View.JoinSplit | docs/noise-folding-evaluation/view.py:15-16 | splitting a path into tokens loses nothing |
| View.SplitJoin | docs/noise-folding-evaluation/view.py:15-16 | joining any alternating token list and splitting it again gives the list back |
| View.RecurringOnce | docs/noise-folding-evaluation/view.py:70-78 | a row enters any one pattern-and-operation bucket at most once |
| View.NamespaceOnce | docs/noise-folding-evaluation/view.py:92-102 | a row enters any one directory bucket at most once |
| SlotLaws.RecurringOffers | docs/noise-folding-evaluation/view.py:70-78 | on characters: a row enters exactly the buckets whose pattern replaces one whole alphanumeric piece of at least four characters between separators, under its own operation |
| SlotLaws.NamespaceOffers | docs/noise-folding-evaluation/view.py:92-102 | and exactly the directory buckets whose pattern does so in the path up to the first slash after the piece |
| View.Fill | docs/noise-folding-evaluation/view.py:71-78 | each bucket lists, in row order and each row once, exactly the eligible rows with a slot for its key |
| View.Propose | docs/noise-folding-evaluation/view.py:70-120 | a rule's proposals are exactly those given by the complete buckets that pass its gate, each listing existing rows once |
| View.SortProposals | docs/noise-folding-evaluation/view.py:125 | largest first, then rule and pattern, keeping every proposal |
| View.SelectGroups | docs/noise-folding-evaluation/view.py:126-129 | accepted groups are disjoint, and every rejected proposal overlaps an accepted one that comes ahead of it: larger, or as large with an earlier rule or pattern |
| GroupLaws.RecurringMeans | docs/noise-folding-evaluation/view.py:70-90 | every recurring group on its rows: one pattern and operation, one producing process a side and the same executables on both, at least two rows a side, no slot value on both sides, the same call counts |
| GroupLaws.RecurringDecided | docs/noise-folding-evaluation/view.py:79-90 | a complete bucket is proposed if and only if its rows form such a family |
| GroupLaws.PairedMeans | docs/noise-folding-evaluation/view.py:92-120 | every paired group on its rows: one directory a side in the slot of one pattern, each file once and with its twin of the same relative path, operation and count on the other side, at least three a side, one producer a side |
| GroupLaws.PairedDecided | docs/noise-folding-evaluation/view.py:103-120 | a complete bucket is proposed if and only if it lies in one directory a side and the rows with a unique twin form such a subtree |
| GroupLaws.GroupedMeans | docs/noise-folding-evaluation/view.py:122-136 | every group of the view is one of these two |
| View.CoversEveryRow | docs/noise-folding-evaluation/view.py:130-133 | ungrouped rows and group members together are every raw row exactly once, so the view's own assertion never fails |
| View.Candidate | docs/noise-folding-evaluation/view.py:122-136 | the whole view: the mode's proposals, disjoint groups among them chosen largest first, every raw row exactly once, and entries for ungrouped rows and groups in row order |
| Privacy.Base64.DecodeToken | tools/check_export.py:771-790 | a decoded token is the decoder's own result, cached once, and a refusal always means a spent budget |
| Privacy.Base64.Offer | tools/check_export.py:791-797 | a decoding is queued exactly when its role view is neither seen nor scheduled |
| Privacy.Expand | tools/check_export.py:761-799 | every decoding of a view is seen or queued one step deeper in its own role, or a budget is spent |
| Privacy.Round | tools/check_export.py:743-799 | one queue step: seen views are skipped, views over a traversal budget stop the scan unscanned, others are counted and expanded |
| Privacy.Scan | tools/check_export.py:732-800 | the worklist always terminates; an empty result means no view derivable from the roots matches its role's rule, the match count is exact over the scanned set, which is reachable and, without exhaustion, holds the roots and is closed under every decoder; exhaustion names a budget that ran out |
| Privacy.ClosedHoldsAll | tools/check_export.py:732-800 | a closed set holding the roots holds everything derivable, so an unexhausted clean scan left nothing out |
| Privacy.MergeRanges | tools/check_export.py:382-387 | merged ranges are in order with gaps and cover exactly the same characters |
| Privacy.SpliceRanges | tools/check_export.py:388-389 | replacing from the last range to the first gives the text with each range replaced at its original position |
| Privacy.SplicedIsMasked | tools/check_export.py:388-390 | splicing separated ranges is the same as reading the text once and masking each covered stretch |
| Privacy.MaskRanges | tools/check_export.py:380-390 | sorting, merging and splicing yield the character-by-character definition: every uncovered character stays, covered ones vanish, and one mask stands where each approved stretch begins |
| History.Reachable | tools/check_export.py:1030-1035 | the parent walk visits exactly the commits reachable from the head |
| History.CheckHistory | tools/check_export.py:1007-1041 | a walk within the budgets is accepted if and only if it is a complete history: distinct commits, one known root, parents first, everything reachable from the head |
| History.AncestorsEarlier | tools/check_export.py:1039-1041 | in a complete history ancestors are listed strictly earlier, so no commit is its own proper ancestor |
| History.DescendsFromRoot | tools/check_export.py:1025-1027 | every commit of a complete history descends from the known root |

## Left out

- WriterReader.StructuredRecordIsRead: takes what the parser guarantees as hypotheses, namely a row's PID of digits, its operation and family from the fixed table, its path, argv and child by family (`TraceRows.ParsedShape`), exits from admitted rows, coordinates within the trace, and every warning source kept; the line grammar that gives them is not modelled.
- WriterReader.TraceRecordIsRead: takes the same promises, and path-context resolution as a relation (it only raises uncertainty and fills the observed directory, and a quiet pass found nothing incomplete) rather than its own state machine; the pass gets the initial directory, each row's decoded action and the timeline (`Workflow.Parser.resolve`), but how it uses them is not modelled.
- Collector.Clock.Read: every reading advances the clock, while the source's monotonic clock only never goes back; retry and round bounds (Supervision.SuperviseCollector, Supervision.Await, Collector.CollectorGuard.WaitUntil) rest on readings eventually passing a deadline.
- Provenance.FromTimeline: missing labels are kept in creation order as structured labels; their text and lexical sort are not modelled.
- Findings.ApplyIdentityFindings: the wording of identity warnings is not modelled, only how many there are.
- Supervision.SuperviseCollector: a run without a duration limit is cut off after a given number of rounds, because only the target decides when it ends; the contract then states what holds so far.
- Probe.SuperviseProbe: runs for at most a given number of rounds, because a kernel that keeps reporting readiness without data would keep the loop alive.
- Supervision.PollDeadline: the byte boundary's next wakeup is taken from a clock reading that always fits the clock's range.
- Reports.Compare: metadata changes carry their kind only; their display text, evidence mappings, subjects and the report's warnings are not modelled.
- Comparison.CompareObservations: sample coordinates are kept as saved indices, and display categories and subjects are not modelled.
- Buckets.Record: the bucket is a value that each step replaces, not an enum updated in place through a borrowed vector.
- Reduction.ApplyToMetadata: metadata is a value; the source assigns its fields in place.
- View.Propose: buckets are visited in any order, so proposals equal in size, rule and pattern may be ordered differently; the evidence shown with a proposal is not modelled.
- Privacy.Scan: decoders and matching rules are arbitrary functions, and the reviewed-constant filter is part of the rule.
- History.CheckHistory: the listed walk is given; object contents, schema grants, query and work budgets are not modelled.
- Frame.ReadRequest: UTF-8 validity is an arbitrary predicate, and allocation failure is not modelled.
- Workflow.RecordOwned: the raw bytes are a parameter and storage failures are arbitrary; files, locks, read-back, the record identifier, environment selection and the restored child lifecycle around the operation are not modelled.
- Wording: diagnostic and warning text, number formatting and the concatenation of error messages.
- Process start: the forked child's own steps, descriptor setup and image replacement.
- Storage: file I/O, atomic publication, read-back and the SHA-256 function; a digest is any 64 lower-case hexadecimal digits.
- Debug rendering in comparisons: command and target text are compared as values, taking the rendering as injective.
- Row preparation in the grouping view: eligibility, lineage and counts of a row are given.
- Overflow: machine integers appear only as explicit bounds (32 and 64 bits) where the source checks them.
- Command line, configuration, rendering and packaging: thin or presentational.
