/** Formal supervision of one collector: signals, limits, readiness and startup handshake. */
module Supervision {
  import opened Ordered
  import opened Spelling
  import opened Reduction
  import opened Words
  import opened Signals
  import opened Collector

  // ---------- startup permission ----------

  datatype Gate = GateReady | Cancelled(cleanupFailed: bool) | ObservationFailed

  /** No read of the recorder's signals failed in between. */
  ghost predicate AllRead(before: seq<bool>, after: seq<bool>) { forall i :: |before| <= i < |after| ==> after[i] }

  class StartupGate {
    var state: Gate

    constructor (probeCancelled: Option<bool>)
      ensures state == (match probeCancelled case None => GateReady case Some(failed) => Cancelled(failed))
    {
      state := match probeCancelled case None => GateReady case Some(failed) => Cancelled(failed);
    }

    predicate HasError()
      reads this
    {
      state.ObservationFailed? || (state.Cancelled? && state.cleanupFailed)
    }

    /** A prior error forbids another read; only a silent observation keeps permission. */
    method ObserveBeforeSpawn(scope: SignalScope)
      requires scope.Valid()
      modifies this, scope`firstObserved, scope.kernel`consumed, scope.kernel`drains
      ensures scope.Valid()
      ensures old(HasError()) ==> state == old(state) && scope.kernel.consumed == old(scope.kernel.consumed)
      ensures state.GateReady? ==> old(state).GateReady? && scope.firstObserved.None?
      ensures old(state).Cancelled? ==> state.Cancelled?
      ensures old(state).GateReady? && state.Cancelled? ==> scope.firstObserved.Some? && !state.cleanupFailed
      ensures scope.firstObserved.Some? && !old(HasError()) ==> !state.GateReady?
      ensures old(scope.kernel.drains) <= scope.kernel.drains && scope.frozen == old(scope.frozen)
      ensures old(HasError()) ==> scope.kernel.drains == old(scope.kernel.drains)
      ensures AllRead(old(scope.kernel.drains), scope.kernel.drains) ==>
                (HasError() <==> old(HasError())) && (scope.firstObserved.None? ==> state == old(state))
      ensures !AllRead(old(scope.kernel.drains), scope.kernel.drains) ==> HasError()
      ensures old(scope.firstObserved).Some? ==> scope.firstObserved == old(scope.firstObserved)
    {
      if HasError() { return; }
      var ok := scope.Observe();
      if !ok {
        assert !scope.kernel.drains[|scope.kernel.drains| - 1];
        state := if state.Cancelled? then Cancelled(true) else ObservationFailed;
      } else if scope.firstObserved.Some? {
        state := Cancelled(false);
      }
    }
  }

  // ---------- the startup handshake ----------

  const MAGIC: seq<byte> := [82, 68, 83, 80]

  datatype Launch = Launched | LaunchErrno(errno: nat) | Malformed

  /** An empty stream is a launch; only one exact frame with a positive errno is a launch error. */
  function DecodeExecHandshake(s: seq<byte>): Launch {
    if s == [] then Launched
    else if |s| != 8 || s[..4] != MAGIC then Malformed
    else if 0 < Decode(s[4..]) < 0x8000_0000 then LaunchErrno(Decode(s[4..]))
    else Malformed
  }

  /** The decoder inverts the child's frame for a positive errno, and nothing else yields one; only silence is a
      launch. */
  lemma HandshakeExact(s: seq<byte>, errno: nat)
    ensures DecodeExecHandshake(s) == LaunchErrno(errno) <==>
              0 < errno < 0x8000_0000 && s == [82, 68, 83, 80] + Encode(errno, 4)
    ensures DecodeExecHandshake(s).Launched? <==> s == []
  {
    if !(0 < errno < 0x8000_0000) { return; }
    var frame := MAGIC + Encode(errno, 4);
    assert frame[..4] == MAGIC && frame[4..] == Encode(errno, 4);
    assert Pow256(4) == 0x1_0000_0000;
    hide Encode;
    hide Decode;
    hide Pow256;
    WordRoundTrip(errno, 4);
    if |s| == 8 && s[..4] == MAGIC && Decode(s[4..]) == errno {
      WordCanonical(s[4..]);
      assert s == s[..4] + s[4..];
    }
  }

  datatype Chunk = Eof | Data(bytes: seq<byte>) | WouldBlock | Interrupt | ReadError

  datatype HandshakeView = Fine | LaunchFailed(launch: Launch)

  class Handshake {
    var open: bool
    var buffer: seq<byte>
    ghost var received: seq<byte>
    ghost var last: Chunk

    /** Not yet refused: everything read is buffered. */
    ghost predicate Valid()
      reads this
    {
      |buffer| <= 8 && buffer == received
    }

    constructor ()
      ensures Valid() && open && received == []
    {
      open, buffer, received := true, [], [];
    }

    method ReadChunk() returns (c: Chunk)
      modifies this`received, this`last
      ensures last == c && (c.Data? ==> 1 <= |c.bytes| <= 9)
      ensures received == old(received) + (if c.Data? then c.bytes else [])
    {
      c := *;
      if c.Data? && !(1 <= |c.bytes| <= 9) { c := WouldBlock; }
      received, last := received + (if c.Data? then c.bytes else []), c;
    }

    /** Consume available bytes. Once the stream ends the verdict depends on its total content, never
        on how it was cut into reads; a longer stream is refused as soon as it is too long. */
    method Observe() returns (view: HandshakeView)
      requires Valid()
      modifies this
      ensures Valid() || view.LaunchFailed?
      ensures !old(open) ==> view == Fine && received == old(received) && !open
      ensures old(open) && !open ==>
                view == (match DecodeExecHandshake(received) case Launched => Fine case l => LaunchFailed(l))
      ensures |received| > 8 ==> view == LaunchFailed(Malformed)
      ensures old(open) ==>
                (open <==> !last.Eof?) && (last.ReadError? ==> view == LaunchFailed(Malformed)) &&
                (last.WouldBlock? || last.Interrupt? ==> view.Fine?)
      ensures view.Fine? ==> Valid()
      ensures old(received) <= received
    {
      if !open { return Fine; }
      while true
        invariant Valid() && open && old(received) <= received
        decreases 8 - |buffer|
      {
        var c := ReadChunk();
        match c {
          case Eof =>
            open := false;
            assert buffer == received;
            var launch := DecodeExecHandshake(buffer);
            return if launch.Launched? then Fine else LaunchFailed(launch);
          case Data(bytes) =>
            if |buffer| + |bytes| > 8 { return LaunchFailed(Malformed); }
            buffer := buffer + bytes;
          case ReadError => return LaunchFailed(Malformed);
          case _ => return Fine;
        }
      }
    }
  }

  // ---------- deadlines ----------

  const POLL_INTERVAL: nat := 50

  datatype Policy = Policy(duration: Option<nat>, traceBytes: Option<nat>, grace: nat)

  datatype Schedule = Schedule(durationLimit: Option<nat>, durationDeadline: Option<nat>, grace: nat)

  function Earliest(current: Option<nat>, candidate: Option<nat>): Option<nat> {
    if candidate.Some? && (current.None? || candidate.value < current.value) then candidate else current
  }

  /** A wakeup no later than any boundary still waiting to be observed. */
  predicate Punctual(deadline: Option<nat>, policy: Policy, schedule: Schedule, limits: Limits, termination: Option<nat>,
                     now: nat) {
    && (termination.Some? ==> deadline.Some? && deadline.value <= termination.value)
    && (limits.duration.None? && schedule.durationDeadline.Some? ==>
          deadline.Some? && deadline.value <= schedule.durationDeadline.value)
    && (policy.traceBytes.Some? && limits.traceBytes.None? ==> deadline.Some? && deadline.value <= now + 50)
    && (deadline.Some? ==>
          || deadline == termination
          || (limits.duration.None? && deadline == schedule.durationDeadline)
          || (policy.traceBytes.Some? && limits.traceBytes.None? && deadline.value == now + 50))
  }

  /** Boundaries whose observation is still pending. */
  function PendingDuration(schedule: Schedule, limits: Limits): Option<nat> {
    if limits.duration.None? then schedule.durationDeadline else None
  }

  function PendingBytes(policy: Policy, limits: Limits, now: nat): Option<nat> {
    if policy.traceBytes.Some? && limits.traceBytes.None? then Some(now + POLL_INTERVAL) else None
  }

  function PollDeadline(policy: Policy, schedule: Schedule, limits: Limits, termination: Option<nat>, now: nat)
    : (deadline: Option<nat>)
    ensures Punctual(deadline, policy, schedule, limits, termination, now)
  {
    Earliest(Earliest(termination, PendingDuration(schedule, limits)), PendingBytes(policy, limits, now))
  }

  // ---------- observing limits ----------

  /** A duration limit is in force and its deadline has passed. */
  predicate Overdue(schedule: Schedule, now: nat) {
    schedule.durationLimit.Some? && schedule.durationDeadline.Some? && now >= schedule.durationDeadline.value
  }

  /** The anchored trace length; absent when it cannot be read. */
  method ReadLength() returns (length: Option<nat>)
  {
    var readable, bytes := *, *;
    length := if readable && bytes >= 0 then Some(bytes) else None;
  }

  /** Successful length reads so far explain the byte fact: none before the last exceeded the limit. */
  ghost predicate Explained(policy: Policy, fact: Option<ByteExcess>, lengths: seq<nat>) {
    && (policy.traceBytes.None? ==> lengths == [])
    && (policy.traceBytes.Some? ==>
          forall i :: 0 <= i < |lengths| ==>
            (lengths[i] > policy.traceBytes.value <==> fact.Some? && i == |lengths| - 1))
    && (fact.Some? ==> policy.traceBytes.Some? && lengths != [] &&
                       fact.value == ByteExcess(lengths[|lengths| - 1], policy.traceBytes.value))
  }

  method ObserveCaptureLimits(policy: Policy, schedule: Schedule, facts: LimitFacts, clock: Clock, ghost lengths: seq<nat>)
    returns (ok: bool, newly: bool, ghost seen: seq<nat>, ghost read: Option<Option<nat>>, ghost at: Option<nat>)
    requires facts.Valid() && Explained(policy, facts.traceBytes, lengths)
    modifies facts, clock
    ensures facts.Valid() && Explained(policy, facts.traceBytes, seen) && lengths <= seen
    ensures facts.duration ==
            (if old(facts.duration).Some? then old(facts.duration)
             else if at.Some? && Overdue(schedule, at.value) then schedule.durationLimit else None)
    ensures at.Some? <==> schedule.durationLimit.Some? && schedule.durationDeadline.Some?
    ensures at.Some? ==> old(clock.now) < at.value <= clock.now
    ensures old(facts.traceBytes).Some? ==> facts.traceBytes == old(facts.traceBytes) && seen == lengths
    ensures ok && policy.traceBytes.Some? && old(facts.traceBytes).None? ==> |seen| == |lengths| + 1
    ensures read.Some? <==> policy.traceBytes.Some? && old(facts.traceBytes).None?
    ensures ok <==> read != Some(None)
    ensures seen == (match read case Some(Some(n)) => lengths + [n] case _ => lengths)
    ensures ok ==> (newly <==> facts.Facts() != old(facts.Facts()))
    ensures clock.now >= old(clock.now)
  {
    newly, seen, read, at := false, lengths, None, None;
    if schedule.durationLimit.Some? && schedule.durationDeadline.Some? {
      var t := clock.Read();
      at := Some(t);
      if t >= schedule.durationDeadline.value {
        var first := facts.ObserveDuration(schedule.durationLimit.value);
        newly := newly || first;
      }
    }
    if policy.traceBytes.Some? && facts.traceBytes.None? {
      var length := ReadLength();
      read := Some(length);
      if length.None? { return false, newly, seen, read, at; }
      var first := facts.ObserveTraceBytes(length.value, policy.traceBytes.value);
      seen := seen + [length.value];
      newly := newly || first;
    }
    ok := true;
  }

  // ---------- the supervision loop ----------

  /** Signals sent while supervising: at most one limit TERM, then at most one forwarded recorder
      signal. A TERM never follows a forwarded signal. */
  function LoopJournal(limited: bool, forwarded: Option<int>): seq<Act> {
    (if limited then [Signalled(SIGTERM, LimitTermination)] else []) +
    (match forwarded case Some(n) => [Signalled(n, RecorderSignal)] case None => [])
  }

  datatype Supervised =
    | Ended(status: Status, limits: Limits, lengthFailed: bool)
    | StillRunning

  datatype Readiness = Readiness(ok: bool, invalid: bool, handshake: bool, collector: bool)

  /** Wait for a descriptor or the deadline; it must not sleep past a pending boundary. */
  method Poll(clock: Clock, policy: Policy, schedule: Schedule, limits: Limits, termination: Option<nat>,
              read: nat, deadline: Option<nat>) returns (r: Readiness)
    requires Punctual(deadline, policy, schedule, limits, termination, read)
    requires read <= clock.now
    modifies clock
    ensures clock.now >= old(clock.now)
  {
    var t := clock.Read();
    r := *;
  }

  /** Grace from now; representing it may fail. */
  method TerminationDeadline(clock: Clock, schedule: Schedule) returns (deadline: Option<nat>)
    modifies clock
    ensures clock.now >= old(clock.now)
    ensures deadline.Some? ==> deadline.value == clock.now + schedule.grace
  {
    var t := clock.Read();
    var representable := *;
    deadline := if representable then Some(t + schedule.grace) else None;
  }

  /** The loop's latches: one shared termination grace, one recorder delivery, pidfd readiness. */
  datatype Latches = Latches(termination: Option<nat>, handled: bool, ready: bool)

  /** What a run did: limit TERM, forwarded signal, every termination deadline set, every length read
      and every moment at which the duration was checked. */
  datatype Log = Log(limited: bool, forwarded: Option<int>, deadlines: seq<nat>, lengths: seq<nat>, times: seq<nat>)

  /** At most one deadline is ever set, by the first termination request, and it stays. */
  predicate OneDeadline(l: Latches, log: Log) {
    && l.termination == (if log.deadlines == [] then None else Some(log.deadlines[0]))
    && |log.deadlines| <= 1
    && (l.termination.Some? <==> log.limited || log.forwarded.Some?)
    && (l.handled <==> log.forwarded.Some?)
  }

  ghost predicate SignalsKept(scope: SignalScope, first: Option<int>, forwarded: Option<int>)
    reads scope, scope.kernel
  {
    && scope.Valid()
    && (first.Some? ==> scope.firstObserved == first)
    && (forwarded.Some? ==> forwarded == scope.firstObserved && !scope.RequiresDirectTermination(forwarded.value))
  }

  /** The duration fact is the configured limit exactly when some check found its deadline passed. */
  ghost predicate Timed(schedule: Schedule, duration: Option<nat>, times: seq<nat>) {
    duration == (if exists i :: 0 <= i < |times| && Overdue(schedule, times[i]) then schedule.durationLimit else None)
  }

  lemma TimedNext(schedule: Schedule, before: Option<nat>, times: seq<nat>, at: Option<nat>, after: Option<nat>)
    requires Timed(schedule, before, times)
    requires after == (if before.Some? then before else if at.Some? && Overdue(schedule, at.value) then schedule.durationLimit else None)
    ensures Timed(schedule, after, TimesWith(times, at))
  {
    var seen := TimesWith(times, at);
    assert forall i :: 0 <= i < |times| ==> seen[i] == times[i];
    if at.Some? { assert seen[|times|] == at.value; }
  }

  function TimesWith(times: seq<nat>, at: Option<nat>): seq<nat> {
    match at case Some(t) => times + [t] case None => times
  }

  /** Limit facts are explained by what was read and by the clock. */
  ghost predicate LimitsKept(policy: Policy, schedule: Schedule, limits: Limits, log: Log, now: nat) {
    && Explained(policy, limits.traceBytes, log.lengths)
    && Timed(schedule, limits.duration, log.times)
    && (limits.duration.Some? ==>
          limits.duration == schedule.durationLimit &&
          schedule.durationDeadline.Some? && now >= schedule.durationDeadline.value)
    && (log.limited ==> limits.Exceeded())
  }

  /** Every round starts here. */
  ghost predicate Supervising(scope: SignalScope, first: Option<int>, guard: CollectorGuard, handshake: Handshake,
                              facts: LimitFacts, policy: Policy, schedule: Schedule, l: Latches, log: Log)
    reads scope, scope.kernel, guard, guard.clock, handshake, facts
  {
    && SignalsKept(scope, first, log.forwarded)
    && guard.Valid() && guard.ownership == Waitable && guard.pidfd
    && guard.journal == LoopJournal(log.limited, log.forwarded)
    && handshake.Valid() && facts.Valid()
    && OneDeadline(l, log)
    && LimitsKept(policy, schedule, facts.Facts(), log, guard.clock.now)
  }

  /** A status is the last wait's own result. */
  ghost predicate StatusRead(status: Status, waits: seq<TryWait>) {
    status.Exit? ==> waits != [] && waits[|waits| - 1] == Ready(status.exit)
  }

  /** Every way out of the loop. A collector that ended within its limits, with no recorder signal and a
      readable trace, was never signalled. */
  ghost predicate Concluded(scope: SignalScope, first: Option<int>, guard: CollectorGuard, policy: Policy,
                            schedule: Schedule, end: Supervised, log: Log)
    reads scope, scope.kernel, guard, guard.clock
  {
    && SignalsKept(scope, first, log.forwarded)
    && guard.Valid() && guard.OnlyCleanup(LoopJournal(log.limited, log.forwarded))
    && |log.deadlines| <= 1
    && match end
       case Ended(status, limits, lengthFailed) =>
         && guard.Settled(status) && LimitsKept(policy, schedule, limits, log, guard.clock.now)
         && StatusRead(status, guard.waits)
         && (status.Exit? && !lengthFailed && !limits.Exceeded() && scope.firstObserved.None? ==>
               guard.journal == [WaitConsumed])
       case StillRunning => guard.ownership == Waitable && guard.journal == LoopJournal(log.limited, log.forwarded)
  }

  /** Keep latched limits while cleaning up a failed loop. */
  method Failed(guard: CollectorGuard, facts: LimitFacts, ghost sent: seq<Act>) returns (end: Supervised)
    requires guard.Valid() && guard.ownership == Waitable && guard.journal == sent
    modifies guard`ownership, guard`journal, guard`waits, guard.clock
    ensures guard.Valid() && guard.OnlyCleanup(sent)
    ensures end.Ended? && guard.Settled(end.status) && end.limits == old(facts.Facts()) && !end.lengthFailed
    ensures end.status.Err?
    ensures guard.clock.now >= old(guard.clock.now)
  {
    end := Ended(Err(Error(false)), facts.Facts(), false);
    var error := guard.Abort();
    end := end.(status := Err(error));
  }

  method Stop(guard: CollectorGuard, facts: LimitFacts, lengthFailed: bool, ghost sent: seq<Act>)
    returns (end: Supervised)
    requires guard.Valid() && guard.ownership == Waitable && guard.journal == sent
    modifies guard`ownership, guard`journal, guard`waits, guard.clock
    ensures guard.Valid() && guard.OnlyCleanup(sent)
    ensures end.Ended? && guard.Settled(end.status) && end.limits == old(facts.Facts()) && end.lengthFailed == lengthFailed
    ensures StatusRead(end.status, guard.waits)
    ensures guard.clock.now >= old(guard.clock.now)
  {
    end := Ended(Err(Error(false)), facts.Facts(), lengthFailed);
    var status := guard.Cancel();
    end := end.(status := status);
  }

  /** A crossed limit always has a running termination grace. */
  predicate Answered(limits: Limits, l: Latches) {
    limits.Exceeded() ==> l.termination.Some?
  }

  /** A running grace is never restarted, and a new one is the policy's from some moment in between. */
  predicate GraceKept(before: Option<nat>, after: Option<nat>, earliest: nat, latest: nat) {
    if before.Some? then after == before else after.Some? ==> earliest <= after.value <= latest
  }

  /** What a round managed to read: the recorder's signals, the trace length. */
  datatype Sight = Sight(signals: bool, length: bool)

  /** Signals first, then limits; an unreadable length stops supervision without guessing a size. */
  method ObserveRound(scope: SignalScope, ghost first: Option<int>, guard: CollectorGuard, handshake: Handshake,
                      facts: LimitFacts, policy: Policy, schedule: Schedule, l: Latches, ghost logged: Log)
    returns (end: Option<Supervised>, newly: bool, ghost log: Log, ghost sight: Sight)
    requires Supervising(scope, first, guard, handshake, facts, policy, schedule, l, logged)
    requires Answered(facts.Facts(), l)
    modifies scope`firstObserved, scope.kernel`consumed, scope.kernel`drains, guard`ownership, guard`journal, guard`waits, guard.clock, facts
    ensures end.None? ==> Supervising(scope, first, guard, handshake, facts, policy, schedule, l, log)
    ensures end.Some? ==> Concluded(scope, first, guard, policy, schedule, end.value, log) && end.value.Ended?
    ensures end.Some? <==> !sight.signals || !sight.length
    ensures scope.kernel.drains == old(scope.kernel.drains) + (if scope.frozen then [] else [sight.signals])
    ensures end.Some? ==> (end.value.lengthFailed <==> sight.signals) && (!sight.signals ==> end.value.status.Err?)
    ensures newly ==> facts.Facts().Exceeded()
    ensures end.None? && !newly ==> Answered(facts.Facts(), l)
    ensures end.None? && Overdue(schedule, old(guard.clock.now)) ==> facts.duration.Some?
    ensures guard.clock.now >= old(guard.clock.now)
  {
    hide Respectful;
    hide Authorized;
    hide Explained;
    hide Timed;
    hide LoopJournal;
    hide SignalScope.Valid;
    hide CollectorGuard.Valid;
    hide CollectorGuard.OnlyCleanup;
    end, newly, log, sight := None, false, logged, Sight(true, true);
    var observed := scope.Observe();
    if !observed {
      var failed := Failed(guard, facts, LoopJournal(log.limited, log.forwarded));
      return Some(failed), false, log, Sight(observed, true);
    }
    var ok;
    ghost var was := facts.duration;
    ghost var lengths, read, at;
    ok, newly, lengths, read, at := ObserveCaptureLimits(policy, schedule, facts, guard.clock, log.lengths);
    TimedNext(schedule, was, log.times, at, facts.duration);
    log, sight := log.(lengths := lengths, times := TimesWith(log.times, at)), Sight(observed, ok);
    if !ok {
      var stopped := Stop(guard, facts, true, LoopJournal(log.limited, log.forwarded));
      return Some(stopped), false, log, sight;
    }
  }

  /** A decision ended the run: signals or the length could not be read, a recorder signal came, or a limit
      was crossed. */
  predicate Provoked(end: Supervised, signal: Option<int>, sight: Sight)
    requires end.Ended?
  {
    && (!sight.signals || !sight.length || signal.Some? || end.limits.Exceeded())
    && (end.lengthFailed <==> sight.signals && !sight.length)
  }

  /** First half of a round: observe, then request termination when needed. */
  method Decide(scope: SignalScope, ghost first: Option<int>, guard: CollectorGuard, handshake: Handshake,
                facts: LimitFacts, policy: Policy, schedule: Schedule, before: Latches, ghost logged: Log)
    returns (end: Option<Supervised>, l: Latches, ghost log: Log, ghost sight: Sight)
    requires Supervising(scope, first, guard, handshake, facts, policy, schedule, before, logged)
    requires Answered(facts.Facts(), before)
    modifies scope`firstObserved, scope.kernel`consumed, scope.kernel`drains, guard`ownership, guard`journal, guard`waits, guard.clock, facts
    ensures end.None? ==> Supervising(scope, first, guard, handshake, facts, policy, schedule, l, log)
    ensures end.Some? ==> Concluded(scope, first, guard, policy, schedule, end.value, log) && end.value.Ended?
    ensures end.Some? ==> Provoked(end.value, scope.firstObserved, sight)
    ensures end.None? ==> sight.signals && sight.length
    ensures scope.kernel.drains == old(scope.kernel.drains) + (if scope.frozen then [] else [sight.signals])
    ensures l.ready == before.ready
    ensures end.None? ==> Answered(facts.Facts(), l) && (scope.firstObserved.Some? ==> l.handled)
    ensures end.None? && Overdue(schedule, old(guard.clock.now)) ==> facts.duration.Some?
    ensures end.None? ==> GraceKept(before.termination, l.termination, old(guard.clock.now) + schedule.grace, guard.clock.now + schedule.grace)
    ensures guard.clock.now >= old(guard.clock.now)
  {
    hide Respectful;
    hide Authorized;
    hide Explained;
    hide Timed;
    hide LoopJournal;
    hide SignalScope.Valid;
    hide SignalScope.RequiresDirectTermination;
    hide CollectorGuard.Valid;
    hide CollectorGuard.OnlyCleanup;
    l, log := before, logged;
    var newly;
    end, newly, log, sight := ObserveRound(scope, first, guard, handshake, facts, policy, schedule, l, log);
    if end.Some? { return; }
    if !l.handled && scope.firstObserved.Some? {
      end, l, log := ForwardRecorderSignal(scope, guard, facts, schedule, l, log);
      if end.Some? { return; }
    }
    if newly && l.termination.None? {
      end, l, log := RequestLimitTermination(guard, facts, schedule, l, log);
    }
  }

  /** Deliver the latched recorder signal once; direct termination replaces an undeliverable one. */
  method ForwardRecorderSignal(scope: SignalScope, guard: CollectorGuard, facts: LimitFacts, schedule: Schedule,
                               before: Latches, ghost logged: Log)
    returns (end: Option<Supervised>, l: Latches, ghost log: Log)
    requires guard.Valid() && guard.ownership == Waitable && guard.pidfd
    requires guard.journal == LoopJournal(logged.limited, logged.forwarded) && OneDeadline(before, logged)
    requires !before.handled && scope.firstObserved.Some?
    modifies guard`ownership, guard`journal, guard`waits, guard.clock
    ensures guard.Valid() && guard.OnlyCleanup(LoopJournal(log.limited, log.forwarded)) && |log.deadlines| <= 1
    ensures guard.clock.now >= old(guard.clock.now)
    ensures log.limited == logged.limited && log.lengths == logged.lengths && log.times == logged.times && l.ready == before.ready
    ensures log.forwarded.Some? ==>
              log.forwarded == scope.firstObserved && !scope.RequiresDirectTermination(log.forwarded.value)
    ensures end.None? ==> OneDeadline(l, log) && l.handled && guard.ownership == Waitable &&
                          guard.journal == LoopJournal(log.limited, log.forwarded)
    ensures end.None? ==> log.forwarded == scope.firstObserved && l.termination.Some?
    ensures end.None? ==> GraceKept(before.termination, l.termination, old(guard.clock.now) + schedule.grace, guard.clock.now + schedule.grace)
    ensures end.Some? ==> end.value.Ended? && guard.Settled(end.value.status) && end.value.limits == old(facts.Facts())
    ensures end.Some? ==> StatusRead(end.value.status, guard.waits) && !end.value.lengthFailed
  {
    hide SignalScope.RequiresDirectTermination;
    hide CollectorGuard.Valid;
    end, l, log := None, before.(handled := true), logged;
    var signal := scope.firstObserved.value;
    if scope.RequiresDirectTermination(signal) {
      var stopped := Stop(guard, facts, false, LoopJournal(log.limited, log.forwarded));
      return Some(stopped), l, log;
    }
    var delivered := guard.Forward(signal, RecorderSignal);
    log := log.(forwarded := Some(signal));
    assert guard.journal == LoopJournal(log.limited, log.forwarded);
    var failed := !delivered;
    if delivered && l.termination.None? {
      var deadline := TerminationDeadline(guard.clock, schedule);
      if deadline.Some? {
        l := l.(termination := deadline);
        log := log.(deadlines := log.deadlines + [deadline.value]);
      } else {
        failed := true;
      }
    }
    if failed {
      var ended := Failed(guard, facts, LoopJournal(log.limited, log.forwarded));
      end := Some(ended);
    }
  }

  /** The first limit crossed asks for termination, unless a request is already running. */
  method RequestLimitTermination(guard: CollectorGuard, facts: LimitFacts, schedule: Schedule, before: Latches,
                                 ghost logged: Log)
    returns (end: Option<Supervised>, l: Latches, ghost log: Log)
    requires guard.Valid() && guard.ownership == Waitable && guard.pidfd
    requires guard.journal == LoopJournal(logged.limited, logged.forwarded) && OneDeadline(before, logged)
    requires before.termination.None?
    modifies guard`ownership, guard`journal, guard`waits, guard.clock
    ensures guard.Valid() && guard.OnlyCleanup(LoopJournal(log.limited, log.forwarded)) && |log.deadlines| <= 1
    ensures guard.clock.now >= old(guard.clock.now)
    ensures log.limited && log.forwarded == logged.forwarded && log.lengths == logged.lengths && log.times == logged.times && l.ready == before.ready
    ensures end.None? ==> OneDeadline(l, log) && guard.ownership == Waitable &&
                          guard.journal == LoopJournal(log.limited, log.forwarded)
    ensures end.None? ==> l.termination.Some? && l.handled == before.handled
    ensures end.None? ==> GraceKept(before.termination, l.termination, old(guard.clock.now) + schedule.grace, guard.clock.now + schedule.grace)
    ensures end.Some? ==> end.value.Ended? && guard.Settled(end.value.status) && end.value.limits == old(facts.Facts())
    ensures end.Some? ==> StatusRead(end.value.status, guard.waits) && !end.value.lengthFailed
  {
    end, l, log := None, before, logged;
    assert guard.journal == [];
    var delivered := guard.Forward(SIGTERM, LimitTermination);
    log := log.(limited := true);
    assert guard.journal == LoopJournal(log.limited, log.forwarded);
    var failed := !delivered;
    if delivered {
      var deadline := TerminationDeadline(guard.clock, schedule);
      if deadline.Some? {
        l := l.(termination := deadline);
        log := log.(deadlines := log.deadlines + [deadline.value]);
      } else {
        failed := true;
      }
    }
    if failed {
      var ended := Failed(guard, facts, LoopJournal(log.limited, log.forwarded));
      end := Some(ended);
    }
  }

  /** The collector's own end was taken over: its wait status without a signal, unless waiting itself failed. */
  ghost predicate TakenOver(end: Supervised, sent: seq<Act>, guard: CollectorGuard, waits: seq<TryWait>, since: nat)
    requires end.Ended?
    reads guard, guard.clock
  {
    if end.status.Exit? then guard.journal == sent + [WaitConsumed]
    else Unready(waits, guard.waits) || guard.clock.now >= since + REAP_BUDGET
  }

  /** A ready collector is reaped without a signal, unless the handshake shows it never launched. */
  method Reap(guard: CollectorGuard, handshake: Handshake, facts: LimitFacts, ghost sent: seq<Act>)
    returns (end: Supervised, ghost launch: HandshakeView)
    requires guard.Valid() && guard.ownership == Waitable && guard.journal == sent && handshake.Valid()
    modifies guard`ownership, guard`journal, guard`waits, guard.clock, handshake
    ensures guard.Valid() && guard.OnlyCleanup(sent)
    ensures end.Ended? && guard.Settled(end.status) && end.limits == old(facts.Facts()) && !end.lengthFailed
    ensures end.status.Exit? ==> guard.journal == sent + [WaitConsumed] && StatusRead(end.status, guard.waits)
    ensures launch.Fine? ==> TakenOver(end, sent, guard, old(guard.waits), old(guard.clock.now))
    ensures guard.clock.now >= old(guard.clock.now)
  {
    var view := handshake.Observe();
    launch := view;
    if view.LaunchFailed? {
      end := Failed(guard, facts, sent);
    } else {
      end := Ended(Err(Error(false)), facts.Facts(), false);
      var status := guard.Finish();
      end := end.(status := status);
    }
  }

  method TakeOver(scope: SignalScope, ghost first: Option<int>, guard: CollectorGuard, handshake: Handshake,
                  facts: LimitFacts, policy: Policy, schedule: Schedule, l: Latches, ghost log: Log)
    returns (end: Supervised, ghost launch: HandshakeView)
    requires Supervising(scope, first, guard, handshake, facts, policy, schedule, l, log)
    modifies guard`ownership, guard`journal, guard`waits, guard.clock, handshake
    ensures Concluded(scope, first, guard, policy, schedule, end, log) && end.Ended?
    ensures launch.Fine? ==> TakenOver(end, old(guard.journal), guard, old(guard.waits), old(guard.clock.now))
    ensures guard.clock.now >= old(guard.clock.now)
  {
    hide Respectful;
    hide Authorized;
    hide Explained;
    hide Timed;
    hide DecodeExecHandshake;
    hide TakenOver;
    hide SignalScope.Valid;
    hide SignalScope.RequiresDirectTermination;
    hide CollectorGuard.Valid;
    hide CollectorGuard.OnlyCleanup;
    end, launch := Reap(guard, handshake, facts, LoopJournal(log.limited, log.forwarded));
  }

  /** The grace is over: kill and reap. */
  method Expire(scope: SignalScope, ghost first: Option<int>, guard: CollectorGuard, handshake: Handshake,
                facts: LimitFacts, policy: Policy, schedule: Schedule, l: Latches, ghost log: Log)
    returns (end: Supervised)
    requires Supervising(scope, first, guard, handshake, facts, policy, schedule, l, log) && l.termination.Some?
    modifies guard`ownership, guard`journal, guard`waits, guard.clock
    ensures Concluded(scope, first, guard, policy, schedule, end, log) && end.Ended?
    ensures guard.clock.now >= old(guard.clock.now)
  {
    hide Respectful;
    hide Authorized;
    hide Explained;
    hide Timed;
    hide LoopJournal;
    hide SignalScope.Valid;
    hide SignalScope.RequiresDirectTermination;
    hide CollectorGuard.Valid;
    hide CollectorGuard.OnlyCleanup;
    end := Stop(guard, facts, false, LoopJournal(log.limited, log.forwarded));
  }

  /** Second half of a round: reap a ready collector, enforce the grace, or wait. */
  method Await(scope: SignalScope, ghost first: Option<int>, guard: CollectorGuard, handshake: Handshake,
               facts: LimitFacts, policy: Policy, schedule: Schedule, before: Latches, ghost log: Log)
    returns (end: Option<Supervised>, l: Latches, ghost reading: Option<Readiness>, ghost launch: HandshakeView)
    requires Supervising(scope, first, guard, handshake, facts, policy, schedule, before, log)
    modifies guard`ownership, guard`journal, guard`waits, guard.clock, handshake
    ensures end.None? ==> Supervising(scope, first, guard, handshake, facts, policy, schedule, l, log)
    ensures end.Some? ==> Concluded(scope, first, guard, policy, schedule, end.value, log) && end.value.Ended?
    ensures before.ready ==> end.Some? && reading.None?
    ensures before.ready && launch.Fine? ==>
              TakenOver(end.value, old(guard.journal), guard, old(guard.waits), old(guard.clock.now))
    ensures end.None? ==> reading.Some? && l.ready == reading.value.collector
    ensures reading.Some? ==>
              (end.Some? <==> !reading.value.ok || reading.value.invalid || (reading.value.handshake && launch.LaunchFailed?))
    ensures reading.Some? && end.Some? ==> end.value.status.Err?
    ensures !before.ready && reading.None? ==>
              end.Some? && before.termination.Some? && guard.clock.now >= before.termination.value
    ensures end.None? ==> l.termination == before.termination && l.handled == before.handled
    ensures Answered(facts.Facts(), before) && end.None? ==> Answered(facts.Facts(), l)
    ensures end.None? && l.termination.Some? ==> old(guard.clock.now) < l.termination.value
    ensures guard.clock.now >= old(guard.clock.now) && (end.None? ==> guard.clock.now > old(guard.clock.now))
  {
    hide Respectful;
    hide Authorized;
    hide Explained;
    hide Timed;
    hide LoopJournal;
    hide DecodeExecHandshake;
    hide Punctual;
    hide TakenOver;
    hide SignalScope.Valid;
    hide SignalScope.RequiresDirectTermination;
    l, reading, launch := before, None, Fine;
    if l.ready {
      var reaped;
      reaped, launch := TakeOver(scope, first, guard, handshake, facts, policy, schedule, l, log);
      return Some(reaped), l, reading, launch;
    }
    if l.termination.Some? {
      var t := guard.clock.Read();
      if t >= l.termination.value {
        var stopped := Expire(scope, first, guard, handshake, facts, policy, schedule, l, log);
        return Some(stopped), l, reading, launch;
      }
    }
    var now := guard.clock.Read();
    var limits := facts.Facts();
    var deadline := PollDeadline(policy, schedule, limits, l.termination, now);
    var r := Poll(guard.clock, policy, schedule, limits, l.termination, now, deadline);
    reading := Some(r);
    var failed := !r.ok || r.invalid;
    if !failed && r.handshake {
      var view := handshake.Observe();
      launch := view;
      failed := view.LaunchFailed?;
    }
    if failed {
      var ended := Failed(guard, facts, LoopJournal(log.limited, log.forwarded));
      return Some(ended), l, reading, launch;
    }
    end, l := None, l.(ready := r.collector);
  }

  /** Rounds that can start before the duration deadline: each takes at least one tick. */
  function RoundsUntil(schedule: Schedule, start: nat): nat
    requires schedule.durationDeadline.Some?
  {
    if schedule.durationDeadline.value > start then schedule.durationDeadline.value - start else 0
  }

  /** How long a run with a duration limit can still be going: it crosses the limit in time, and once
      some grace is running, it ends within that grace. */
  ghost predicate InTime(schedule: Schedule, start: nat, now: nat, termination: Option<nat>, since: nat, round: nat) {
    && now >= start + round
    && (schedule.durationLimit.Some? && schedule.durationDeadline.Some? ==>
          if termination.None? then round <= RoundsUntil(schedule, start)
          else since <= RoundsUntil(schedule, start) + 1)
    && (termination.Some? ==>
          1 <= since <= round <= since + schedule.grace && termination.value + (round - since) < now + schedule.grace)
  }

  lemma RoundInTime(schedule: Schedule, start: nat, old_: nat, middle: nat, now: nat, before: Option<nat>,
                    after: Option<nat>, since: nat, round: nat)
    requires InTime(schedule, start, old_, before, since, round) && old_ <= middle < now
    requires GraceKept(before, after, old_ + schedule.grace, middle + schedule.grace)
    requires Overdue(schedule, old_) ==> after.Some?
    requires after.Some? ==> middle < after.value
    ensures InTime(schedule, start, now, after, if before.Some? then since else round + 1, round + 1)
  {
  }

  /** No reading before the last found the collector ready. */
  ghost predicate OnlyLastReady(readings: seq<Readiness>) {
    forall i :: 0 <= i < |readings| - 1 ==> !readings[i].collector
  }

  predicate LastReady(readings: seq<Readiness>) { readings != [] && readings[|readings| - 1].collector }

  /** Which half of which round ended a run: the decision, the taking over of a ready collector, the grace, or
      the poll itself. */
  datatype Ending =
    | Decided(sight: Sight)
    | TookOver(launch: HandshakeView, waits: seq<TryWait>, since: nat)
    | GraceOver
    | PollFailed(reading: Readiness, launch: HandshakeView)

  /** A ready collector is taken over in the next round unless that round's decision already ended the run;
      without readiness only a decision, an expired grace or a failed poll ends it. */
  ghost predicate EndedBy(how: Ending, end: Supervised, readings: seq<Readiness>, log: Log, guard: CollectorGuard,
                          signal: Option<int>)
    requires end.Ended?
    reads guard, guard.clock
  {
    match how
    case Decided(sight) => Provoked(end, signal, sight)
    case TookOver(launch, waits, since) =>
      && LastReady(readings)
      && (launch.Fine? ==> TakenOver(end, LoopJournal(log.limited, log.forwarded), guard, waits, since))
    case GraceOver => !LastReady(readings) && log.deadlines != [] && guard.clock.now >= log.deadlines[0]
    case PollFailed(reading, launch) =>
      !LastReady(readings) && (!reading.ok || reading.invalid || (reading.handshake && launch.LaunchFailed?))
  }

  /** Supervise an attached collector, for at most `rounds` rounds. A run with a duration limit never
      needs more rounds than its remaining time and its termination grace. */
  method SuperviseCollector(scope: SignalScope, guard: CollectorGuard, handshake: Handshake, policy: Policy,
                            schedule: Schedule, rounds: nat)
    returns (end: Supervised, ghost log: Log, ghost readings: seq<Readiness>, ghost how: Ending)
    requires scope.Valid() && guard.Valid() && handshake.Valid()
    requires guard.ownership == Waitable && guard.pidfd && guard.journal == []
    modifies scope`firstObserved, scope.kernel`consumed, scope.kernel`drains
    modifies guard`ownership, guard`journal, guard`waits, guard.clock, handshake
    ensures Concluded(scope, old(scope.firstObserved), guard, policy, schedule, end, log)
    ensures end.StillRunning? && schedule.durationLimit.Some? && schedule.durationDeadline.Some? ==>
              rounds <= RoundsUntil(schedule, old(guard.clock.now)) + 1 + schedule.grace
    ensures OnlyLastReady(readings) && (end.StillRunning? ==> |readings| == rounds)
    ensures end.Ended? ==> EndedBy(how, end, readings, log, guard, scope.firstObserved)
    ensures how.Decided? && !scope.frozen ==>
              scope.kernel.drains != [] && scope.kernel.drains[|scope.kernel.drains| - 1] == how.sight.signals
  {
    hide InTime;
    hide GraceKept;
    hide Answered;
    hide Supervising;
    hide Concluded;
    hide SignalScope.Valid;
    hide CollectorGuard.Valid;
    ghost var first, start := scope.firstObserved, guard.clock.now;
    var facts := new LimitFacts();
    var l := Latches(None, false, false);
    log, readings, how := Log(false, None, [], [], []), [], GraceOver;
    var round := 0;
    ghost var since := 0;
    NothingAsked(schedule, start, facts.Facts(), l);
    Begins(scope, guard, handshake, facts, policy, schedule);
    while round < rounds
      invariant 0 <= round <= rounds && fresh(facts)
      invariant Supervising(scope, first, guard, handshake, facts, policy, schedule, l, log)
      invariant Answered(facts.Facts(), l)
      invariant InTime(schedule, start, guard.clock.now, l.termination, since, round)
      invariant OnlyLastReady(readings) && |readings| == round && (l.ready <==> LastReady(readings))
    {
      ghost var was, before := guard.clock.now, l.termination;
      var stopped;
      ghost var sight;
      stopped, l, log, sight := Decide(scope, first, guard, handshake, facts, policy, schedule, l, log);
      if stopped.Some? { return stopped.value, log, readings, Decided(sight); }
      ghost var middle, waits, ready := guard.clock.now, guard.waits, l.ready;
      assert Overdue(schedule, was) ==> l.termination.Some? by {
        if Overdue(schedule, was) { LimitAnswered(facts.Facts(), l); }
      }
      ghost var reading, launch, grace := None, Fine, l.termination;
      GraceLogged(scope, first, guard, handshake, facts, policy, schedule, l, log);
      stopped, l, reading, launch := Await(scope, first, guard, handshake, facts, policy, schedule, l, log);
      if stopped.Some? {
        how := if ready then TookOver(launch, waits, middle)
               else if reading.None? then GraceOver else PollFailed(reading.value, launch);
        return stopped.value, log, readings, how;
      }
      readings := readings + [reading.value];
      RoundInTime(schedule, start, was, middle, guard.clock.now, before, l.termination, since, round);
      since := if before.Some? then since else round + 1;
      round := round + 1;
    }
    end := StillRunning;
    Continues(scope, first, guard, handshake, facts, policy, schedule, l, log);
    TimeIsUp(schedule, start, guard.clock.now, l.termination, since, round);
  }

  lemma GraceLogged(scope: SignalScope, first: Option<int>, guard: CollectorGuard, handshake: Handshake,
                    facts: LimitFacts, policy: Policy, schedule: Schedule, l: Latches, log: Log)
    requires Supervising(scope, first, guard, handshake, facts, policy, schedule, l, log)
    ensures l.termination.Some? ==> log.deadlines != [] && l.termination.value == log.deadlines[0]
    ensures guard.journal == LoopJournal(log.limited, log.forwarded)
  {
    hide SignalScope.Valid;
    hide CollectorGuard.Valid;
  }

  lemma NothingAsked(schedule: Schedule, start: nat, limits: Limits, l: Latches)
    requires limits == Limits(None, None) && l.termination.None?
    ensures InTime(schedule, start, start, None, 0, 0) && Answered(limits, l)
  {
  }

  lemma Begins(scope: SignalScope, guard: CollectorGuard, handshake: Handshake, facts: LimitFacts, policy: Policy,
               schedule: Schedule)
    requires scope.Valid() && guard.Valid() && handshake.Valid() && facts.Facts() == Limits(None, None)
    requires guard.ownership == Waitable && guard.pidfd && guard.journal == []
    ensures Supervising(scope, scope.firstObserved, guard, handshake, facts, policy, schedule,
                        Latches(None, false, false), Log(false, None, [], [], []))
  {
    hide SignalScope.Valid;
    hide CollectorGuard.Valid;
  }

  lemma Continues(scope: SignalScope, first: Option<int>, guard: CollectorGuard, handshake: Handshake,
                  facts: LimitFacts, policy: Policy, schedule: Schedule, l: Latches, log: Log)
    requires Supervising(scope, first, guard, handshake, facts, policy, schedule, l, log)
    ensures Concluded(scope, first, guard, policy, schedule, StillRunning, log)
  {
    hide SignalScope.Valid;
    hide CollectorGuard.Valid;
  }

  lemma LimitAnswered(limits: Limits, l: Latches)
    requires Answered(limits, l) && limits.duration.Some?
    ensures l.termination.Some?
  {
  }

  lemma TimeIsUp(schedule: Schedule, start: nat, now: nat, termination: Option<nat>, since: nat, round: nat)
    requires InTime(schedule, start, now, termination, since, round)
    ensures schedule.durationLimit.Some? && schedule.durationDeadline.Some? ==>
              round <= RoundsUntil(schedule, start) + 1 + schedule.grace
  {
  }

  /** What a run's journal means: at most one limit TERM, at most one recorder signal, no TERM after
      a recorder signal, and nothing but kills once either has ended. */
  lemma SentAtMostOnce(journal: seq<Act>, limited: bool, forwarded: Option<int>, i: nat, j: nat)
    requires CleanupAfter(LoopJournal(limited, forwarded), journal) && i < j < |journal|
    requires journal[i].Signalled? && journal[j].Signalled?
    ensures journal[i].purpose.RecorderSignal? ==> journal[j].purpose.Cleanup?
    ensures journal[i].purpose.LimitTermination? ==> journal[i].number == 15 && !journal[j].purpose.LimitTermination?
    ensures journal[i].purpose.Cleanup? ==> journal[j] == Signalled(9, Cleanup)
  {
    var sent := LoopJournal(limited, forwarded);
    assert |sent| <= 2;
    assert i < |sent| ==> journal[i] == sent[i];
    assert j < |sent| ==> journal[j] == sent[j];
  }

  // ---------- the formal collector ----------

  datatype Formal =
    | Facts(collector: CollectorFacts, limits: Limits, lengthFailed: bool)
    | ScheduleRefused
    | UnquiescedError
    | Unfinished

  const SPAWN_FAILURE := "failed to start supervised strace; command was not run without tracing"

  function FactsFrom(status: Status): CollectorFacts {
    match status case Exit(exit) => CollectorFacts.Reaped(exit) case Err(_) => CollectorFacts.Failed("collector supervision failed")
  }

  /** How far a launch got. */
  datatype Attempt =
    | NotAnchored
    | NotSpawned
    | NotAttached(open: PidfdOpen)
    | Watched(started: nat, end: Supervised, readings: seq<Readiness>, how: Ending)

  function ScheduleFrom(policy: Policy, started: nat): Schedule {
    Schedule(policy.duration, match policy.duration case Some(d) => Some(started + d) case None => None, policy.grace)
  }

  /** What a launch reports: only an unreaped error hides the facts of a supervised collector. */
  ghost predicate Reports(r: Formal, attempt: Attempt, child: Option<CollectorGuard>, log: Log, policy: Policy,
                          signal: Option<int>, rounds: nat)
    reads if child.Some? then {child.value, child.value.clock} else {}
  {
    match attempt
    case NotAnchored => r.ScheduleRefused? && child.None?
    case NotSpawned => r == Facts(CollectorFacts.Failed(SPAWN_FAILURE), Limits(None, None), false) && child.None?
    case NotAttached(open) =>
      !open.PidfdOpened? && child.Some? &&
      r == (if child.value.ownership.Reaped? then Facts(CollectorFacts.Failed(SPAWN_FAILURE), Limits(None, None), false)
            else UnquiescedError)
    case Watched(started, end, readings, how) =>
      && child.Some? && OnlyLastReady(readings)
      && match end
         case StillRunning => r.Unfinished? && |readings| == rounds
         case Ended(status, limits, lengthFailed) =>
           && EndedBy(how, end, readings, log, child.value, signal)
           && LimitsKept(policy, ScheduleFrom(policy, started), limits, log, child.value.clock.now)
           && r == (match status
                    case Exit(exit) => Facts(CollectorFacts.Reaped(exit), limits, lengthFailed)
                    case Err(error) =>
                      if error.unquiesced then UnquiescedError
                      else Facts(CollectorFacts.Failed("collector supervision failed"), limits, lengthFailed))
  }

  /** Launch and supervise. Facts are returned only when no producer can still be running: no child
      was created, or its wait status was consumed. */
  method CaptureCollector(scope: SignalScope, clock: Clock, policy: Policy, rounds: nat)
    returns (r: Formal, ghost child: Option<CollectorGuard>, ghost log: Log, ghost attempt: Attempt)
    requires scope.Valid()
    modifies scope`firstObserved, scope.kernel`consumed, scope.kernel`drains, clock
    ensures scope.Valid()
    ensures old(scope.firstObserved).Some? ==> scope.firstObserved == old(scope.firstObserved)
    ensures Reports(r, attempt, child, log, policy, scope.firstObserved, rounds)
    ensures r.Facts? ==> child.None? || child.value.ownership.Reaped?
    ensures r.Facts? ==> CollectorInRange(r.collector) && !r.collector.NotStarted?
    ensures r.Facts? && r.collector.Reaped? ==>
              child.Some? && StatusRead(Exit(r.collector.exit), child.value.waits)
    ensures r.Facts? && r.collector.Reaped? && !r.lengthFailed && !r.limits.Exceeded() && scope.firstObserved.None? ==>
              child.value.journal == [WaitConsumed]
    ensures r.Facts? && r.limits.duration.Some? ==>
              r.limits.duration == policy.duration && clock.now >= old(clock.now) + policy.duration.value
    ensures r.UnquiescedError? ==> child.Some? && !child.value.ownership.Reaped?
    ensures r.ScheduleRefused? ==> child.None?
    ensures child.Some? ==> child.value.Valid() && (!r.Unfinished? ==> child.value.ownership != Waitable)
    ensures r.Facts? ==> Explained(policy, r.limits.traceBytes, log.lengths)
    ensures policy.duration.Some? && rounds > policy.duration.value + policy.grace + 1 ==> !r.Unfinished?
  {
    hide EndedBy;
    hide Timed;
    hide StatusRead;
    hide LoopJournal;
    child, log, attempt := None, Log(false, None, [], [], []), NotAnchored;
    var anchored, spawned := *, *;
    if !anchored { return ScheduleRefused, child, log, attempt; }
    var started := clock.Read();
    var schedule := ScheduleFrom(policy, started);
    attempt := NotSpawned;
    if !spawned { return Facts(CollectorFacts.Failed(SPAWN_FAILURE), Limits(None, None), false), child, log, attempt; }
    var guard, error;
    ghost var open;
    guard, error, open := AttachOwned(clock);
    child, attempt := Some(guard), NotAttached(open);
    if error.Some? {
      r := if error.value.unquiesced then UnquiescedError
           else Facts(CollectorFacts.Failed(SPAWN_FAILURE), Limits(None, None), false);
      return;
    }
    var handshake := new Handshake();
    var end;
    ghost var readings, how;
    end, log, readings, how := SuperviseCollector(scope, guard, handshake, policy, schedule, rounds);
    attempt := Watched(started, end, readings, how);
    match end {
      case StillRunning => r := Unfinished;
      case Ended(status, limits, lengthFailed) =>
        r := if status.Err? && status.error.unquiesced then UnquiescedError
             else Facts(FactsFrom(status), limits, lengthFailed);
    }
  }
}
