/** The backend preflight: one supervised version probe with bounded output.

    A completed preflight means the probe was reaped with status zero and no recorder signal was
    seen; a cancelled one means it was reaped. Anything else is an error that admits no record.
 */
module Probe {
  import opened Ordered
  import opened Spelling
  import opened Reduction
  import opened Signals
  import opened Collector
  import opened Supervision
  import opened Words

  const STREAM_LIMIT: nat := 65536
  const CHUNK: nat := 8192
  const PROBE_BUDGET: nat := 5000

  // ---------- one output pipe ----------

  datatype Drained = Available | TimedOut | TooLong | ReadFailed

  class CapturedPipe {
    var bytes: seq<byte>
    var eof: bool
    ghost var received: seq<byte>
    ghost var last: Chunk

    /** Within the limit, everything received is kept. */
    ghost predicate Valid()
      reads this
    {
      bytes == received && |bytes| <= STREAM_LIMIT
    }

    constructor ()
      ensures Valid() && !eof && received == []
    {
      bytes, eof, received := [], false, [];
    }

    method ReadChunk() returns (c: Chunk)
      modifies this`received, this`last
      ensures last == c && (c.Data? ==> 1 <= |c.bytes| <= CHUNK)
      ensures received == old(received) + (if c.Data? then c.bytes else [])
    {
      c := *;
      if c.Data? && !(1 <= |c.bytes| <= CHUNK) { c := WouldBlock; }
      received, last := received + (if c.Data? then c.bytes else []), c;
    }

    /** Consume what is available. Neither endless interruptions nor endless output can hold the
        caller past the deadline, and an oversized stream is refused, never truncated. */
    method Drain(clock: Clock, deadline: nat) returns (d: Drained)
      requires Valid()
      modifies this, clock
      ensures d.Available? ==> Valid()
      ensures d.TooLong? <==> |received| > STREAM_LIMIT
      ensures !old(eof) && d.Available? ==> last.WouldBlock? || (last.Eof? && eof)
      ensures d.ReadFailed? ==> last.ReadError?
      ensures d.TimedOut? ==> clock.now >= deadline
      ensures old(eof) ==> d.Available? && eof && received == old(received)
      ensures old(received) <= received && clock.now >= old(clock.now)
    {
      if eof { return Available; }
      var t := clock.Read();
      while t < deadline
        invariant Valid() && !eof && t == clock.now >= old(clock.now) && old(received) <= received
        decreases deadline - t
      {
        var c := ReadChunk();
        match c {
          case Eof =>
            eof := true;
            return Available;
          case Data(chunk) =>
            if |bytes| + |chunk| > STREAM_LIMIT { return TooLong; }
            bytes := bytes + chunk;
          case Interrupt =>
          case WouldBlock => return Available;
          case ReadError => return ReadFailed;
        }
        t := clock.Read();
      }
      d := Drained.TimedOut;
    }
  }

  // ---------- the probe's outcomes ----------

  datatype Probed =
    | Completed(output: seq<byte>)
    | ProbeCancelled(cleanupFailed: bool)
    | ProbeFailed(error: Error)
    | StillProbing

  /** What every outcome says about the probe: no outcome but an error may hide an unreaped probe, and
      the probe itself is only ever killed. */
  ghost predicate Told(scope: SignalScope, guard: CollectorGuard, stdout: CapturedPipe, r: Probed)
    reads scope, scope.kernel, guard, stdout
  {
    && scope.Valid() && guard.Valid() && guard.OnlyCleanup([])
    && match r
       case Completed(output) =>
         && guard.ownership.Reaped? && guard.journal == [WaitConsumed] && scope.firstObserved.None?
         && StatusRead(Exit(Exited(0)), guard.waits)
         && output == stdout.received && |output| <= STREAM_LIMIT
       case ProbeCancelled(_) => guard.ownership.Reaped? && scope.firstObserved.Some?
       case ProbeFailed(error) => guard.Settled(Err(error))
       case StillProbing => guard.ownership == Waitable && guard.journal == []
  }

  ghost predicate Probing(scope: SignalScope, guard: CollectorGuard)
    reads scope, scope.kernel, guard
  {
    scope.Valid() && guard.Valid() && guard.ownership == Waitable && guard.pidfd && guard.journal == []
  }

  /** A failure without the mark means that no signal was known, unless reading signals itself failed. */
  ghost predicate Yields(r: Probed, before: seq<bool>, scope: SignalScope)
    reads scope, scope.kernel
  {
    && before <= scope.kernel.drains
    && (r.ProbeFailed? && !r.error.unquiesced && AllRead(before, scope.kernel.drains) ==> scope.firstObserved.None?)
  }

  lemma ReadOnce(before: seq<bool>, middle: seq<bool>, frozen: bool, ok: bool)
    requires before <= middle && (frozen ==> ok)
    ensures var after := middle + (if frozen then [] else [ok]);
            before <= after && (AllRead(before, after) <==> AllRead(before, middle) && ok)
  {
    var after := middle + (if frozen then [] else [ok]);
    if !frozen { assert after[|middle|] == ok; }
    assert forall i :: |before| <= i < |middle| ==> after[i] == middle[i];
  }

  lemma NothingRead(before: seq<bool>)
    ensures AllRead(before, before)
  {
  }

  /** Cancellation is admitted only once the probe was reaped. */
  method CancelProbe(scope: SignalScope, guard: CollectorGuard, ghost stdout: CapturedPipe) returns (r: Probed)
    requires Probing(scope, guard) && scope.firstObserved.Some?
    modifies guard`ownership, guard`journal, guard`waits, guard.clock
    ensures Told(scope, guard, stdout, r) && (r.ProbeCancelled? || (r.ProbeFailed? && r.error.unquiesced))
    ensures guard.clock.now >= old(guard.clock.now)
  {
    var status := guard.Cancel();
    match status {
      case Exit(_) => r := ProbeCancelled(false);
      case Err(error) => r := if error.unquiesced then ProbeFailed(error) else ProbeCancelled(true);
    }
  }

  /** An observable cancellation takes precedence over the probe's own error. */
  method FailProbe(scope: SignalScope, guard: CollectorGuard, ghost stdout: CapturedPipe) returns (r: Probed)
    requires Probing(scope, guard)
    modifies scope`firstObserved, scope.kernel`consumed, scope.kernel`drains, guard`ownership, guard`journal, guard`waits, guard.clock
    ensures Told(scope, guard, stdout, r) && (r.ProbeCancelled? || r.ProbeFailed?)
    ensures Yields(r, old(scope.kernel.drains), scope)
    ensures old(scope.firstObserved).Some? ==> scope.firstObserved == old(scope.firstObserved)
    ensures guard.clock.now >= old(guard.clock.now)
  {
    var ok := scope.Observe();
    ReadOnce(old(scope.kernel.drains), old(scope.kernel.drains), scope.frozen, ok);
    if ok && scope.firstObserved.Some? {
      r := CancelProbe(scope, guard, stdout);
    } else {
      var error := guard.Abort();
      r := ProbeFailed(error);
    }
  }

  /** Stop a probe after a failed observation of signals. */
  method AbortProbe(scope: SignalScope, guard: CollectorGuard, ghost stdout: CapturedPipe) returns (r: Probed)
    requires Probing(scope, guard)
    modifies guard`ownership, guard`journal, guard`waits, guard.clock
    ensures Told(scope, guard, stdout, r) && r.ProbeFailed?
    ensures guard.clock.now >= old(guard.clock.now)
  {
    var error := guard.Abort();
    r := ProbeFailed(error);
  }

  /** Every signal read since then succeeded, and none is known. */
  ghost predicate Undisturbed(before: seq<bool>, scope: SignalScope)
    reads scope, scope.kernel
  {
    AllRead(before, scope.kernel.drains) && scope.firstObserved.None?
  }

  /** Reap a ready probe: drain what is buffered, and check cancellation before and after reaping. */
  method CompleteProbe(scope: SignalScope, guard: CollectorGuard, stdout: CapturedPipe, stderr: CapturedPipe,
                       deadline: nat)
    returns (r: Probed, ghost exit: Option<ProcessExit>, ghost drained: bool)
    requires Probing(scope, guard) && stdout.Valid() && stderr.Valid() && stdout != stderr
    modifies scope`firstObserved, scope.kernel`consumed, scope.kernel`drains, guard`ownership, guard`journal, guard`waits, guard.clock, stdout, stderr
    ensures Told(scope, guard, stdout, r) && !r.StillProbing? && Yields(r, old(scope.kernel.drains), scope)
    ensures r.Completed? <==> drained && Undisturbed(old(scope.kernel.drains), scope) && exit == Some(Exited(0))
    ensures drained && Undisturbed(old(scope.kernel.drains), scope) && exit.None? ==>
              Unready(old(guard.waits), guard.waits) || guard.clock.now >= old(guard.clock.now) + REAP_BUDGET
    ensures exit.Some? ==> StatusRead(Exit(exit.value), guard.waits)
    ensures old(scope.firstObserved).Some? ==> scope.firstObserved == old(scope.firstObserved)
    ensures guard.clock.now >= old(guard.clock.now)
  {
    hide AllRead;
    hide SignalScope.Valid;
    hide CollectorGuard.Valid;
    ghost var before := scope.kernel.drains;
    NothingRead(before);
    exit := None;
    var out := stdout.Drain(guard.clock, deadline);
    var available := out.Available?;
    if available {
      var err := stderr.Drain(guard.clock, deadline);
      available := err.Available?;
    }
    drained := available;
    if !available {
      r := FailProbe(scope, guard, stdout);
      return;
    }
    var ok := scope.Observe();
    ReadOnce(before, before, scope.frozen, ok);
    ghost var middle := scope.kernel.drains;
    if !ok {
      r := AbortProbe(scope, guard, stdout);
      return;
    }
    if scope.firstObserved.Some? {
      r := CancelProbe(scope, guard, stdout);
      return;
    }
    var status := guard.Finish();
    if status.Err? { return ProbeFailed(status.error), exit, drained; }
    exit := Some(status.exit);
    ok := scope.Observe();
    ReadOnce(before, middle, scope.frozen, ok);
    if !ok { return ProbeFailed(Error(false)), exit, drained; }
    if scope.firstObserved.Some? { return ProbeCancelled(false), exit, drained; }
    r := if status.exit == Exited(0) then Probed.Completed(stdout.bytes) else ProbeFailed(Error(false));
  }

  /** Descriptors after one wait. */
  datatype ProbeReady = ProbeReady(ok: bool, expired: bool, invalid: bool, signal: bool, probe: bool, stdout: bool,
                                   stderr: bool, handshake: bool)

  method PollProbe(clock: Clock) returns (r: ProbeReady)
    modifies clock
    ensures clock.now > old(clock.now)
  {
    var t := clock.Read();
    r := *;
  }

  /** Drain or read whatever became ready; a failure of any source fails the probe. */
  method ServePipes(guard: CollectorGuard, ready: ProbeReady, stdout: CapturedPipe, stderr: CapturedPipe,
                    handshake: Handshake, deadline: nat)
    returns (ok: bool, ghost drains: seq<Drained>, ghost view: HandshakeView)
    requires stdout.Valid() && stderr.Valid() && handshake.Valid() && stdout != stderr
    modifies guard.clock, stdout, stderr, handshake
    ensures ok <==> view.Fine? && forall i :: 0 <= i < |drains| ==> drains[i].Available?
    ensures ok ==> |drains| == (if ready.stdout then 1 else 0) + (if ready.stderr then 1 else 0)
    ensures ok ==> stdout.Valid() && stderr.Valid() && handshake.Valid()
    ensures guard.clock.now >= old(guard.clock.now)
  {
    drains, view := [], HandshakeView.Fine;
    if ready.stdout {
      var d := stdout.Drain(guard.clock, deadline);
      drains := drains + [d];
      assert drains[|drains| - 1] == d;
      if !d.Available? { return false, drains, view; }
    }
    if ready.stderr {
      var d := stderr.Drain(guard.clock, deadline);
      drains := drains + [d];
      assert drains[|drains| - 1] == d;
      if !d.Available? { return false, drains, view; }
    }
    if ready.handshake || ready.probe {
      var launch := handshake.Observe();
      view := launch;
      if launch.LaunchFailed? { return false, drains, view; }
    }
    ok := true;
  }

  /** The wait found nothing that ends the probe. */
  predicate Silent(ready: ProbeReady) { ready.ok && !ready.expired && !ready.invalid && !ready.probe }

  /** How far the last round got: its wait, whether the ready pipes and the handshake were read, whether the pipes
      were drained at the end, and the status that was reaped. */
  datatype ProbeEnd = ProbeEnd(reading: Option<ProbeReady>, served: bool, drained: bool, exit: Option<ProcessExit>)

  /** The probe became ready and everything after it succeeded. */
  predicate RanWell(e: ProbeEnd) {
    && e.reading.Some? && e.reading.value.ok && !e.reading.value.expired && !e.reading.value.invalid
    && e.reading.value.probe && e.served && e.drained && e.exit == Some(Exited(0))
  }

  /** One round of the probe loop; absent while the probe still runs. */
  method ProbeRound(scope: SignalScope, guard: CollectorGuard, stdout: CapturedPipe, stderr: CapturedPipe,
                    handshake: Handshake, deadline: nat)
    returns (r: Option<Probed>, ghost end: ProbeEnd)
    requires Probing(scope, guard) && stdout.Valid() && stderr.Valid() && handshake.Valid() && stdout != stderr
    modifies scope`firstObserved, scope.kernel`consumed, scope.kernel`drains, guard`ownership, guard`journal, guard`waits, guard.clock
    modifies stdout, stderr, handshake
    ensures r.None? ==> Probing(scope, guard) && stdout.Valid() && stderr.Valid() && handshake.Valid()
    ensures r.None? <==> Undisturbed(old(scope.kernel.drains), scope) && end.reading.Some? && Silent(end.reading.value) && end.served
    ensures r.Some? ==> Told(scope, guard, stdout, r.value) && !r.value.StillProbing?
    ensures r.Some? ==> Yields(r.value, old(scope.kernel.drains), scope)
    ensures old(scope.kernel.drains) <= scope.kernel.drains
    ensures r.Some? && r.value.Completed? <==> Undisturbed(old(scope.kernel.drains), scope) && RanWell(end)
    ensures old(scope.firstObserved).Some? ==> scope.firstObserved == old(scope.firstObserved)
    ensures guard.clock.now >= old(guard.clock.now)
  {
    hide SignalScope.Valid;
    hide CollectorGuard.Valid;
    hide Told;
    hide AllRead;
    hide StatusRead;
    ghost var before := scope.kernel.drains;
    NothingRead(before);
    r, end := None, ProbeEnd(None, false, false, None);
    var outcome;
    var ok := scope.Observe();
    ReadOnce(before, before, scope.frozen, ok);
    ghost var middle := scope.kernel.drains;
    if !ok {
      outcome := AbortProbe(scope, guard, stdout);
      return Some(outcome), end;
    }
    if scope.firstObserved.Some? {
      outcome := CancelProbe(scope, guard, stdout);
      return Some(outcome), end;
    }
    var ready := PollProbe(guard.clock);
    end := end.(reading := Some(ready));
    if !ready.ok || (ready.invalid && !ready.expired) {
      outcome := FailProbe(scope, guard, stdout);
      ReadThrough(before, middle, scope.kernel.drains);
      return Some(outcome), end;
    }
    if ready.expired || ready.signal {
      ok := scope.Observe();
      ReadOnce(before, middle, scope.frozen, ok);
      middle := scope.kernel.drains;
      if !ok {
        outcome := AbortProbe(scope, guard, stdout);
        return Some(outcome), end;
      }
      if scope.firstObserved.Some? {
        outcome := CancelProbe(scope, guard, stdout);
        return Some(outcome), end;
      }
    }
    if ready.expired {
      outcome := AbortProbe(scope, guard, stdout);
      return Some(outcome), end;
    }
    var served;
    ghost var drains, view;
    served, drains, view := ServePipes(guard, ready, stdout, stderr, handshake, deadline);
    end := end.(served := served);
    if !served {
      outcome := FailProbe(scope, guard, stdout);
      ReadThrough(before, middle, scope.kernel.drains);
      return Some(outcome), end;
    }
    if ready.probe {
      ghost var exit, drained;
      outcome, exit, drained := CompleteProbe(scope, guard, stdout, stderr, deadline);
      end := end.(drained := drained, exit := exit);
      ReadThrough(before, middle, scope.kernel.drains);
      return Some(outcome), end;
    }
  }

  /** Watch signals, the probe, its handshake and its pipes together, for at most `rounds` rounds. */
  method SuperviseProbe(scope: SignalScope, guard: CollectorGuard, stdout: CapturedPipe, stderr: CapturedPipe,
                        deadline: nat, rounds: nat)
    returns (r: Probed, ghost end: ProbeEnd, ghost readings: seq<ProbeReady>)
    requires Probing(scope, guard) && stdout.Valid() && stderr.Valid() && stdout != stderr
    modifies scope`firstObserved, scope.kernel`consumed, scope.kernel`drains, guard`ownership, guard`journal, guard`waits, guard.clock, stdout, stderr
    ensures Told(scope, guard, stdout, r)
    ensures r.StillProbing? ==> |readings| == rounds && forall i :: 0 <= i < rounds ==> Silent(readings[i])
    ensures r.Completed? <==> !r.StillProbing? && Undisturbed(old(scope.kernel.drains), scope) && RanWell(end)
    ensures Yields(r, old(scope.kernel.drains), scope)
    ensures r.StillProbing? && rounds > 0 ==> scope.firstObserved.None?
    ensures old(scope.firstObserved).Some? ==> scope.firstObserved == old(scope.firstObserved)
    ensures guard.clock.now >= old(guard.clock.now)
  {
    hide SignalScope.Valid;
    hide CollectorGuard.Valid;
    end, readings := ProbeEnd(None, false, false, None), [];
    ghost var before := scope.kernel.drains;
    var handshake := new Handshake();
    var round := 0;
    while round < rounds
      invariant 0 <= round <= rounds && fresh(handshake) && handshake.Valid()
      invariant Probing(scope, guard) && stdout.Valid() && stderr.Valid()
      invariant round > 0 ==> scope.firstObserved.None?
      invariant before <= scope.kernel.drains && AllRead(before, scope.kernel.drains)
      invariant |readings| == round && forall i :: 0 <= i < round ==> Silent(readings[i])
      invariant guard.clock.now >= old(guard.clock.now)
      invariant old(scope.firstObserved).Some? ==> scope.firstObserved == old(scope.firstObserved)
    {
      round := round + 1;
      var outcome;
      ghost var middle := scope.kernel.drains;
      outcome, end := ProbeRound(scope, guard, stdout, stderr, handshake, deadline);
      ReadThrough(before, middle, scope.kernel.drains);
      if outcome.Some? { return outcome.value, end, readings; }
      readings := readings + [end.reading.value];
    }
    r := StillProbing;
  }

  /** Reads fail or succeed in the whole as in the parts. */
  lemma ReadThrough(before: seq<bool>, middle: seq<bool>, after: seq<bool>)
    requires before <= middle <= after && AllRead(before, middle)
    ensures AllRead(before, after) <==> AllRead(middle, after)
  {
  }

  /** The whole preflight. Errors before a child exists carry no mark; with a child, every outcome
      tells whether it was reaped. */
  method ProbeBackend(scope: SignalScope, clock: Clock, rounds: nat)
    returns (r: Probed, ghost child: Option<CollectorGuard>, ghost end: Option<ProbeEnd>)
    requires scope.Valid()
    modifies scope`firstObserved, scope.kernel`consumed, scope.kernel`drains, clock
    ensures scope.Valid() && clock.now >= old(clock.now)
    ensures old(scope.firstObserved).Some? ==> scope.firstObserved == old(scope.firstObserved)
    ensures child.None? ==> r.ProbeCancelled? || (r.ProbeFailed? && !r.error.unquiesced)
    ensures child.Some? ==> child.value.Valid() && fresh(child.value)
    ensures r.Completed? ==>
              && child.Some? && child.value.ownership.Reaped? && scope.firstObserved.None?
              && child.value.journal == [WaitConsumed] && StatusRead(Exit(Exited(0)), child.value.waits)
    ensures r.Completed? ==> |r.output| <= STREAM_LIMIT
    ensures r.Completed? <==>
              !r.StillProbing? && Undisturbed(old(scope.kernel.drains), scope) && end.Some? && RanWell(end.value)
    ensures Yields(r, old(scope.kernel.drains), scope)
    ensures r.ProbeCancelled? ==> scope.firstObserved.Some? && (child.Some? ==> child.value.ownership.Reaped?)
    ensures r.ProbeFailed? && child.Some? ==> child.value.Settled(Err(r.error))
  {
    hide SignalScope.Valid;
    child, end := None, None;
    hide AllRead;
    var ok := scope.Observe();
    ReadOnce(old(scope.kernel.drains), old(scope.kernel.drains), scope.frozen, ok);
    NothingRead(old(scope.kernel.drains));
    if !ok { return ProbeFailed(Error(false)), child, end; }
    if scope.firstObserved.Some? { return ProbeCancelled(false), child, end; }
    var capable, spawned, piped := *, *, *;
    if !capable || !spawned { return ProbeFailed(Error(false)), child, end; }
    var started := clock.Read();
    var guard, error;
    ghost var open;
    guard, error, open := AttachOwned(clock);
    child := Some(guard);
    if error.Some? { return ProbeFailed(error.value), child, end; }
    if !piped {
      var e := guard.Abort();
      return ProbeFailed(e), child, end;
    }
    var stdout := new CapturedPipe();
    var stderr := new CapturedPipe();
    ghost var last, readings, middle := *, *, scope.kernel.drains;
    r, last, readings := SuperviseProbe(scope, guard, stdout, stderr, started + PROBE_BUDGET, rounds);
    ReadThrough(old(scope.kernel.drains), middle, scope.kernel.drains);
    end := Some(last);
  }
}
