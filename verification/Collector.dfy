/** Authority over one spawned collector: who may still signal or reap it.

    Wait, kill and pidfd results are arbitrary. The journal lists every signal attempt and every
    event that ends authority, in order.
 */
module Collector {
  import opened Ordered
  import opened Spelling
  import opened Reduction

  const SIGKILL := 9
  const REAP_BUDGET: nat := 5000

  /** A monotone clock; each reading is later than the one before. */
  class Clock {
    var now: nat

    constructor ()
    {
      now := 0;
    }

    method Read() returns (t: nat)
      modifies this
      ensures t == now > old(now)
    {
      var elapsed :| elapsed >= 0;
      now := now + 1 + elapsed;
      t := now;
    }
  }

  datatype Purpose = RecorderSignal | LimitTermination | Cleanup

  datatype Act =
    | Signalled(number: int, purpose: Purpose)
    | WaitConsumed
    | Disowned
    | GaveUp

  datatype Ownership = Waitable | Reaped | Lost | Abandoned

  /** An error, and whether it carries the mark that the collector was never observed reaped. */
  datatype Error = Error(unquiesced: bool)

  datatype Status = Exit(exit: ProcessExit) | Err(error: Error)

  datatype TryWait = Ready(exit: ProcessExit) | NotYet | Interrupted | NoChild | WaitFailed

  datatype Waited = Got(exit: ProcessExit) | TimedOut | ChildGone | Broken

  datatype Delivery = Delivered | NoSuchProcess | DeliveryFailed

  predicate EndsAuthority(act: Act) { !act.Signalled? }

  /** No signal attempt follows an event that ended authority. */
  ghost predicate Respectful(journal: seq<Act>) {
    forall i, j :: 0 <= i < j < |journal| && EndsAuthority(journal[i]) ==> EndsAuthority(journal[j])
  }

  ghost predicate Authorized(journal: seq<Act>) {
    forall i :: 0 <= i < |journal| ==> !EndsAuthority(journal[i])
  }

  /** After `before`, only kills and ends of authority. */
  ghost predicate CleanupAfter(before: seq<Act>, journal: seq<Act>) {
    before <= journal &&
    forall i :: |before| <= i < |journal| ==>
      EndsAuthority(journal[i]) || journal[i] == Signalled(SIGKILL, Cleanup)
  }

  /** Ending authority is respectful at any point, and is remembered. */
  lemma AppendEnd(journal: seq<Act>, act: Act)
    requires Respectful(journal) && EndsAuthority(act)
    ensures Respectful(journal + [act]) && !Authorized(journal + [act])
    ensures WaitConsumed in journal + [act] <==> WaitConsumed in journal || act == WaitConsumed
    ensures WaitConsumed in journal ==> !Authorized(journal)
  {
    assert EndsAuthority((journal + [act])[|journal|]);
  }

  /** Waiting stops at the first result that decides, and gives that result. */
  ghost predicate Retried(before: seq<TryWait>, waits: seq<TryWait>, w: Waited) {
    && before <= waits
    && var last := |waits| - (if w.TimedOut? then 0 else 1);
       && |before| <= last
       && (forall i :: |before| <= i < last ==> waits[i].NotYet? || waits[i].Interrupted?)
       && match w
          case Got(exit) => waits[last] == Ready(exit)
          case ChildGone => waits[last] == NoChild
          case Broken => waits[last] == WaitFailed
          case TimedOut => true
  }

  /** A status is the last wait's own. */
  ghost predicate Awaited(s: Status, before: seq<TryWait>, waits: seq<TryWait>) {
    before <= waits && (s.Exit? ==> |before| < |waits| && waits[|waits| - 1] == Ready(s.exit))
  }

  /** The first wait did not find the child ended. */
  ghost predicate Unready(before: seq<TryWait>, waits: seq<TryWait>) {
    before <= waits && |before| < |waits| && !waits[|before|].Ready?
  }

  /** How a wait records the ownership it left. */
  function AuthorityEnd(ownership: Ownership): seq<Act> {
    match ownership
    case Reaped => [WaitConsumed]
    case Lost => [Disowned]
    case _ => []
  }

  class CollectorGuard {
    const clock: Clock
    var pidfd: bool
    var ownership: Ownership
    ghost var journal: seq<Act>
    ghost var waits: seq<TryWait>

    ghost predicate Valid()
      reads this
    {
      && Respectful(journal)
      && (ownership.Waitable? <==> Authorized(journal))
      && (ownership.Reaped? <==> WaitConsumed in journal)
    }

    /** Authority is taken before the pidfd exists. */
    constructor (clock: Clock)
      ensures Valid() && ownership == Waitable && !pidfd && journal == [] && waits == [] && this.clock == clock
    {
      this.clock := clock;
      pidfd, ownership, journal, waits := false, Waitable, [], [];
    }

    // ---------- waiting ----------

    /** One nonblocking wait, with any result; every result is remembered. */
    method TryWaitOnce() returns (r: TryWait)
      modifies this`waits
      ensures r.Ready? ==> InRange(r.exit)
      ensures waits == old(waits) + [r]
    {
      r := *;
      if r.Ready? && !InRange(r.exit) { r := NotYet; }
      waits := waits + [r];
    }

    /** Retry until a fixed deadline: neither endless interruption nor a contradictory readiness can
        prolong it. */
    method WaitUntil(deadline: nat) returns (w: Waited)
      modifies this`waits, clock
      ensures w.Got? ==> InRange(w.exit)
      ensures Retried(old(waits), waits, w)
      ensures w.TimedOut? ==> clock.now >= deadline
      ensures clock.now > old(clock.now)
    {
      var t := clock.Read();
      while t < deadline
        invariant t == clock.now > old(clock.now) && Retried(old(waits), waits, TimedOut)
        decreases deadline - t
      {
        var r := TryWaitOnce();
        match r {
          case Ready(exit) => return Got(exit);
          case NoChild => return ChildGone;
          case WaitFailed => return Broken;
          case _ =>
        }
        t := clock.Read();
      }
      w := TimedOut;
    }

    /** A successful wait consumes authority; a missing child disproves it. */
    method ObserveWait(w: Waited)
      requires Valid() && ownership == Waitable
      modifies this`ownership, this`journal
      ensures Valid()
      ensures ownership == (if w.Got? then Ownership.Reaped else if w.ChildGone? then Lost else Waitable)
      ensures journal == old(journal) +
                (if w.Got? then [WaitConsumed] else if w.ChildGone? then [Disowned] else [])
    {
      AppendEnd(journal, WaitConsumed);
      AppendEnd(journal, Disowned);
      match w {
        case Got(_) => ownership, journal := Ownership.Reaped, journal + [WaitConsumed];
        case ChildGone => ownership, journal := Lost, journal + [Disowned];
        case _ => assert journal == journal + [];
      }
    }

    // ---------- signalling ----------

    /** One delivery attempt through the pidfd, or the still-owned PID. */
    method Send(number: int, purpose: Purpose) returns (d: Delivery)
      requires Valid() && ownership == Waitable
      modifies this`journal
      ensures Valid() && journal == old(journal) + [Signalled(number, purpose)]
    {
      journal := journal + [Signalled(number, purpose)];
      d := *;
    }

    method Forward(number: int, purpose: Purpose) returns (ok: bool)
      requires Valid() && ownership == Waitable && pidfd
      modifies this`journal
      ensures Valid() && journal == old(journal) + [Signalled(number, purpose)]
    {
      var d := Send(number, purpose);
      ok := !d.DeliveryFailed?;
    }

    method Terminate() returns (ok: bool)
      requires Valid()
      modifies this`journal
      ensures Valid()
      ensures journal == old(journal) + (if ownership == Waitable then [Signalled(SIGKILL, Cleanup)] else [])
    {
      if ownership != Waitable {
        assert journal == journal + [];
        return true;
      }
      var d := Send(SIGKILL, Cleanup);
      ok := !d.DeliveryFailed?;
    }

    // ---------- ending authority ----------

    /** What a guard-ending operation appends: kills and authority ends only. */
    ghost predicate OnlyCleanup(before: seq<Act>)
      reads this
    {
      CleanupAfter(before, journal)
    }

    method TerminateAndReapStatus() returns (s: Status)
      requires Valid()
      modifies this`ownership, this`journal, this`waits, clock
      ensures Valid() && OnlyCleanup(old(journal)) && clock.now >= old(clock.now)
      ensures s.Exit? ==> ownership.Reaped? && InRange(s.exit)
      ensures Awaited(s, old(waits), waits)
      ensures s.Exit? ==> journal == old(journal) + [Signalled(SIGKILL, Cleanup), WaitConsumed]
      ensures s.Err? ==> !s.error.unquiesced
      ensures old(ownership) == Waitable ==>
                journal == old(journal) + [Signalled(SIGKILL, Cleanup)] + AuthorityEnd(ownership)
      ensures old(ownership) != Waitable ==> ownership == old(ownership) && journal == old(journal) && s.Err?
    {
      if ownership != Waitable { return Err(Error(false)); }
      var delivered := Terminate();
      var start := clock.Read();
      var w := WaitUntil(start + REAP_BUDGET);
      ObserveWait(w);
      if w.Got? && delivered { return Exit(w.exit); }
      s := Err(Error(false));
    }

    method TerminateAndReap() returns (ok: bool)
      requires Valid()
      modifies this`ownership, this`journal, this`waits, clock
      ensures Valid() && OnlyCleanup(old(journal)) && clock.now >= old(clock.now)
      ensures old(ownership) != Waitable ==> ok && ownership == old(ownership) && journal == old(journal)
      ensures old(ownership) == Waitable ==> old(journal) + [Signalled(SIGKILL, Cleanup)] <= journal
      ensures old(waits) <= waits
    {
      if ownership != Waitable { return true; }
      var s := TerminateAndReapStatus();
      ok := s.Exit?;
    }

    /** Give up authority before anything can release the PID; only a reaped child needs no mark. */
    method RevokeUnquiesced(error: Error) returns (e: Error)
      requires Valid() && !error.unquiesced
      modifies this`ownership, this`journal
      ensures Valid() && ownership != Waitable && OnlyCleanup(old(journal))
      ensures e.unquiesced <==> !ownership.Reaped?
      ensures if old(ownership).Reaped? then ownership.Reaped? && journal == old(journal)
              else ownership == Abandoned && journal == old(journal) + [GaveUp]
    {
      if ownership.Reaped? { return error; }
      AppendEnd(journal, GaveUp);
      ownership, journal := Abandoned, journal + [GaveUp];
      e := Error(true);
    }

    method WaitNormally() returns (s: Status)
      requires Valid() && ownership == Waitable
      modifies this`ownership, this`journal, this`waits, clock
      ensures Valid() && OnlyCleanup(old(journal)) && clock.now >= old(clock.now)
      ensures s.Exit? ==> ownership.Reaped? && InRange(s.exit)
      ensures s.Exit? ==> journal == old(journal) + [WaitConsumed]
      ensures s.Err? ==> !ownership.Reaped? && !s.error.unquiesced
      ensures Awaited(s, old(waits), waits)
      ensures s.Err? ==> Unready(old(waits), waits) || clock.now >= old(clock.now) + REAP_BUDGET
    {
      var start := clock.Read();
      var w := WaitUntil(start + REAP_BUDGET);
      ObserveWait(w);
      s := if w.Got? then Exit(w.exit) else Err(Error(false));
    }

    /** Normal completion. Every way out leaves nothing for Drop, and an error without the
        unquiesced mark means the collector was reaped. */
    method Finish() returns (s: Status)
      requires Valid() && ownership == Waitable
      modifies this`ownership, this`journal, this`waits, clock
      ensures Valid() && Settled(s) && OnlyCleanup(old(journal)) && clock.now >= old(clock.now)
      ensures s.Exit? ==> journal == old(journal) + [WaitConsumed]
      ensures Awaited(s, old(waits), waits)
      ensures s.Err? ==> Unready(old(waits), waits) || clock.now >= old(clock.now) + REAP_BUDGET
    {
      s := WaitNormally();
      if s.Err? {
        var reaped := TerminateAndReap();
        var e := RevokeUnquiesced(Error(false));
        s := Err(e);
      }
    }

    method Abort() returns (e: Error)
      requires Valid()
      modifies this`ownership, this`journal, this`waits, clock
      ensures Valid() && Settled(Err(e)) && OnlyCleanup(old(journal)) && clock.now >= old(clock.now)
      ensures old(ownership) == Waitable ==> old(journal) + [Signalled(SIGKILL, Cleanup)] <= journal
      ensures old(waits) <= waits
    {
      var reaped := TerminateAndReap();
      e := RevokeUnquiesced(Error(false));
    }

    method Cancel() returns (s: Status)
      requires Valid()
      modifies this`ownership, this`journal, this`waits, clock
      ensures Valid() && Settled(s) && OnlyCleanup(old(journal)) && clock.now >= old(clock.now)
      ensures s.Exit? ==> journal == old(journal) + [Signalled(SIGKILL, Cleanup), WaitConsumed]
      ensures old(ownership) == Waitable ==> old(journal) + [Signalled(SIGKILL, Cleanup)] <= journal
      ensures Awaited(s, old(waits), waits)
    {
      s := TerminateAndReapStatus();
      if s.Err? {
        var e := RevokeUnquiesced(s.error);
        s := Err(e);
      }
    }

    /** The status tells the truth about authority: it is gone, and only the mark admits a collector
        that was not reaped. */
    predicate Settled(s: Status)
      reads this
    {
      && ownership != Waitable
      && (s.Exit? ==> ownership.Reaped? && InRange(s.exit))
      && (s.Err? ==> (s.error.unquiesced <==> !ownership.Reaped?))
    }

    /** Fallback cleanup: nothing happens once authority ended. */
    method Drop()
      requires Valid()
      modifies this`ownership, this`journal, this`waits
      ensures Valid() && ownership != Waitable && OnlyCleanup(old(journal))
      ensures old(ownership) != Waitable ==> ownership == old(ownership) && journal == old(journal)
      ensures old(ownership) == Waitable ==> old(journal) + [Signalled(SIGKILL, Cleanup)] <= journal
    {
      if ownership == Waitable {
        var delivered := Terminate();
        var r := TryWaitOnce();
        if r.Ready? {
          ObserveWait(Got(r.exit));
        } else {
          AppendEnd(journal, GaveUp);
          ownership, journal := Abandoned, journal + [GaveUp];
        }
      }
    }
  }

  datatype PidfdOpen = PidfdOpened | IdentityLost | PidfdRefused

  /** Take authority, then acquire the pidfd; a lost identity is never signalled by number. */
  method AttachOwned(clock: Clock) returns (guard: CollectorGuard, error: Option<Error>, ghost open: PidfdOpen)
    modifies clock
    ensures fresh(guard) && guard.Valid() && guard.clock == clock && clock.now >= old(clock.now)
    ensures error.None? <==> open.PidfdOpened?
    ensures open.IdentityLost? ==> [Disowned] <= guard.journal
    ensures open.PidfdRefused? ==> [Signalled(SIGKILL, Cleanup)] <= guard.journal
    ensures error.None? ==> guard.ownership == Waitable && guard.pidfd && guard.journal == []
    ensures error.Some? ==> guard.Settled(Err(error.value))
  {
    guard := new CollectorGuard(clock);
    var pidfd: PidfdOpen := *;
    open := pidfd;
    if pidfd.PidfdOpened? {
      guard.pidfd := true;
      return guard, None, open;
    }
    if pidfd.IdentityLost? {
      AppendEnd(guard.journal, Disowned);
      guard.ownership, guard.journal := Lost, guard.journal + [Disowned];
    }
    var e := guard.Abort();
    error := Some(e);
  }
}
