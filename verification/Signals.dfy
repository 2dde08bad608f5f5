/** The recorder's temporary signal state, under a kernel whose every call may fail.

    Results the kernel chooses are arbitrary: each is taken from nondeterministic assignment.
 */
module Signals {
  import opened Ordered
  import opened Reduction

  const SIGHUP := 1
  const SIGINT := 2
  const SIGTERM := 15
  const CONTROL: seq<int> := [SIGHUP, SIGINT, SIGTERM]
  const WATCHED: set<int> := {SIGHUP, SIGINT, SIGTERM}

  datatype Action = Default | Ignored | Handler(id: nat)

  datatype SavedSignal = SavedSignal(number: int, action: Action, blocked: bool)

  /** A system call that changes signal state, whatever its result. */
  datatype Call = ActionCall(number: int) | MaskCall(mask: set<int>)

  /** Process dispositions, the recording thread's mask, and what signalfd has handed out. */
  class Kernel {
    var actions: map<int, Action>
    var masked: set<int>
    ghost var inherited: map<int, Action>
    ghost var exposed: bool
    ghost var consumed: seq<int>
    ghost var calls: seq<Call>
    ghost var results: seq<bool>
    ghost var drains: seq<bool>

    constructor (actions: map<int, Action>, masked: set<int>)
      requires forall n :: n in WATCHED ==> n in actions
      ensures Total() && !exposed && this.actions == actions && this.masked == masked
    {
      this.actions, this.masked, inherited := actions, masked, actions;
      exposed, consumed, calls, results, drains := false, [], [], [], [];
    }

    ghost predicate Total()
      reads this
    {
      forall n :: n in WATCHED ==> n in actions && n in inherited
    }

    /** Some watched signal currently has a disposition its caller did not choose. */
    ghost predicate Temporary()
      requires Total()
      reads this
    {
      exists n :: n in WATCHED && actions[n] != inherited[n]
    }

    /** A watched signal could act on a temporary disposition right now. */
    ghost predicate Unsafe()
      requires Total()
      reads this
    {
      Temporary() && !(WATCHED <= masked)
    }

    /** No moment so far was unsafe. */
    ghost predicate Safe()
      requires Total()
      reads this
    {
      !exposed && !Unsafe()
    }

    method SetAction(number: int, action: Action) returns (ok: bool)
      requires Total() && number in WATCHED
      modifies this`actions, this`exposed, this`calls, this`results
      ensures Total() && calls == old(calls) + [ActionCall(number)] && results == old(results) + [ok]
      ensures actions == (if ok then old(actions)[number := action] else old(actions))
      ensures exposed == (old(exposed) || Unsafe())
    {
      calls := calls + [ActionCall(number)];
      ok := *;
      results := results + [ok];
      if ok { actions := actions[number := action]; }
      exposed := exposed || Unsafe();
    }

    method SetMask(mask: set<int>) returns (ok: bool)
      requires Total()
      modifies this`masked, this`exposed, this`calls, this`results
      ensures Total() && calls == old(calls) + [MaskCall(mask)] && results == old(results) + [ok]
      ensures masked == (if ok then mask else old(masked))
      ensures exposed == (old(exposed) || Unsafe())
    {
      calls := calls + [MaskCall(mask)];
      ok := *;
      results := results + [ok];
      if ok { masked := mask; }
      exposed := exposed || Unsafe();
    }

    /** One signalfd drain: some records, then an empty queue, a failed read or a short one. */
    method Drain() returns (records: seq<int>, ok: bool)
      modifies this`consumed, this`drains
      ensures consumed == old(consumed) + records && drains == old(drains) + [ok]
    {
      records, ok := *, *;
      consumed, drains := consumed + records, drains + [ok];
    }
  }

  /** One disposition call for each of the first `count` control signals, last first. */
  function Reversed(count: nat): (r: seq<Call>)
    requires count <= |CONTROL|
  {
    if count == 0 then [] else [ActionCall(CONTROL[count - 1])] + Reversed(count - 1)
  }

  /** `count` calls were answered, and all of them well exactly when `ok`. */
  ghost predicate Reported(before: seq<bool>, after: seq<bool>, count: nat, ok: bool) {
    before <= after && |after| == |before| + count && (ok <==> forall i :: |before| <= i < |after| ==> after[i])
  }

  lemma ReportedNext(base: seq<bool>, results: seq<bool>, count: nat, ok: bool, next: bool)
    requires Reported(base, results, count, ok)
    ensures Reported(base, results + [next], count + 1, ok && next)
  {
    var after := results + [next];
    assert after[..|results|] == results && after[|results|] == next;
    if ok && next {
      forall i | |base| <= i < |after| ensures after[i] { assert i < |results| ==> results[i]; }
    } else if !ok {
      var i :| |base| <= i < |results| && !results[i];
      assert !after[i];
    }
  }

  lemma NothingReported(results: seq<bool>)
    ensures Reported(results, results, 0, true)
  {
  }

  /** Restore the first `count` saved dispositions in reverse, attempting every one. */
  method RestoreActions(kernel: Kernel, saved: seq<SavedSignal>, count: nat) returns (ok: bool)
    requires kernel.Total() && kernel.Safe() && count <= |saved| == |CONTROL|
    requires forall i :: 0 <= i < |saved| ==>
               saved[i].number == CONTROL[i] && saved[i].action == kernel.inherited[CONTROL[i]]
    modifies kernel`actions, kernel`exposed, kernel`calls, kernel`results
    ensures kernel.Total() && kernel.Safe()
    ensures kernel.calls == old(kernel.calls) + Reversed(count)
    ensures Reported(old(kernel.results), kernel.results, count, ok)
    ensures ok ==> forall i :: 0 <= i < count ==> kernel.actions[CONTROL[i]] == kernel.inherited[CONTROL[i]]
    ensures forall i :: count <= i < |saved| ==> kernel.actions[CONTROL[i]] == old(kernel.actions)[CONTROL[i]]
    ensures old(!kernel.Temporary()) ==> !kernel.Temporary()
  {
    hide Reported;
    NothingReported(kernel.results);
    ok := true;
    var i := count;
    while i > 0
      invariant 0 <= i <= count && kernel.Total() && kernel.Safe()
      invariant kernel.calls + Reversed(i) == old(kernel.calls) + Reversed(count)
      invariant Reported(old(kernel.results), kernel.results, count - i, ok)
      invariant ok ==> forall j :: i <= j < count ==> kernel.actions[CONTROL[j]] == kernel.inherited[CONTROL[j]]
      invariant forall j :: 0 <= j < |saved| && !(i <= j < count) ==>
                  kernel.actions[CONTROL[j]] == old(kernel.actions)[CONTROL[j]]
      invariant old(!kernel.Temporary()) ==> !kernel.Temporary()
    {
      ghost var calls, results, before := kernel.calls, kernel.results, ok;
      i := i - 1;
      var set_ := kernel.SetAction(saved[i].number, saved[i].action);
      ok := ok && set_;
      ReportedNext(old(kernel.results), results, count - i - 1, before, set_);
      assert kernel.calls + Reversed(i) == calls + Reversed(i + 1);
    }
  }

  /** The owner of the temporary mask, dispositions and signalfd. */
  class SignalScope {
    const kernel: Kernel
    var saved: seq<SavedSignal>
    var originalMask: set<int>
    var firstObserved: Option<int>
    var frozen: bool
    var restored: bool
    ghost var frozenAt: seq<int>

    /** Saved state is the inherited one, the first observation is the first consumed record, and a
        frozen scope has consumed nothing since. */
    ghost predicate Valid()
      reads this, kernel
    {
      && kernel.Total() && kernel.Safe()
      && |saved| == |CONTROL|
      && (forall i :: 0 <= i < |saved| ==>
            saved[i].number == CONTROL[i] && saved[i].action == kernel.inherited[CONTROL[i]])
      && firstObserved == (if kernel.consumed == [] then None else Some(kernel.consumed[0]))
      && (frozen ==> kernel.consumed == frozenAt)
      && (restored ==> frozen && !kernel.Temporary() && kernel.masked == originalMask)
    }

    constructor (kernel: Kernel, saved: seq<SavedSignal>, originalMask: set<int>)
      requires kernel.Total() && kernel.Safe() && kernel.consumed == [] && WATCHED <= kernel.masked
      requires |saved| == |CONTROL| && forall i :: 0 <= i < |saved| ==>
                 saved[i].number == CONTROL[i] && saved[i].action == kernel.inherited[CONTROL[i]]
      ensures Valid() && !frozen && !restored && this.kernel == kernel
      ensures this.saved == saved && this.originalMask == originalMask
    {
      this.kernel, this.saved, this.originalMask := kernel, saved, originalMask;
      firstObserved, frozen, restored, frozenAt := None, false, false, [];
    }

    /** Drain pending records, latching only the first ever read. */
    method Observe() returns (ok: bool)
      requires Valid()
      modifies this`firstObserved, kernel`consumed, kernel`drains
      ensures Valid()
      ensures old(firstObserved).Some? ==> firstObserved == old(firstObserved)
      ensures frozen ==> ok && kernel.consumed == old(kernel.consumed) && firstObserved == old(firstObserved)
      ensures old(kernel.consumed) <= kernel.consumed
      ensures kernel.drains == old(kernel.drains) + (if frozen then [] else [ok])
    {
      if frozen {
        assert kernel.drains == kernel.drains + [];
        return true;
      }
      var records;
      records, ok := kernel.Drain();
      var i := 0;
      while i < |records|
        invariant 0 <= i <= |records|
        invariant kernel.consumed == old(kernel.consumed) + records && kernel.drains == old(kernel.drains) + [ok]
        invariant firstObserved == (if old(kernel.consumed) != [] then Some(old(kernel.consumed)[0])
                                    else if i > 0 then Some(records[0]) else None)
      {
        if firstObserved.None? { firstObserved := Some(records[i]); }
        i := i + 1;
      }
      ghost var before := old(kernel.consumed);
      assert before != [] ==> kernel.consumed[0] == before[0];
      assert before == [] && records != [] ==> kernel.consumed[0] == records[0];
      assert before == [] ==> kernel.consumed == records;
    }

    function RecorderFact(): RecorderStop
      reads this
    {
      match firstObserved case Some(n) => StoppedBy(n) case None => NoSignal
    }

    /** A signal the backend would inherit blocked or ignored is not forwarded. */
    predicate RequiresDirectTermination(signal: int)
      reads this
    {
      exists i :: 0 <= i < |saved| && saved[i].number == signal && (saved[i].blocked || saved[i].action.Ignored?)
    }

    /** End acquisition even when the last read fails. */
    method Freeze() returns (ok: bool, stop: RecorderStop)
      requires Valid()
      modifies this`firstObserved, this`frozen, this`frozenAt, kernel`consumed, kernel`drains
      ensures Valid() && frozen
      ensures old(firstObserved).Some? ==> firstObserved == old(firstObserved)
      ensures old(frozen) ==> ok && kernel.consumed == old(kernel.consumed) && firstObserved == old(firstObserved)
      ensures stop == RecorderFact()
      ensures kernel.drains == old(kernel.drains) + (if old(frozen) then [] else [ok])
    {
      ok := Observe();
      frozenAt := kernel.consumed;
      frozen := true;
      stop := RecorderFact();
    }

    /** Dispositions first, every one attempted even after a failed last read; the mask only once
        every disposition is back. A retry after success changes nothing. */
    method RestoreParent() returns (r: Restoration)
      requires Valid()
      modifies this`firstObserved, this`frozen, this`frozenAt, this`restored
      modifies kernel`consumed, kernel`drains, kernel`actions, kernel`masked, kernel`exposed, kernel`calls, kernel`results
      ensures Valid() && frozen
      ensures r.Complete() ==> restored && !kernel.Temporary() && kernel.masked == originalMask
      ensures old(firstObserved).Some? ==> firstObserved == old(firstObserved)
      ensures old(frozen) ==> kernel.consumed == old(kernel.consumed) && firstObserved == old(firstObserved)
      ensures !r.Complete() ==> WATCHED <= kernel.masked || !kernel.Temporary()
      ensures if old(restored) then r.Complete() && kernel.calls == old(kernel.calls)
              else kernel.calls == old(kernel.calls) + Reversed(|CONTROL|) +
                                   (if r.actions then [MaskCall(originalMask)] else [])
      ensures !old(restored) ==>
                && kernel.drains == old(kernel.drains) + (if old(frozen) then [] else [r.drained])
                && (old(frozen) ==> r.drained)
                && Restored(old(kernel.results), kernel.results, r)
    {
      if restored { return Restoration(true, true, true); }
      var drained, stop := Freeze();
      var actionsBack := RestoreActions(kernel, saved, |saved|);
      var maskBack := true;
      if actionsBack {
        AllBack(kernel);
        maskBack := kernel.SetMask(originalMask);
      }
      r := Restoration(drained, actionsBack, maskBack);
      if r.Complete() { restored := true; }
    }
  }

  /** A restoration reports what its calls answered: every disposition, then the mask when it was attempted. */
  ghost predicate Restored(before: seq<bool>, after: seq<bool>, r: Restoration) {
    && |after| == |before| + |CONTROL| + (if r.actions then 1 else 0)
    && Reported(before, after[..|before| + |CONTROL|], |CONTROL|, r.actions)
    && r.mask == (if r.actions then after[|after| - 1] else true)
  }

  /** Which parts of a restoration succeeded. */
  datatype Restoration = Restoration(drained: bool, actions: bool, mask: bool) {
    predicate Complete() { drained && actions && mask }
  }

  /** Watched dispositions are the inherited ones once each control signal's is. */
  lemma AllBack(kernel: Kernel)
    requires kernel.Total()
    requires forall i :: 0 <= i < |CONTROL| ==> kernel.actions[CONTROL[i]] == kernel.inherited[CONTROL[i]]
    ensures !kernel.Temporary()
  {
    forall n | n in WATCHED ensures kernel.actions[n] == kernel.inherited[n] {
      assert n == CONTROL[0] || n == CONTROL[1] || n == CONTROL[2];
    }
  }

  /** Undo a partial setup: no scope was built, so a failed restoration keeps the signals blocked. */
  method Rollback(kernel: Kernel, saved: seq<SavedSignal>, changed: nat, originalMask: set<int>)
    requires kernel.Total() && kernel.Safe() && changed <= |saved| == |CONTROL| && WATCHED <= kernel.masked
    requires forall i :: 0 <= i < |saved| ==>
               saved[i].number == CONTROL[i] && saved[i].action == kernel.inherited[CONTROL[i]]
    requires forall i :: changed <= i < |saved| ==> kernel.actions[CONTROL[i]] == kernel.inherited[CONTROL[i]]
    modifies kernel`actions, kernel`masked, kernel`exposed, kernel`calls, kernel`results
    ensures old(kernel.calls) + Reversed(changed) <= kernel.calls && old(kernel.results) <= kernel.results
    ensures kernel.Total() && kernel.Safe() && (kernel.Temporary() ==> WATCHED <= kernel.masked)
  {
    var actionsBack := RestoreActions(kernel, saved, changed);
    if actionsBack {
      AllBack(kernel);
      var maskBack := kernel.SetMask(originalMask);
    }
  }

  /** Block, then replace dispositions, then open signalfd; any step may fail. */
  method Acquire(kernel: Kernel) returns (scope: SignalScope?, ghost readable: bool)
    requires kernel.Total()
    modifies kernel
    ensures kernel.Total() && kernel.Safe() && (kernel.Temporary() ==> WATCHED <= kernel.masked)
    ensures kernel.inherited == old(kernel.actions)
    ensures scope != null <==> readable && (forall i :: |old(kernel.results)| <= i < |kernel.results| ==> kernel.results[i])
    ensures scope != null ==>
              && fresh(scope) && scope.kernel == kernel && scope.Valid() && !scope.frozen && !scope.restored
              && {1, 2, 15} <= kernel.masked && scope.originalMask == old(kernel.masked)
              && scope.firstObserved.None?
              && (forall i :: 0 <= i < |CONTROL| ==> kernel.actions[CONTROL[i]] == Default)
              && (forall i :: 0 <= i < |CONTROL| ==>
                    scope.saved[i] == SavedSignal(CONTROL[i], old(kernel.actions)[CONTROL[i]],
                                                  CONTROL[i] in old(kernel.masked)))
  {
    kernel.inherited, kernel.exposed, kernel.consumed := kernel.actions, false, [];
    var originalMask := kernel.masked;
    var saved := seq(|CONTROL|, i requires 0 <= i < |CONTROL| && CONTROL[i] in kernel.actions reads kernel =>
      SavedSignal(CONTROL[i], kernel.actions[CONTROL[i]], CONTROL[i] in originalMask));
    scope, readable := null, true;
    ghost var base := kernel.results;
    var blocked := kernel.SetMask(kernel.masked + WATCHED);
    if !blocked {
      assert !kernel.results[|base|];
      return;
    }
    var index := 0;
    while index < |CONTROL|
      invariant 0 <= index <= |CONTROL|
      invariant kernel.Total() && kernel.Safe() && WATCHED <= kernel.masked
      invariant kernel.inherited == old(kernel.actions) && kernel.consumed == []
      invariant base <= kernel.results && forall i :: |base| <= i < |kernel.results| ==> kernel.results[i]
      invariant forall i :: index <= i < |CONTROL| ==> kernel.actions[CONTROL[i]] == kernel.inherited[CONTROL[i]]
      invariant forall i :: 0 <= i < index ==> kernel.actions[CONTROL[i]] == Default
    {
      var set_ := kernel.SetAction(CONTROL[index], Default);
      if !set_ {
        ghost var last := |kernel.results| - 1;
        assert !kernel.results[last];
        Rollback(kernel, saved, index, originalMask);
        assert !kernel.results[last];
        return;
      }
      index := index + 1;
    }
    var descriptor: bool := *;
    readable := descriptor;
    if !descriptor {
      Rollback(kernel, saved, index, originalMask);
      return;
    }
    scope := new SignalScope(kernel, saved, originalMask);
  }
}
