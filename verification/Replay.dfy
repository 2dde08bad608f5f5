/** The reader's replay of saved lifetime annotations, and its agreement with the builder. */
module Replay {
  import opened Ordered
  import opened Records
  import opened Timeline
  import opened Lifetimes

  /** Validator state: `active` keeps the live ordinal and whether its identity is untrusted. */
  datatype State = State(
    latest: map<string, nat>, active: map<string, (nat, bool)>, missing: set<TaskIdentity>,
    hasInitial: bool, uncertain: bool)

  const START := State(map[], map[], {}, false, false)

  function Or0(n: Option<nat>): nat { match n case Some(v) => v case None => 0 }

  function NextOrdinal(s: State, pid: string): nat {
    (if pid in s.latest then s.latest[pid] else 0) + 1
  }

  function Expected(s: State, pid: string): (nat, bool) {
    if pid in s.active then s.active[pid] else (NextOrdinal(s, pid), s.hasInitial)
  }

  function ActorStep(s: State, e: Event): Option<State> {
    var actor := Or0(e.taskGeneration);
    var (expected, untrusted) := Expected(s, e.pid);
    if actor == 0 || actor != expected then None
    else if untrusted && !e.contextUncertain then None
    else
      var self := TaskIdentity(e.pid, actor);
      Some(State(
             s.latest[e.pid := actor],
             if e.kind == "exit" then s.active - {e.pid} else s.active[e.pid := (actor, untrusted)],
             if e.kind == "exit" then s.missing - {self} else s.missing + {self},
             s.hasInitial || e.pid !in s.active,
             s.uncertain || untrusted))
  }

  function ChildStep(s: State, e: Event, child: string): Option<State> {
    var ordinal := Or0(e.childGeneration);
    var collision := child in s.active;
    if ordinal == 0 || ordinal != NextOrdinal(s, child) then None
    else if collision && !e.contextUncertain then None
    else Some(State(
                s.latest[child := ordinal],
                s.active[child := (ordinal, collision)],
                s.missing + {TaskIdentity(child, ordinal)},
                s.hasInitial,
                s.uncertain || collision))
  }

  function ReplayStep(s: State, e: Event): Option<State> {
    var acted := ActorStep(s, e);
    if acted.Some? && e.childPid.Some? then ChildStep(acted.value, e, e.childPid.value) else acted
  }

  /** The validator's state after `k` events, absent once an annotation is contradicted. */
  function ReplayTo(replay: seq<Event>, k: nat): Option<State>
    requires k <= |replay|
  {
    if k == 0 then Some(START)
    else
      var before := ReplayTo(replay, k - 1);
      if before.None? then None else ReplayStep(before.value, replay[k - 1])
  }

  /** The reader's loop over the saved vector; `order` is its evidence order. */
  method CheckAnnotations(events: seq<Event>, order: seq<nat>) returns (result: Option<State>)
    requires Visits(events, order)
    ensures result == ReplayTo(Along(events, order), |order|)
  {
    var s := START;
    var k := 0;
    hide ReplayStep;
    while k < |order|
      invariant 0 <= k <= |order|
      invariant ReplayTo(Along(events, order), k) == Some(s)
    {
      var next := StepChecked(s, events[order[k]]);
      if next.None? {
        Rejected(Along(events, order), k + 1, |order|);
        return None;
      }
      s := next.value;
      k := k + 1;
    }
    return Some(s);
  }

  /** One iteration with the validator's own local updates. */
  method StepChecked(s: State, event: Event) returns (next: Option<State>)
    ensures next == ReplayStep(s, event)
  {
    hide ActorStep;
    hide ChildStep;
    next := ActorChecked(s, event);
    if next.Some? && event.childPid.Some? { next := ChildChecked(next.value, event, event.childPid.value); }
  }

  /** The actor keeps its active ordinal until exit; a reappearance allocates the next one. */
  method ActorChecked(s: State, event: Event) returns (next: Option<State>)
    ensures next == ActorStep(s, event)
  {
    var latest, active, missing, hasInitial, uncertain := s.latest, s.active, s.missing, s.hasInitial, s.uncertain;
    var actor := Or0(event.taskGeneration);
    var expected, untrusted;
    if event.pid in active {
      expected, untrusted := active[event.pid].0, active[event.pid].1;
    } else {
      expected := (if event.pid in latest then latest[event.pid] else 0) + 1;
      untrusted := hasInitial;
      hasInitial := true;
    }
    if actor == 0 || actor != expected { return None; }
    if untrusted && !event.contextUncertain { return None; }
    uncertain := uncertain || untrusted;
    latest := latest[event.pid := actor];
    active := active[event.pid := (actor, untrusted)];
    missing := missing + {TaskIdentity(event.pid, actor)};
    if event.kind == "exit" {
      active := active - {event.pid};
      missing := missing - {TaskIdentity(event.pid, actor)};
      assert active == s.active - {event.pid};
      assert missing == s.missing - {TaskIdentity(event.pid, actor)};
    }
    return Some(State(latest, active, missing, hasInitial, uncertain));
  }

  /** A child introduction always allocates; a collision replaces the live ordinal but keeps the
      former lifetime missing. */
  method ChildChecked(s: State, event: Event, child: string) returns (next: Option<State>)
    ensures next == ChildStep(s, event, child)
  {
    var ordinal := Or0(event.childGeneration);
    var expected := (if child in s.latest then s.latest[child] else 0) + 1;
    if ordinal == 0 || ordinal != expected { return None; }
    var collision := child in s.active;
    if collision && !event.contextUncertain { return None; }
    return Some(State(s.latest[child := ordinal], s.active[child := (ordinal, collision)],
                      s.missing + {TaskIdentity(child, ordinal)}, s.hasInitial, s.uncertain || collision));
  }

  lemma {:induction false} Rejected(replay: seq<Event>, j: nat, k: nat)
    requires j <= k <= |replay| && ReplayTo(replay, j).None?
    ensures ReplayTo(replay, k).None?
    decreases k
  {
    if j < k { Rejected(replay, j, k - 1); }
  }
}
