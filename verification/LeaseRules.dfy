/**
 What callers of the state leases can count on besides exclusion: an undisturbed request is
 granted, readers share, the queues of one process keep their order, and no two gates pass
 at once.
 */
module LeaseRules {
  import Runs
  import opened StateLeases

  // ---------------------------------------------------------------------
  // Requests that nothing disturbs are granted
  // ---------------------------------------------------------------------

  /** Every other caller has no state part or, for a reader, shares the state file. */
  predicate OutOfTheWay(s: System, t: nat, write: bool) {
    forall u :: 0 <= u < |s.threads| && u != t ==>
      s.threads[u].access.NoAccess? || (!write && !s.threads[u].write && s.threads[u].access.Reading?)
  }

  function At(s: System, t: nat, access: Access, write: bool): System
    requires t < |s.threads|
  {
    s.(threads := s.threads[t := s.threads[t].(access := access, write := write)])
  }

  function Steps(t: nat, write: bool): seq<Event> {
    [RequestState(t, write), AdmitState(t), OpenGate(t), LockGate(t), OpenState(t), LockState(t), Check(t)]
  }

  /** The caller after so many steps. */
  function Stage(s: System, t: nat, write: bool, k: nat): System
    requires t < |s.threads| && GateLock in s.names && StateLock in s.names
  {
    var gate, file := s.names[GateLock], s.names[StateLock];
    if k == 0 then s
    else
      At(s, t,
        if k == 1 then QueuedS
        else if k == 2 then AdmittedS
        else if k == 3 then WantsGate(gate)
        else if k == 4 then HasGate(gate)
        else if k == 5 then WantsState(gate, file)
        else if k == 6 then Unchecked(gate, file)
        else if write then Holding(gate, file) else Reading(file), write)
  }

  /** Nothing stands between a request and its lease. */
  predicate Undisturbed(s: System, t: nat, write: bool) {
    && t < |s.threads| && s.threads[t].access.NoAccess?
    && (s.threads[t].lifecycle.NoLifecycle? || s.threads[t].lifecycle.HasL?)
    && (HeldLifecycle(s.threads[t]).Some? ==> Names(s, LifecycleLock, HeldLifecycle(s.threads[t]).value))
    && OutOfTheWay(s, t, write) && GateLock in s.names && StateLock in s.names
  }

  lemma OneStep(s: System, t: nat, write: bool, k: nat)
    requires Undisturbed(s, t, write) && k < 7
    ensures Step(Stage(s, t, write, k), Steps(t, write)[k], Stage(s, t, write, k + 1))
  {
    var a, r := Stage(s, t, write, k), Stage(s, t, write, k + 1);
    assert OutOfTheWay(a, t, write);
    assert a.threads[t := r.threads[t]] == r.threads;
  }

  lemma {:induction false} StepsTaken(s: System, t: nat, write: bool, k: nat) returns (states: seq<System>)
    requires Undisturbed(s, t, write) && k <= 7
    ensures Runs.Run(s, Step, states, Steps(t, write)[..k]) && states[k] == Stage(s, t, write, k)
  {
    if k == 0 {
      states := [s];
    } else {
      hide Step, Stage, Undisturbed;
      states := StepsTaken(s, t, write, k - 1);
      OneStep(s, t, write, k - 1);
      var next, done := Stage(s, t, write, k), Steps(t, write)[..k - 1];
      Runs.Longer(s, Step, states, done, Steps(t, write)[k - 1], next);
      states := states + [next];
      assert Steps(t, write)[..k] == done + [Steps(t, write)[k - 1]];
    }
  }

  /** When nobody else is in the way and the lock files stay where they are, a request for a
      state lease goes through every step and ends with a lease that passes; readers that
      read already are not in a reader's way, and keep their leases. */
  lemma UndisturbedLease(s: System, t: nat, write: bool) returns (states: seq<System>)
    requires Undisturbed(s, t, write)
    ensures Runs.Run(s, Step, states, Steps(t, write))
    ensures |states[7].threads| == |s.threads| && Leased(states[7], states[7].threads[t]) && states[7].threads[t].write == write
    ensures forall u :: 0 <= u < |s.threads| && u != t && Leased(s, s.threads[u]) ==> Leased(states[7], states[7].threads[u])
  {
    states := StepsTaken(s, t, write, 7);
    assert Steps(t, write)[..7] == Steps(t, write);
    var file := s.names[StateLock];
    Granted(s, t, if write then Holding(s.names[GateLock], file) else Reading(file), write);
  }

  lemma Granted(s: System, t: nat, last: Access, write: bool)
    requires t < |s.threads| && GateLock in s.names && StateLock in s.names
    requires HeldLifecycle(s.threads[t]).Some? ==> Names(s, LifecycleLock, HeldLifecycle(s.threads[t]).value)
    requires last == if write then Holding(s.names[GateLock], s.names[StateLock]) else Reading(s.names[StateLock])
    ensures var r := At(s, t, last, write);
      && |r.threads| == |s.threads| && Leased(r, r.threads[t]) && r.threads[t].write == write && r.names == s.names
      && forall u :: 0 <= u < |s.threads| && u != t ==> r.threads[u] == s.threads[u]
  {}

  /** Likewise for a lifecycle lease. */
  lemma UndisturbedLifecycle(s: System, t: nat) returns (states: seq<System>)
    requires t < |s.threads| && !Busy(s.threads[t]) && LifecycleLock in s.names
    requires forall u :: 0 <= u < |s.threads| && u != t ==> !InLifecycleQueue(s.threads[u])
    ensures Runs.Run(s, Step, states, [Request(t), Admit(t), OpenFile(t), Lock(t)])
    ensures t < |states[4].threads| && states[4].threads[t].lifecycle.HasL? && Passes(states[4], states[4].threads[t])
  {
    var a := After(s, Request(t));
    var b := After(a, Admit(t));
    var c := After(b, OpenFile(t));
    states := [s, a, b, c, After(c, Lock(t))];
  }

  // ---------------------------------------------------------------------
  // The queues of one process
  // ---------------------------------------------------------------------

  /** In one process at most one caller is past the lifecycle queue, and a writer past the
      state queue is there alone. */
  predicate Queued(s: System) {
    forall t, u :: 0 <= t < |s.threads| && 0 <= u < |s.threads| && t != u && s.threads[t].process == s.threads[u].process ==>
      && !(InLifecycleQueue(s.threads[t]) && InLifecycleQueue(s.threads[u]))
      && (s.threads[t].write && InStateQueue(s.threads[t]) ==> !InStateQueue(s.threads[u]))
  }

  lemma QueuedKept(s: System, e: Event)
    requires Queued(s) && Enabled(s, e)
    ensures Queued(After(s, e))
  {
    if !e.Unlink? && !e.Create? {
      TurnQueues(s, e);
    }
  }

  lemma TurnQueues(s: System, e: Event)
    requires !e.Unlink? && !e.Create? && Enabled(s, e)
    ensures var was, now := s.threads[e.t], Turn(s, e);
      && now.process == was.process
      && (InLifecycleQueue(now) ==> InLifecycleQueue(was) || LifecycleAdmits(s, e.t))
      && (InStateQueue(now) ==> now.write == was.write && (InStateQueue(was) || StateAdmits(s, e.t)))
  {}

  /** In every run, whatever happens to the files. */
  lemma OneAtATime(start: System, states: seq<System>, events: seq<Event>, i: nat, t: nat, u: nat)
    requires Run(start, states, events) && i < |states| && t < |states[i].threads| && u < |states[i].threads| && t != u
    requires states[i].threads[t].process == states[i].threads[u].process
    ensures !(InLifecycleQueue(states[i].threads[t]) && InLifecycleQueue(states[i].threads[u]))
    ensures states[i].threads[t].write && InStateQueue(states[i].threads[t]) ==> !InStateQueue(states[i].threads[u])
  {
    hide After, Enabled, Queued;
    forall s, e, r | Queued(s) && Step(s, e, r) ensures Queued(r) {
      QueuedKept(s, e);
    }
    assert Queued(start) by {
      StartQueued(start);
    }
    Runs.Invariant(start, Step, Queued, states, events, i);
    assert Queued(states[i]);
    QueuedPair(states[i], t, u);
  }

  lemma StartQueued(s: System)
    requires Start(s)
    ensures Queued(s)
  {}

  lemma QueuedPair(s: System, t: nat, u: nat)
    requires Queued(s) && t < |s.threads| && u < |s.threads| && t != u && s.threads[t].process == s.threads[u].process
    ensures !(InLifecycleQueue(s.threads[t]) && InLifecycleQueue(s.threads[u]))
    ensures s.threads[t].write && InStateQueue(s.threads[t]) ==> !InStateQueue(s.threads[u])
  {}

  /** A reader enters the state queue only when no writer of its process is under way, not
      even one that still waits. */
  lemma WritersGoFirst(start: System, states: seq<System>, events: seq<Event>, i: nat, t: nat, u: nat)
    requires Run(start, states, events) && i < |events| && t < |states[i].threads| == |states[i + 1].threads|
    requires !InStateQueue(states[i].threads[t]) && InStateQueue(states[i + 1].threads[t]) && !states[i + 1].threads[t].write
    requires u < |states[i].threads| && u != t && states[i].threads[u].process == states[i].threads[t].process
    ensures states[i].threads[u].write ==> states[i].threads[u].access.NoAccess?
  {
    assert Step(states[i], events[i], states[i + 1]);
    TurnQueues(states[i], events[i]);
  }

  // ---------------------------------------------------------------------
  // Gates
  // ---------------------------------------------------------------------

  /** No two callers that hold a gate both pass. */
  lemma GateAlone(start: System, states: seq<System>, events: seq<Event>, i: nat, t: nat, u: nat)
    requires Run(start, states, events) && i < |states| && t < |states[i].threads| && u < |states[i].threads| && t != u
    requires HeldGate(states[i].threads[t]).Some? && HeldGate(states[i].threads[u]).Some?
    ensures !(Passes(states[i], states[i].threads[t]) && Passes(states[i], states[i].threads[u]))
  {
    InvAlways(start, states, events, i);
    assert Compatible(states[i].threads[t], states[i].threads[u]);
  }

  // ---------------------------------------------------------------------
  // Grants and releases
  // ---------------------------------------------------------------------

  predicate AtRest(t: Thread) {
    t.access.Holding? || t.access.Reading?
  }

  /** A state lease is given out only at a moment at which every file it holds, its lifecycle
      lock included, still has its name. */
  lemma GrantedPassing(start: System, states: seq<System>, events: seq<Event>, i: nat, t: nat)
    requires Run(start, states, events) && i < |events| && t < |states[i].threads| == |states[i + 1].threads|
    requires !AtRest(states[i].threads[t]) && AtRest(states[i + 1].threads[t])
    ensures Leased(states[i + 1], states[i + 1].threads[t])
  {
    assert Step(states[i], events[i], states[i + 1]);
  }

  /** Giving up a state lease takes its caller out of everybody's way, and giving up everything
      leaves it idle. */
  lemma ReleasesFree(s: System, t: nat, u: nat, write: bool)
    requires t < |s.threads| && u < |s.threads| && u != t
    requires forall x :: 0 <= x < |s.threads| && x != t && x != u ==>
      s.threads[x].access.NoAccess? || (!write && !s.threads[x].write && s.threads[x].access.Reading?)
    ensures OutOfTheWay(After(s, ReleaseState(u)), t, write)
    ensures |After(s, Event.Release(u)).threads| == |s.threads| && !Busy(After(s, Event.Release(u)).threads[u])
  {}
}
