/**
 Leases over three lock files, across processes: each is opened by name, locked, and
 then checked to be still the file of that name. Files may be unlinked and recreated
 at any moment, so a lock can be held on a file that no longer has its name.

 An advisory lock belongs to the file, not to its name. Polling for it, and waiting in
 the process-local queues, are steps that happen when they can.
 */
module StateLeases {
  import Runs

  datatype Option<+T> = None | Some(value: T)

  datatype Kind = LifecycleLock | GateLock | StateLock

  datatype Lifecycle = NoLifecycle | QueuedL | AdmittedL | WantsL(file: nat) | HasL(file: nat)

  datatype Access =
    | NoAccess | QueuedS | AdmittedS
    | WantsGate(gate: nat) | HasGate(gate: nat) | WantsState(gate: nat, file: nat)
    | Unchecked(gate: nat, file: nat) | Holding(gate: nat, file: nat) | Reading(file: nat)

  /** One caller: its lifecycle part and, always after it, its state part. */
  datatype Thread = Thread(process: nat, lifecycle: Lifecycle, access: Access, write: bool)

  /** `names` gives the file of each lock's name; files are numbered as they are made. */
  datatype System = System(names: map<Kind, nat>, made: nat, threads: seq<Thread>)

  datatype Event =
    | Request(t: nat)
    | Admit(t: nat)
    | OpenFile(t: nat)
    | Lock(t: nat)
    | RequestState(t: nat, write: bool)
    | AdmitState(t: nat)
    | OpenGate(t: nat)
    | LockGate(t: nat)
    | OpenState(t: nat)
    | LockState(t: nat)
    | Check(t: nat)
    | ReleaseState(t: nat)
    | Release(t: nat)
    | Unlink(kind: Kind)
    | Create(kind: Kind)

  // ---------------------------------------------------------------------
  // What a thread holds
  // ---------------------------------------------------------------------

  function HeldLifecycle(t: Thread): Option<nat> {
    if t.lifecycle.HasL? then Some(t.lifecycle.file) else None
  }

  function HeldGate(t: Thread): Option<nat> {
    match t.access {
      case HasGate(g) => Some(g)
      case WantsState(g, _) => Some(g)
      case Unchecked(g, _) => Some(g)
      case Holding(g, _) => Some(g)
      case _ => None
    }
  }

  function HeldState(t: Thread): Option<nat> {
    match t.access {
      case Unchecked(_, f) => Some(f)
      case Holding(_, f) => Some(f)
      case Reading(f) => Some(f)
      case _ => None
    }
  }

  predicate InLifecycleQueue(t: Thread) {
    t.lifecycle.AdmittedL? || t.lifecycle.WantsL? || t.lifecycle.HasL?
  }

  predicate InStateQueue(t: Thread) {
    !t.access.NoAccess? && !t.access.QueuedS?
  }

  predicate Names(s: System, kind: Kind, file: nat) {
    kind in s.names && s.names[kind] == file
  }

  /** Every file the thread holds still has its name. */
  predicate Passes(s: System, t: Thread) {
    && (HeldLifecycle(t).Some? ==> Names(s, LifecycleLock, HeldLifecycle(t).value))
    && (HeldGate(t).Some? ==> Names(s, GateLock, HeldGate(t).value))
    && (HeldState(t).Some? ==> Names(s, StateLock, HeldState(t).value))
  }

  /** A state lease whose check passes now. */
  predicate Leased(s: System, t: Thread) {
    (t.access.Holding? || t.access.Reading?) && Passes(s, t)
  }

  // ---------------------------------------------------------------------
  // When a step can happen
  // ---------------------------------------------------------------------

  predicate LifecycleFree(s: System, t: nat, file: nat) {
    forall u :: 0 <= u < |s.threads| && u != t ==> HeldLifecycle(s.threads[u]) != Some(file)
  }

  predicate GateFree(s: System, t: nat, file: nat) {
    forall u :: 0 <= u < |s.threads| && u != t ==> HeldGate(s.threads[u]) != Some(file)
  }

  /** Readers share a state file; a writer needs it alone. */
  predicate StateFree(s: System, t: nat, file: nat, write: bool) {
    forall u :: 0 <= u < |s.threads| && u != t && (write || s.threads[u].write) ==> HeldState(s.threads[u]) != Some(file)
  }

  predicate LifecycleAdmits(s: System, t: nat)
    requires t < |s.threads|
  {
    forall u :: 0 <= u < |s.threads| && u != t && s.threads[u].process == s.threads[t].process ==>
      !InLifecycleQueue(s.threads[u])
  }

  /** The process-local queue: writers alone, and before readers that come later. */
  predicate StateAdmits(s: System, t: nat)
    requires t < |s.threads|
  {
    forall u :: 0 <= u < |s.threads| && u != t && s.threads[u].process == s.threads[t].process ==>
      !(if s.threads[t].write then InStateQueue(s.threads[u])
        else s.threads[u].write && !s.threads[u].access.NoAccess?)
  }

  predicate Enabled(s: System, e: Event) {
    if e.Unlink? then e.kind in s.names
    else if e.Create? then e.kind !in s.names
    else
      && e.t < |s.threads|
      && var t := s.threads[e.t];
        match e {
          case Request(_) => t.lifecycle.NoLifecycle? && t.access.NoAccess?
          case Admit(i) => t.lifecycle.QueuedL? && LifecycleAdmits(s, i)
          case OpenFile(_) => t.lifecycle.AdmittedL?
          case Lock(i) => t.lifecycle.WantsL? && LifecycleFree(s, i, t.lifecycle.file)
          case RequestState(_, _) => t.access.NoAccess? && (t.lifecycle.NoLifecycle? || t.lifecycle.HasL?)
          case AdmitState(i) => t.access.QueuedS? && StateAdmits(s, i)
          case OpenGate(_) => t.access.AdmittedS?
          case LockGate(i) => t.access.WantsGate? && GateFree(s, i, t.access.gate)
          case OpenState(_) => t.access.HasGate?
          case LockState(i) => t.access.WantsState? && StateFree(s, i, t.access.file, t.write)
          case Check(_) => t.access.Unchecked?
          case ReleaseState(_) => true
          case Release(_) => true
        }
  }

  /** Giving up the state part, or everything. */
  function Dropped(t: Thread, all: bool): Thread {
    t.(access := NoAccess, lifecycle := if all then NoLifecycle else t.lifecycle)
  }

  function Turn(s: System, e: Event): Thread
    requires !e.Unlink? && !e.Create? && Enabled(s, e)
  {
    var t := s.threads[e.t];
    match e {
      case Request(_) => t.(lifecycle := QueuedL)
      case Admit(_) => t.(lifecycle := AdmittedL)
      case OpenFile(_) =>
        if LifecycleLock in s.names then t.(lifecycle := WantsL(s.names[LifecycleLock])) else Dropped(t, true)
      case Lock(_) =>
        if Names(s, LifecycleLock, t.lifecycle.file) then t.(lifecycle := HasL(t.lifecycle.file)) else Dropped(t, true)
      case RequestState(_, write) => t.(access := QueuedS, write := write)
      case AdmitState(_) => t.(access := AdmittedS)
      case OpenGate(_) =>
        if GateLock in s.names then t.(access := WantsGate(s.names[GateLock])) else Dropped(t, false)
      case LockGate(_) =>
        if Names(s, GateLock, t.access.gate) then t.(access := HasGate(t.access.gate)) else Dropped(t, false)
      case OpenState(_) =>
        if StateLock in s.names then t.(access := WantsState(t.access.gate, s.names[StateLock])) else Dropped(t, false)
      case LockState(_) =>
        if Names(s, StateLock, t.access.file) then t.(access := Unchecked(t.access.gate, t.access.file))
        else Dropped(t, false)
      case Check(_) =>
        if !Passes(s, t) then Dropped(t, false)
        else if t.write then t.(access := Holding(t.access.gate, t.access.file))
        else t.(access := Reading(t.access.file))
      case ReleaseState(_) => Dropped(t, false)
      case _ => Dropped(t, true)
    }
  }

  function After(s: System, e: Event): System
    requires Enabled(s, e)
  {
    if e.Unlink? then s.(names := s.names - {e.kind})
    else if e.Create? then s.(names := s.names[e.kind := s.made], made := s.made + 1)
    else s.(threads := s.threads[e.t := Turn(s, e)])
  }

  ghost predicate Step(s: System, e: Event, r: System) {
    Enabled(s, e) && r == After(s, e)
  }

  predicate Start(s: System) {
    Numbered(s) &&
    forall t :: 0 <= t < |s.threads| ==> s.threads[t].lifecycle.NoLifecycle? && s.threads[t].access.NoAccess?
  }

  // ---------------------------------------------------------------------
  // Exclusion
  // ---------------------------------------------------------------------

  /** The locks of two threads are compatible, file by file. */
  predicate Compatible(a: Thread, b: Thread) {
    && (HeldLifecycle(a).Some? ==> HeldLifecycle(a) != HeldLifecycle(b))
    && (HeldGate(a).Some? ==> HeldGate(a) != HeldGate(b))
    && (HeldState(a).Some? && (a.write || b.write) ==> HeldState(a) != HeldState(b))
  }

  predicate Inv(s: System) {
    forall t, u :: 0 <= t < |s.threads| && 0 <= u < |s.threads| && t != u ==> Compatible(s.threads[t], s.threads[u])
  }

  lemma CompatibleStep(s: System, e: Event, u: nat)
    requires Inv(s) && !e.Unlink? && !e.Create? && Enabled(s, e) && u < |s.threads| && u != e.t
    ensures Compatible(Turn(s, e), s.threads[u]) && Compatible(s.threads[u], Turn(s, e))
  {
    assert Compatible(s.threads[e.t], s.threads[u]) && Compatible(s.threads[u], s.threads[e.t]);
  }

  lemma InvKept(s: System, e: Event)
    requires Inv(s) && Enabled(s, e)
    ensures Inv(After(s, e))
  {
    if !e.Unlink? && !e.Create? {
      forall t, u | 0 <= t < |s.threads| && 0 <= u < |s.threads| && t != u ensures Compatible(After(s, e).threads[t], After(s, e).threads[u]) {
        if t == e.t {
          CompatibleStep(s, e, u);
        } else if u == e.t {
          CompatibleStep(s, e, t);
        }
      }
    }
  }

  ghost predicate Run(start: System, states: seq<System>, events: seq<Event>) {
    Start(start) && Runs.Run(start, Step, states, events)
  }

  lemma InvAlways(start: System, states: seq<System>, events: seq<Event>, i: nat)
    requires Run(start, states, events) && i < |states|
    ensures Inv(states[i])
  {
    hide After, Enabled, Inv;
    forall s, e, r | Inv(s) && Step(s, e, r) ensures Inv(r) {
      InvKept(s, e);
    }
    assert Inv(start) by {
      StartInv(start);
    }
    Runs.Invariant(start, Step, Inv, states, events, i);
  }

  lemma StartInv(s: System)
    requires Start(s)
    ensures Inv(s)
  {}

  /** However lock files are unlinked and recreated, a write lease that passes its check
      is the only state lease, in any process, that does. */
  lemma WriteLeaseAlone(start: System, states: seq<System>, events: seq<Event>, i: nat, t: nat, u: nat)
    requires Run(start, states, events) && i < |states| && t < |states[i].threads| && u < |states[i].threads| && t != u
    requires Leased(states[i], states[i].threads[t]) && states[i].threads[t].write
    ensures !Leased(states[i], states[i].threads[u])
  {
    InvAlways(start, states, events, i);
    assert Compatible(states[i].threads[t], states[i].threads[u]);
  }

  lemma LifecycleAlone(start: System, states: seq<System>, events: seq<Event>, i: nat, t: nat, u: nat)
    requires Run(start, states, events) && i < |states| && t < |states[i].threads| && u < |states[i].threads| && t != u
    requires states[i].threads[t].lifecycle.HasL? && states[i].threads[u].lifecycle.HasL?
    ensures !(Passes(states[i], states[i].threads[t]) && Passes(states[i], states[i].threads[u]))
  {
    InvAlways(start, states, events, i);
    assert Compatible(states[i].threads[t], states[i].threads[u]);
  }

  // ---------------------------------------------------------------------
  // Files that lost their name
  // ---------------------------------------------------------------------

  function HeldOf(kind: Kind, t: Thread): Option<nat> {
    match kind
    case LifecycleLock => HeldLifecycle(t)
    case GateLock => HeldGate(t)
    case StateLock => HeldState(t)
  }

  predicate Numbered(s: System) {
    forall k <- s.names :: s.names[k] < s.made
  }

  /** A file that was made and no longer has its name. */
  predicate Lost(s: System, kind: Kind, file: nat) {
    Numbered(s) && file < s.made && !Names(s, kind, file)
  }

  /** No step gives a lost file its name back, and none grants it to anybody. */
  lemma LostStep(s: System, e: Event, kind: Kind, file: nat, t: nat)
    requires Enabled(s, e) && Lost(s, kind, file) && t < |s.threads|
    ensures Lost(After(s, e), kind, file) && |After(s, e).threads| == |s.threads|
    ensures HeldOf(kind, After(s, e).threads[t]) == Some(file) ==> HeldOf(kind, s.threads[t]) == Some(file)
  {
    if !e.Unlink? && !e.Create? && t == e.t {
      LostTurn(s, e, kind, file);
    }
  }

  lemma LostTurn(s: System, e: Event, kind: Kind, file: nat)
    requires !e.Unlink? && !e.Create? && Enabled(s, e) && Lost(s, kind, file)
    ensures HeldOf(kind, Turn(s, e)) == Some(file) ==> HeldOf(kind, s.threads[e.t]) == Some(file)
  {}

  /** A waiter that outlived an unlink is never granted its file, and a lease that holds
      one never passes its check again, whoever recreates the name and however often. */
  lemma StaleWaiterRefused(
    start: System, states: seq<System>, events: seq<Event>, i: nat, j: nat, kind: Kind, file: nat, t: nat)
    requires Run(start, states, events) && i <= j < |states| && t < |states[i].threads|
    requires file < states[i].made && !Names(states[i], kind, file)
    ensures !Names(states[j], kind, file) && t < |states[j].threads|
    ensures HeldOf(kind, states[j].threads[t]) == Some(file) ==>
      && HeldOf(kind, states[i].threads[t]) == Some(file)
      && !Passes(states[j], states[j].threads[t]) && !Leased(states[j], states[j].threads[t])
  {
    NumberedAlways(start, states, events, i);
    LostLater(start, states, events, i, j, kind, file, t);
  }

  lemma NumberedAlways(start: System, states: seq<System>, events: seq<Event>, i: nat)
    requires Run(start, states, events) && i < |states|
    ensures Numbered(states[i])
  {
    forall s, e, r | Numbered(s) && Step(s, e, r) ensures Numbered(r) {
    }
    Runs.Invariant(start, Step, Numbered, states, events, i);
  }

  lemma {:induction false} LostLater(
    start: System, states: seq<System>, events: seq<Event>, i: nat, j: nat, kind: Kind, file: nat, t: nat)
    requires Run(start, states, events) && i <= j < |states| && t < |states[i].threads| && Lost(states[i], kind, file)
    ensures Lost(states[j], kind, file) && |states[j].threads| == |states[i].threads|
    ensures HeldOf(kind, states[j].threads[t]) == Some(file) ==> HeldOf(kind, states[i].threads[t]) == Some(file)
    decreases j
  {
    if i < j {
      hide After, Enabled, Lost, HeldOf;
      LostLater(start, states, events, i, j - 1, kind, file, t);
      assert Step(states[j - 1], events[j - 1], states[j]);
      LostStep(states[j - 1], events[j - 1], kind, file, t);
    }
  }

  // ---------------------------------------------------------------------
  // No deadlock
  // ---------------------------------------------------------------------

  predicate Busy(t: Thread) {
    !t.lifecycle.NoLifecycle? || !t.access.NoAccess?
  }

  /** The state part only ever starts with the lifecycle part settled. */
  predicate Ordered(s: System) {
    forall t :: 0 <= t < |s.threads| && !s.threads[t].access.NoAccess? ==>
      s.threads[t].lifecycle.NoLifecycle? || s.threads[t].lifecycle.HasL?
  }

  /** The thread is at rest, holding what it asked for, or its next step can happen. */
  predicate CanMove(s: System, t: nat)
    requires t < |s.threads|
  {
    var th := s.threads[t];
    match th.access {
      case NoAccess =>
        match th.lifecycle {
          case NoLifecycle => false
          case QueuedL => LifecycleAdmits(s, t)
          case WantsL(file) => LifecycleFree(s, t, file)
          case _ => true
        }
      case QueuedS => StateAdmits(s, t)
      case WantsGate(gate) => GateFree(s, t, gate)
      case WantsState(_, file) => StateFree(s, t, file, th.write)
      case _ => true
    }
  }

  lemma HolderStage(t: Thread)
    requires HeldState(t).Some?
    ensures t.access.Unchecked? || t.access.Holding? || t.access.Reading?
  {}

  lemma StateMover(s: System, t: nat) returns (u: nat)
    requires t < |s.threads| && s.threads[t].access.WantsState?
    ensures u < |s.threads| && CanMove(s, u)
  {
    u := t;
    if !CanMove(s, t) {
      u :| 0 <= u < |s.threads| && u != t && HeldState(s.threads[u]) == Some(s.threads[t].access.file);
      assert HeldState(s.threads[u]).Some?;
      HolderStage(s.threads[u]);
    }
  }

  lemma GateMover(s: System, t: nat) returns (u: nat)
    requires t < |s.threads| && (s.threads[t].access.WantsGate? || HeldGate(s.threads[t]).Some?)
    ensures u < |s.threads| && CanMove(s, u)
  {
    u := t;
    if s.threads[t].access.WantsGate? && !CanMove(s, t) {
      u :| 0 <= u < |s.threads| && u != t && HeldGate(s.threads[u]) == Some(s.threads[t].access.gate);
    }
    if s.threads[u].access.WantsState? {
      u := StateMover(s, u);
    }
  }

  lemma InQueueMover(s: System, t: nat) returns (u: nat)
    requires t < |s.threads| && InStateQueue(s.threads[t])
    ensures u < |s.threads| && CanMove(s, u)
  {
    u := t;
    if s.threads[t].access.WantsGate? || HeldGate(s.threads[t]).Some? {
      u := GateMover(s, t);
    }
  }

  lemma QueuedMover(s: System, t: nat) returns (u: nat)
    requires t < |s.threads| && !s.threads[t].access.NoAccess?
    ensures u < |s.threads| && CanMove(s, u)
  {
    u := t;
    if InStateQueue(s.threads[t]) {
      u := InQueueMover(s, t);
    } else if !CanMove(s, t) {
      var th := s.threads[t];
      if th.write {
        u :| 0 <= u < |s.threads| && u != t && InStateQueue(s.threads[u]);
        u := InQueueMover(s, u);
      } else {
        // A reader waits behind a writer of its process, which holds or waits itself.
        var w :| 0 <= w < |s.threads| && w != t && s.threads[w].write && !s.threads[w].access.NoAccess?;
        u := WriterMover(s, w);
      }
    }
  }

  lemma WriterMover(s: System, w: nat) returns (u: nat)
    requires w < |s.threads| && s.threads[w].write && !s.threads[w].access.NoAccess?
    ensures u < |s.threads| && CanMove(s, u)
  {
    u := w;
    if InStateQueue(s.threads[w]) {
      u := InQueueMover(s, w);
    } else if !CanMove(s, w) {
      u :| 0 <= u < |s.threads| && u != w && InStateQueue(s.threads[u]);
      u := InQueueMover(s, u);
    }
  }

  lemma LifecycleMover(s: System, t: nat) returns (u: nat)
    requires Ordered(s) && t < |s.threads| && InLifecycleQueue(s.threads[t])
    ensures u < |s.threads| && CanMove(s, u)
  {
    u := t;
    if s.threads[t].access.NoAccess? && !CanMove(s, t) {
      u :| 0 <= u < |s.threads| && u != t && HeldLifecycle(s.threads[u]) == Some(s.threads[t].lifecycle.file);
    }
    if !s.threads[u].access.NoAccess? {
      u := QueuedMover(s, u);
    }
  }

  /** Lifecycle, then queue, gate and state: in this order no set of callers can all wait
      for each other. Whenever a call is under way, one can move or hold at rest. */
  lemma NoDeadlock(s: System, t: nat) returns (u: nat)
    requires Ordered(s) && t < |s.threads| && Busy(s.threads[t])
    ensures u < |s.threads| && CanMove(s, u)
  {
    u := t;
    if !s.threads[t].access.NoAccess? {
      u := QueuedMover(s, t);
    } else if InLifecycleQueue(s.threads[t]) {
      u := LifecycleMover(s, t);
    } else if !CanMove(s, t) {
      u :| 0 <= u < |s.threads| && u != t && InLifecycleQueue(s.threads[u]);
      u := LifecycleMover(s, u);
    }
  }

  lemma OrderedAlways(start: System, states: seq<System>, events: seq<Event>, i: nat)
    requires Run(start, states, events) && i < |states|
    ensures Ordered(states[i])
  {
    forall s, e, r | Ordered(s) && Step(s, e, r) ensures Ordered(r) {
    }
    Runs.Invariant(start, Step, Ordered, states, events, i);
  }

  lemma NeverDeadlocked(start: System, states: seq<System>, events: seq<Event>, i: nat, t: nat) returns (u: nat)
    requires Run(start, states, events) && i < |states| && t < |states[i].threads| && Busy(states[i].threads[t])
    ensures u < |states[i].threads| && CanMove(states[i], u)
  {
    OrderedAlways(start, states, events, i);
    u := NoDeadlock(states[i], t);
  }
}
