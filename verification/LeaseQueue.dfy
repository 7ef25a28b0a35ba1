/**
 The process-local reader/writer queue: waiting writers go before new readers,
 and a broadcast channel, closed and replaced on every signal, wakes the blocked.

 Every event is one section under the queue's mutex. Channels are numbered in the
 order they are made, so a channel is closed exactly when a later one is current.
 */
module LeaseQueue {
  import Runs

  datatype Queue = Queue(readers: int, writer: bool, waiting: int, changed: nat)

  /** What one pass of the acquire loop decides. */
  datatype Outcome = Admitted | Refused | MustWait(channel: nat)

  predicate Admissible(q: Queue, write: bool) {
    !q.writer && if write then q.readers == 0 else q.waiting == 0
  }

  function Signal(q: Queue): Queue {
    q.(changed := q.changed + 1)
  }

  /** One pass of the loop for a caller already counted as waiting. */
  function Pass(q: Queue, write: bool, cancelled: bool): (Queue, Outcome) {
    if cancelled then (if write then Signal(q.(waiting := q.waiting - 1)) else q, Refused)
    else if Admissible(q, write) then
      (if write then q.(waiting := q.waiting - 1, writer := true) else q.(readers := q.readers + 1), Admitted)
    else (q, MustWait(q.changed))
  }

  function Arrived(q: Queue, write: bool): Queue {
    if write then q.(waiting := q.waiting + 1) else q
  }

  function Left(q: Queue, write: bool): Queue {
    Signal(if write then q.(writer := false) else q.(readers := q.readers - 1))
  }

  // ---------------------------------------------------------------------
  // All interleavings
  // ---------------------------------------------------------------------

  datatype Thread = Outside | Blocked(write: bool, channel: nat) | Holding(write: bool)

  datatype State = State(q: Queue, threads: seq<Thread>)

  datatype Event =
    | Acquire(t: nat, write: bool, cancelled: bool)
    | Wake(t: nat, cancelled: bool)
    | Release(t: nat)

  /** A blocked caller runs again when its channel is closed or its context ends. */
  predicate Enabled(s: State, e: Event) {
    && e.t < |s.threads|
    && match e {
      case Acquire(t, _, _) => s.threads[t].Outside?
      case Wake(t, cancelled) => s.threads[t].Blocked? && (s.threads[t].channel < s.q.changed || cancelled)
      case Release(t) => s.threads[t].Holding?
    }
  }

  function Settled(s: State, t: nat, write: bool, pass: (Queue, Outcome)): State
    requires t < |s.threads|
  {
    State(pass.0, s.threads[t := match pass.1 {
      case Admitted => Holding(write)
      case Refused => Outside
      case MustWait(channel) => Blocked(write, channel)
    }])
  }

  function After(s: State, e: Event): State
    requires Enabled(s, e)
  {
    match e {
      case Acquire(t, write, cancelled) => Settled(s, t, write, Pass(Arrived(s.q, write), write, cancelled))
      case Wake(t, cancelled) =>
        var write := s.threads[t].write;
        Settled(s, t, write, Pass(s.q, write, cancelled))
      case Release(t) => State(Left(s.q, s.threads[t].write), s.threads[t := Outside])
    }
  }

  ghost predicate Step(s: State, e: Event, t: State) {
    Enabled(s, e) && t == After(s, e)
  }

  function Start(callers: nat): State {
    State(Queue(0, false, 0, 0), seq(callers, _ => Outside))
  }

  datatype Role = Reader | Writer | WaitingReader | WaitingWriter

  predicate Plays(t: Thread, role: Role) {
    match role {
      case Reader => t == Holding(false)
      case Writer => t == Holding(true)
      case WaitingReader => t.Blocked? && !t.write
      case WaitingWriter => t.Blocked? && t.write
    }
  }

  function Count(threads: seq<Thread>, role: Role): nat {
    if threads == [] then 0
    else Count(threads[..|threads| - 1], role) + if Plays(threads[|threads| - 1], role) then 1 else 0
  }

  lemma {:induction false} CountMoves(threads: seq<Thread>, t: nat, now: Thread, role: Role)
    requires t < |threads|
    ensures Count(threads[t := now], role) ==
      Count(threads, role) - (if Plays(threads[t], role) then 1 else 0) + (if Plays(now, role) then 1 else 0)
    decreases |threads|
  {
    var front, after := threads[..|threads| - 1], threads[t := now];
    if t == |front| {
      assert after[..|threads| - 1] == front;
    } else {
      assert after[..|threads| - 1] == front[t := now];
      CountMoves(front, t, now, role);
    }
  }

  lemma {:induction false} CountNone(threads: seq<Thread>, role: Role)
    ensures Count(threads, role) == 0 <==> forall t :: 0 <= t < |threads| ==> !Plays(threads[t], role)
    decreases |threads|
  {
    if threads != [] {
      CountNone(threads[..|threads| - 1], role);
    }
  }

  predicate Counted(s: State) {
    && s.q.readers == Count(s.threads, Reader)
    && (if s.q.writer then 1 else 0) == Count(s.threads, Writer)
    && s.q.waiting == Count(s.threads, WaitingWriter)
    && (s.q.writer ==> s.q.readers == 0)
  }

  /** A blocked caller whose channel is still open could not be admitted now. */
  predicate NoLostWakeup(s: State) {
    forall t :: 0 <= t < |s.threads| && s.threads[t].Blocked? ==>
      && s.threads[t].channel <= s.q.changed
      && (s.threads[t].channel == s.q.changed ==> !Admissible(s.q, s.threads[t].write))
  }

  predicate Inv(s: State) {
    Counted(s) && NoLostWakeup(s)
  }

  lemma CountedKept(s: State, e: Event)
    requires Counted(s) && Enabled(s, e)
    ensures Counted(After(s, e))
  {
    var now := After(s, e).threads[e.t];
    assert After(s, e).threads == s.threads[e.t := now];
    CountMoves(s.threads, e.t, now, Reader);
    CountMoves(s.threads, e.t, now, Writer);
    CountMoves(s.threads, e.t, now, WaitingWriter);
    CountNone(s.threads, Writer);
  }

  lemma InvKept(s: State, e: Event)
    requires Inv(s) && Enabled(s, e)
    ensures Inv(After(s, e))
  {
    CountedKept(s, e);
    var r := After(s, e);
    CountNone(s.threads, WaitingWriter);
    forall t | 0 <= t < |r.threads| && r.threads[t].Blocked?
      ensures r.threads[t].channel <= r.q.changed
      ensures r.threads[t].channel == r.q.changed ==> !Admissible(r.q, r.threads[t].write)
    {
      if t != e.t {
        assert s.threads[t] == r.threads[t];
      }
    }
  }

  ghost predicate Run(callers: nat, states: seq<State>, events: seq<Event>) {
    Runs.Run(Start(callers), Step, states, events)
  }

  lemma InvAlways(callers: nat, states: seq<State>, events: seq<Event>, i: nat)
    requires Run(callers, states, events) && i < |states|
    ensures Inv(states[i])
  {
    forall s, e, t | Inv(s) && Step(s, e, t) ensures Inv(t) {
      InvKept(s, e);
    }
    CountNone(Start(callers).threads, Reader);
    CountNone(Start(callers).threads, Writer);
    CountNone(Start(callers).threads, WaitingWriter);
    Runs.Invariant(Start(callers), Step, Inv, states, events, i);
  }

  /** Never two writers, never a writer with a reader, and `waiting` is the number
      of queued writers. */
  lemma Exclusion(callers: nat, states: seq<State>, events: seq<Event>, i: nat)
    requires Run(callers, states, events) && i < |states|
    ensures Count(states[i].threads, Writer) <= 1
    ensures Count(states[i].threads, Writer) == 1 ==> Count(states[i].threads, Reader) == 0
    ensures states[i].q.waiting == Count(states[i].threads, WaitingWriter)
    ensures states[i].q.readers == Count(states[i].threads, Reader)
  {
    InvAlways(callers, states, events, i);
  }

  /** No step adds a reader while a writer waits, before or after it. */
  lemma WritersFirst(callers: nat, states: seq<State>, events: seq<Event>, i: nat)
    requires Run(callers, states, events) && i < |events|
    requires Count(states[i + 1].threads, Reader) > Count(states[i].threads, Reader)
    ensures Count(states[i].threads, WaitingWriter) == 0 && Count(states[i + 1].threads, WaitingWriter) == 0
  {
    InvAlways(callers, states, events, i);
    InvAlways(callers, states, events, i + 1);
    var s, e := states[i], events[i];
    assert Step(s, e, states[i + 1]);
    CountMoves(s.threads, e.t, states[i + 1].threads[e.t], Reader);
  }

  /** Who may enter, said of the callers alone: a writer when nobody holds the queue, a
      reader when no writer holds it or waits for it. */
  predicate MayEnter(threads: seq<Thread>, write: bool) {
    Count(threads, Writer) == 0 && Count(threads, if write then Reader else WaitingWriter) == 0
  }

  lemma MayEnterNow(s: State, write: bool)
    requires Inv(s)
    ensures MayEnter(s.threads, write) <==> Admissible(s.q, write)
  {}

  /** A caller that arrives or runs again is admitted exactly when it may enter, leaves if
      its context ended, and waits otherwise. In particular readers share. */
  lemma AdmittedExactly(callers: nat, states: seq<State>, events: seq<Event>, i: nat, t: nat, write: bool)
    requires Run(callers, states, events) && i < |events| && !events[i].Release? && events[i].t == t < |states[i].threads|
    requires write == if events[i].Acquire? then events[i].write else states[i].threads[t].write
    ensures |states[i + 1].threads| == |states[i].threads|
    ensures
      if events[i].cancelled then states[i + 1].threads[t] == Outside
      else if MayEnter(states[i].threads, write) then states[i + 1].threads[t] == Holding(write)
      else states[i + 1].threads[t] == Blocked(write, states[i + 1].q.changed)
  {
    InvAlways(callers, states, events, i);
    assert Step(states[i], events[i], states[i + 1]);
    MayEnterNow(states[i], write);
  }

  /** A blocked caller that may enter has been woken and is admitted: no wakeup is lost. */
  lemma NoWakeupLost(callers: nat, states: seq<State>, events: seq<Event>, i: nat, t: nat)
    requires Run(callers, states, events) && i < |states| && t < |states[i].threads|
    requires states[i].threads[t].Blocked? && MayEnter(states[i].threads, states[i].threads[t].write)
    ensures Enabled(states[i], Wake(t, false))
    ensures After(states[i], Wake(t, false)).threads[t] == Holding(states[i].threads[t].write)
  {
    InvAlways(callers, states, events, i);
    MayEnterNow(states[i], states[i].threads[t].write);
  }

  /** The queue never stalls: when nobody holds it and somebody is blocked, some
      blocked caller has been woken and is admitted by its next pass. */
  lemma NeverStalls(callers: nat, states: seq<State>, events: seq<Event>, i: nat) returns (t: nat)
    requires Run(callers, states, events) && i < |states|
    requires exists x :: 0 <= x < |states[i].threads| && states[i].threads[x].Blocked?
    requires forall x :: 0 <= x < |states[i].threads| ==> !states[i].threads[x].Holding?
    ensures t < |states[i].threads| && states[i].threads[t].Blocked?
    ensures Enabled(states[i], Wake(t, false))
    ensures After(states[i], Wake(t, false)).threads[t].Holding?
  {
    var s := states[i];
    InvAlways(callers, states, events, i);
    CountNone(s.threads, Reader);
    CountNone(s.threads, Writer);
    CountNone(s.threads, WaitingWriter);
    if s.q.waiting > 0 {
      t :| 0 <= t < |s.threads| && Plays(s.threads[t], WaitingWriter);
    } else {
      t :| 0 <= t < |s.threads| && s.threads[t].Blocked?;
    }
    NoWakeupLost(callers, states, events, i, t);
  }

  // ---------------------------------------------------------------------
  // The queue object
  // ---------------------------------------------------------------------

  class RwQueue {
    var readers: int
    var writer: bool
    var waiting: int
    var changed: nat

    function Snapshot(): Queue
      reads this
    {
      Queue(readers, writer, waiting, changed)
    }

    constructor ()
      ensures Snapshot() == Queue(0, false, 0, 0)
    {
      readers, writer, waiting, changed := 0, false, 0, 0;
    }

    method Notify()
      modifies this`changed
      ensures Snapshot() == Signal(old(Snapshot()))
    {
      changed := changed + 1;
    }

    /** One pass of the acquire loop, between locking the mutex and leaving it. */
    method TryOnce(write: bool, cancelled: bool) returns (outcome: Outcome)
      modifies this
      ensures (Snapshot(), outcome) == Pass(old(Snapshot()), write, cancelled)
    {
      if cancelled {
        if write {
          waiting := waiting - 1;
          Notify();
        }
        return Refused;
      }
      if !writer && ((write && readers == 0) || (!write && waiting == 0)) {
        if write {
          waiting := waiting - 1;
          writer := true;
        } else {
          readers := readers + 1;
        }
        return Admitted;
      }
      return MustWait(changed);
    }

    method Acquire(write: bool, cancelled: bool) returns (outcome: Outcome)
      modifies this
      ensures (Snapshot(), outcome) == Pass(Arrived(old(Snapshot()), write), write, cancelled)
    {
      if write {
        waiting := waiting + 1;
      }
      outcome := TryOnce(write, cancelled);
    }

    /** The release function: only its first call has an effect. */
    method Release(ticket: Ticket)
      modifies this, ticket
      ensures ticket.spent
      ensures Snapshot() == if old(ticket.spent) then old(Snapshot()) else Left(old(Snapshot()), ticket.write)
    {
      if !ticket.spent {
        ticket.spent := true;
        if ticket.write {
          writer := false;
        } else {
          readers := readers - 1;
        }
        Notify();
      }
    }
  }

  class Ticket {
    const write: bool
    var spent: bool

    constructor (write: bool)
      ensures this.write == write && !spent
    {
      this.write, spent := write, false;
    }
  }
}
