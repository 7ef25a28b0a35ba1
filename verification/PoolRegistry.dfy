/**
 Which pool a checkout gets, when a pool is retired, and what becomes of the connection of
 an operation that is over.
 */
module PoolRegistry {
  import Runs
  import opened ConnectionPool
  import PoolConservation

  // ---------------------------------------------------------------------
  // Checkouts
  // ---------------------------------------------------------------------

  /** No pool is on file, no more can be registered, and all of them are in use. */
  predicate Crowded(s: State, id: string)
    requires Typed(s)
  {
    id !in s.pools && |s.pools| >= 16 && forall x :: x in s.pools ==> s.heap[s.pools[x]].users > 0
  }

  /** What a checkout that is admitted finds: the pool on file if its credentials match, with
      one more user, and otherwise a new pool for these credentials. */
  predicate Admitted(s: State, t: State, id: string, fingerprint: string, made: PoolRef)
    requires Typed(s)
  {
    && id in t.pools
    && var p := t.pools[id];
      if id in s.pools && s.heap[s.pools[id]].fingerprint == fingerprint then
        && p == s.pools[id] && t.pools == s.pools
        && t.heap == s.heap[p := s.heap[p].(users := s.heap[p].users + 1)]
      else
        p == made && made in t.heap && t.heap[p] == Pool(id, fingerprint, 0, [], 1, false, {}, false, 0, None)
  }

  lemma RoomExactly(s: State, id: string, victim: string)
    requires Typed(s) && |s.pools| <= MAX_POOLS && ((exists v :: Evictable(s, v)) ==> Evictable(s, victim))
    ensures var room := MakeRoom(Retire(s, id), victim);
      && Typed(room) && (|room.pools| >= MAX_POOLS <==> Crowded(s, id))
      && (Crowded(s, id) ==> room == s)
  {
    RetireTyped(s, id);
    RetireTyped(Retire(s, id), victim);
    if id in s.pools {
      MapWithout(s.pools, id);
    } else if |s.pools| >= MAX_POOLS && Evictable(s, victim) {
      MapWithout(s.pools, victim);
    } else if |s.pools| >= MAX_POOLS {
      assert forall x :: x in s.pools ==> !Evictable(s, x);
    }
  }

  lemma RegisterAdmits(s: State, room: State, id: string, fingerprint: string, made: PoolRef)
    requires Typed(s) && !(id in s.pools && s.heap[s.pools[id]].fingerprint == fingerprint)
    ensures var t := Register(room, id, fingerprint, made);
      Admitted(s, t, id, fingerprint, made) && t.ops == room.ops + [AwaitSlot(t.pools[id])]
  {}

  lemma JoinAdmits(s: State, id: string, fingerprint: string, made: PoolRef)
    requires Typed(s) && id in s.pools && !Stale(s, id, fingerprint)
    ensures var t := Join(s, s.pools[id]); Admitted(s, t, id, fingerprint, made) && t.ops == s.ops + [AwaitSlot(t.pools[id])]
  {}

  lemma Checkout(s: State, id: string, fingerprint: string, made: PoolRef, victim: string)
    requires Typed(s) && |s.pools| <= MAX_POOLS && ((exists v :: Evictable(s, v)) ==> Evictable(s, victim))
    ensures var t := BeginCheckout(s, id, fingerprint, made, victim);
      if s.shut || Crowded(s, id) then
        t.ops == s.ops + [Done] && t.pools == s.pools && t.heap == s.heap
      else
        Admitted(s, t, id, fingerprint, made) && t.ops == s.ops + [AwaitSlot(t.pools[id])]
  {
    if s.shut {
    } else if id in s.pools && !Stale(s, id, fingerprint) {
      JoinAdmits(s, id, fingerprint, made);
    } else {
      var room := MakeRoom(Retire(s, id), victim);
      RoomExactly(s, id, victim);
      RegisterAdmits(s, room, id, fingerprint, made);
      SameOps(s, id, victim);
      hide Crowded, Admitted, MakeRoom, Retire, Register, Typed, Stale, Evictable;
    }
  }

  lemma SameOps(s: State, id: string, victim: string)
    requires Typed(s)
    ensures MakeRoom(Retire(s, id), victim).ops == s.ops
  {}

  /** A checkout is refused exactly when the driver is closed, or it would need a new pool and
      sixteen are registered that are all in use; then nothing changes. Otherwise it waits
      for a slot of the pool that is on file for these credentials from then on. */
  lemma CheckoutExactly(
    states: seq<State>, events: seq<Event>, i: nat, id: string, fingerprint: string, made: PoolRef, victim: string)
    requires Run(states, events) && i < |events| && events[i] == Begin(id, fingerprint, made, victim)
    ensures Typed(states[i])
    ensures var s, t := states[i], states[i + 1];
      if s.shut || Crowded(s, id) then
        t.ops == s.ops + [Done] && t.pools == s.pools && t.heap == s.heap
      else
        Admitted(s, t, id, fingerprint, made) && t.ops == s.ops + [AwaitSlot(t.pools[id])]
  {
    InvAlways(states, events, i);
    hide Exclusive, Approvals, AllVouched, CountsOf, BeginCheckout;
    assert Step(states[i], events[i], states[i + 1]);
    Checkout(states[i], id, fingerprint, made, victim);
  }

  // ---------------------------------------------------------------------
  // Retirements
  // ---------------------------------------------------------------------

  /** Everything that retires a registered pool: the driver closes, its profile is
      invalidated or asks with other credentials, or it has no user and either its timer
      fires or a full registry makes room for another profile. */
  predicate Retires(s: State, e: Event, p: PoolRef)
    requires Typed(s) && p in s.heap
  {
    var pool := s.heap[p];
    match e {
      case Shutdown => true
      case Invalidate(id) => id == pool.id
      case TimerFires(id, timed) => id == pool.id && timed == p && pool.users == 0
      case Begin(id, fingerprint, _, victim) =>
        !s.shut &&
        if id == pool.id then fingerprint != pool.fingerprint
        else id !in s.pools && |s.pools| >= 16 && victim == pool.id && pool.users == 0
      case _ => false
    }
  }

  lemma RetireOnly(s: State, id: string, p: PoolRef)
    requires Typed(s) && p in s.heap && Registered(s, p)
    ensures var t := Retire(s, id);
      && p in t.heap && t.heap[p].id == s.heap[p].id && t.heap[p].users == s.heap[p].users
      && (Registered(t, p) <==> id != s.heap[p].id)
      && (!Registered(t, p) ==> t.heap[p] == Retired(s.heap[p]))
      && (id !in s.pools ==> t == s) && (id in s.pools ==> id !in t.pools)
  {}

  lemma RetiredStays(s: State, id: string, p: PoolRef)
    requires Typed(s) && p in s.heap && !Registered(s, p)
    ensures var t := Retire(s, id); p in t.heap && !Registered(t, p) && t.heap[p] == s.heap[p]
  {}

  lemma JoinRegistered(s: State, q: PoolRef, p: PoolRef)
    requires q in s.heap && p in s.heap
    ensures var t := Join(s, q); p in t.heap && (Registered(t, p) <==> Registered(s, p)) && (p != q ==> t.heap[p] == s.heap[p])
  {}

  lemma RegisterRegistered(s: State, id: string, fingerprint: string, made: PoolRef, p: PoolRef)
    requires Typed(s) && made !in s.heap && id !in s.pools && p in s.heap
    ensures var t := Register(s, id, fingerprint, made);
      p in t.heap && (Registered(s, p) ==> Registered(t, p)) && (!Registered(s, p) ==> s.heap[p].id == id || !Registered(t, p))
      && (p != made ==> t.heap[p] == s.heap[p]) && (!Registered(s, p) ==> !Registered(t, p))
  {}

  lemma BeginRetires(s: State, id: string, fingerprint: string, made: PoolRef, victim: string, p: PoolRef)
    requires Typed(s) && |s.pools| <= MAX_POOLS && Enabled(s, Begin(id, fingerprint, made, victim)) && p in s.heap && Registered(s, p)
    ensures var t := BeginCheckout(s, id, fingerprint, made, victim);
      && p in t.heap
      && if Retires(s, Begin(id, fingerprint, made, victim), p) then !Registered(t, p) && t.heap[p] == Retired(s.heap[p])
         else Registered(t, p)
  {
    if s.shut {
    } else if id in s.pools && !Stale(s, id, fingerprint) {
      JoinRegistered(s, s.pools[id], p);
    } else {
      var gone := Retire(s, id);
      RetireTyped(s, id);
      RetireOnly(s, id, p);
      var room := MakeRoom(gone, victim);
      if id in s.pools {
        MapWithout(s.pools, id);
      }
      if Registered(gone, p) {
        RetireTyped(gone, victim);
        RetireOnly(gone, victim, p);
      } else {
        RetiredStays(gone, victim, p);
      }
      RoomExactly(s, id, victim);
      if |room.pools| < MAX_POOLS {
        RoomWithout(s, id, victim);
        RegisterRegistered(room, id, fingerprint, made, p);
      }
    }
  }

  lemma RoomWithout(s: State, id: string, victim: string)
    requires Typed(s)
    ensures var room := MakeRoom(Retire(s, id), victim); id !in room.pools && room.heap.Keys == s.heap.Keys
  {
    RetireTyped(s, id);
    RetireTyped(Retire(s, id), victim);
  }

  /** A registered pool is retired in exactly those cases: no idle timer and no eviction ever
      retires a pool in use. Retiring revokes its approval, ends its context and takes its
      idle connections away. */
  lemma RetiredExactly(states: seq<State>, events: seq<Event>, i: nat, p: PoolRef)
    requires Run(states, events) && i < |events| && p in states[i].heap && Registered(states[i], p)
    ensures Typed(states[i]) && p in states[i + 1].heap
    ensures if Retires(states[i], events[i], p) then
        !Registered(states[i + 1], p) && states[i + 1].heap[p] == Retired(states[i].heap[p])
      else Registered(states[i + 1], p)
  {
    InvAlways(states, events, i);
    hide Exclusive, Approvals, AllVouched, CountsOf;
    var s, e := states[i], events[i];
    assert Step(s, e, states[i + 1]);
    if OfOperation(e) {
      OperationBalanced(s, e);
      CoreMoves(s, e);
      NoRetirement(s, e, p);
    } else if e.Begin? {
      BeginRetires(s, e.id, e.fingerprint, e.made, e.victim, p);
    } else if e.TimerFires? || e.Invalidate? {
      RetireOnly(s, e.id, p);
    }
  }

  lemma NoRetirement(s: State, e: Event, p: PoolRef)
    requires Typed(s) && p in s.heap && OfOperation(e)
    ensures !Retires(s, e, p)
  {}

  // ---------------------------------------------------------------------
  // Connections after use
  // ---------------------------------------------------------------------

  /** The operation moved on and its pool changed; nothing else did, but for what is closed. */
  predicate Moved(s: State, t: State, o: nat, op: Op, p: PoolRef, pool: Pool) {
    && o < |s.ops| && t.ops == s.ops[o := op] && t.heap == s.heap[p := pool]
    && t.pools == s.pools && t.shut == s.shut && s.closed <= t.closed
  }

  lemma OperationMoves(s: State, e: Event)
    requires Typed(s) && OfOperation(e) && Enabled(s, e)
    ensures Moved(s, After(s, e), e.op, NextOp(s, e), s.ops[e.op].pool, NextPool(s, e))
    ensures !e.Discard? && !e.CloseLate? ==> After(s, e).closed == s.closed
  {
    CoreMoves(s, e);
  }

  lemma FinishStep(s: State, o: nat, healthy: bool)
    requires Inv(s) && o < |s.ops| && s.ops[o].Running?
    ensures Typed(s) && Enabled(s, Finish(o, healthy))
    ensures var t, p := After(s, Finish(o, healthy)), s.ops[o].pool;
      && Inv(t) && p in s.heap && Moved(s, t, o, Returning(p, s.ops[o].conn, healthy), p, s.heap[p]) && t.closed == s.closed
  {
    InvKept(s, Finish(o, healthy));
    hide Counts, Exclusive, Approvals, AllVouched, After, Moved;
    OperationMoves(s, Finish(o, healthy));
  }

  lemma ReturnStep(s: State, o: nat)
    requires Inv(s) && o < |s.ops| && s.ops[o].Returning?
    ensures Typed(s) && Enabled(s, Return(o))
    ensures var t, p, c := After(s, Return(o)), s.ops[o].pool, s.ops[o].conn;
      && Inv(t) && p in s.heap && p in t.heap && t.closed == s.closed
      && if s.ops[o].healthy && c !in s.closed then Moved(s, t, o, Leaving(p, Some(c), true), p, s.heap[p])
         else Moved(s, t, o, Discarding(p, c), p, t.heap[p]) && c !in t.heap[p].live
  {
    InvKept(s, Return(o));
    hide Counts, Exclusive, Approvals, AllVouched, After;
    OperationMoves(s, Return(o));
  }

  lemma LeaveStep(s: State, o: nat)
    requires Inv(s) && o < |s.ops| && s.ops[o].Leaving? && s.ops[o].kept.Some? && s.ops[o].acquired
    ensures Typed(s) && Enabled(s, Leave(o))
    ensures var t, p, c := After(s, Leave(o)), s.ops[o].pool, s.ops[o].kept.value;
      && Inv(t) && p in s.heap && p in t.heap && t.closed == s.closed
      && if Registered(s, p) then Moved(s, t, o, HoldsSlot(p), p, t.heap[p]) && t.heap[p].idle == s.heap[p].idle + [c]
         else Moved(s, t, o, ClosingLate(p, c), p, t.heap[p]) && t.heap[p].idle == s.heap[p].idle
  {
    PoolConservation.Counted(s, o);
    InvKept(s, Leave(o));
    assert s.shut ==> s.pools == map[];
    hide Counts, Exclusive, Approvals, AllVouched, After;
    OperationMoves(s, Leave(o));
    assert s.heap[s.ops[o].pool].idle + [] == s.heap[s.ops[o].pool].idle;
  }

  lemma PickLast(s: State, x: nat, idle: seq<Conn>, c: Conn)
    requires Typed(s) && x < |s.ops| && s.ops[x].HaveSlot? && c !in s.closed && s.heap[s.ops[x].pool].idle == idle + [c]
    ensures Enabled(s, PickIdle(x)) && After(s, PickIdle(x)).ops == s.ops[x := Connected(s.ops[x].pool, c)]
  {
    hide After;
    OperationMoves(s, PickIdle(x));
  }

  /** A healthy connection that is still open goes back to its pool, if that is still
      registered, and the next operation of the pool with a slot takes just that one. */
  lemma HealthyReused(s: State, o: nat, x: nat) returns (a: State, b: State, t: State, u: State)
    requires Inv(s) && o < |s.ops| && s.ops[o].Running? && s.ops[o].pool in s.heap && Registered(s, s.ops[o].pool)
    requires s.ops[o].conn !in s.closed && x < |s.ops| && s.ops[x] == HaveSlot(s.ops[o].pool)
    ensures Step(s, Finish(o, true), a) && Step(a, Return(o), b) && Step(b, Leave(o), t) && Step(t, PickIdle(x), u)
    ensures var p, c := s.ops[o].pool, s.ops[o].conn;
      && p in t.heap && t.heap[p].idle == s.heap[p].idle + [c] && t.closed == s.closed
      && u.ops == t.ops[x := Connected(p, c)]
  {
    FinishStep(s, o, true);
    a := After(s, Finish(o, true));
    ReturnStep(a, o);
    b := After(a, Return(o));
    LeaveStep(b, o);
    t := After(b, Leave(o));
    InvTyped(t);
    hide Inv, After, Enabled, Typed;
    PickLast(t, x, s.heap[s.ops[o].pool].idle, s.ops[o].conn);
    u := After(t, PickIdle(x));
  }

  lemma InvTyped(s: State)
    requires Inv(s)
    ensures Typed(s)
  {}

  /** A connection that is not healthy leaves the pool's live set before it is closed, and is
      never given back. */
  lemma UnhealthyClosed(s: State, o: nat) returns (a: State, b: State, t: State)
    requires Inv(s) && o < |s.ops| && s.ops[o].Running?
    ensures Step(s, Finish(o, false), a) && Step(a, Return(o), b) && Step(b, Discard(o), t)
    ensures var p, c := s.ops[o].pool, s.ops[o].conn;
      && p in b.heap && c !in b.heap[p].live && c in t.closed
      && t.ops == s.ops[o := Leaving(p, None, true)]
  {
    FinishStep(s, o, false);
    a := After(s, Finish(o, false));
    ReturnStep(a, o);
    b := After(a, Return(o));
    InvTyped(b);
    hide Inv, After, Enabled, Typed;
    DiscardStep(b, o);
    t := After(b, Discard(o));
    assert s.ops[o := Returning(s.ops[o].pool, s.ops[o].conn, false)][o := Discarding(s.ops[o].pool, s.ops[o].conn)][o := Leaving(s.ops[o].pool, None, true)]
      == s.ops[o := Leaving(s.ops[o].pool, None, true)];
  }

  lemma DiscardStep(s: State, o: nat)
    requires Typed(s) && o < |s.ops| && s.ops[o].Discarding?
    ensures Enabled(s, Discard(o))
    ensures var t := After(s, Discard(o)); t.ops == s.ops[o := Leaving(s.ops[o].pool, None, true)] && s.ops[o].conn in t.closed
  {
    CoreMoves(s, Discard(o));
  }
}
