/**
 What becomes of every connection that was dialled, and why no counter of a pool is
 ever taken below zero.
 */
module PoolConservation {
  import Runs
  import opened ConnectionPool

  // ---------------------------------------------------------------------
  // Counters
  // ---------------------------------------------------------------------

  lemma {:induction false} SomebodyCounts(ops: seq<Op>, o: nat, role: Role, p: PoolRef)
    requires o < |ops| && Plays(ops[o], role, p)
    ensures Count(ops, role, p) > 0
    decreases |ops|
  {
    if o < |ops| - 1 {
      SomebodyCounts(ops[..|ops| - 1], o, role, p);
    }
  }

  /** An operation that is about to leave its pool is counted there, and one that is about
      to give a slot back holds one: neither step ever has to be refused. */
  lemma CountersSuffice(states: seq<State>, events: seq<Event>, i: nat, o: nat)
    requires Run(states, events) && i < |states| && o < |states[i].ops|
    ensures Typed(states[i])
    ensures states[i].ops[o].Leaving? ==> Enabled(states[i], Leave(o))
    ensures states[i].ops[o].HoldsSlot? ==> Enabled(states[i], GiveSlotBack(o))
  {
    InvAlways(states, events, i);
    hide Counts, Exclusive, Approvals, AllVouched, Enabled, Run;
    if states[i].ops[o].Leaving? || states[i].ops[o].HoldsSlot? {
      Counted(states[i], o);
      GuardsHold(states[i], o);
    }
  }

  lemma GuardsHold(s: State, o: nat)
    requires Typed(s) && o < |s.ops|
    ensures s.ops[o].Leaving? && PoolOf(s, o).users > 0 ==> Enabled(s, Leave(o))
    ensures s.ops[o].HoldsSlot? && PoolOf(s, o).tokens > 0 ==> Enabled(s, GiveSlotBack(o))
  {}

  lemma Counted(s: State, o: nat)
    requires Typed(s) && Counts(s) && o < |s.ops| && (s.ops[o].Leaving? || s.ops[o].HoldsSlot?)
    ensures s.ops[o].Leaving? ==> PoolOf(s, o).users > 0
    ensures s.ops[o].HoldsSlot? ==> PoolOf(s, o).tokens > 0
  {
    hide Count;
    var p := s.ops[o].pool;
    SomebodyCounts(s.ops, o, if s.ops[o].Leaving? then User else SlotHolder, p);
    assert CountsOf(s.heap[p], s.ops, p);
  }

  // ---------------------------------------------------------------------
  // Connections
  // ---------------------------------------------------------------------

  /** Idle in a registered pool. */
  predicate IdleIn(s: State, c: Conn) {
    exists p <- s.heap :: c in s.heap[p].idle && Registered(s, p)
  }

  predicate HeldBySome(s: State, c: Conn) {
    exists o :: 0 <= o < |s.ops| && Held(s.ops[o]) == Some(c)
  }

  predicate Placed(s: State, c: Conn) {
    IdleIn(s, c) || HeldBySome(s, c) || c in s.closed
  }

  /** The step retired a pool with this connection idle, and so gave it to the retirer,
      who closes it. */
  predicate HandedOver(s: State, t: State, c: Conn) {
    exists p <- s.heap :: c in s.heap[p].idle && Registered(s, p) && IsRetired(t, p)
  }

  lemma {:induction false} TakeIdleDrops(p: Pool, closed: set<Conn>, cleaned: set<Conn>, c: Conn)
    requires c in p.idle
    ensures var (q, found) := TakeIdle(p, closed, cleaned); c in q.idle || found == Some(c) || c in closed
    decreases |p.idle|
  {
    var n := |p.idle| - 1;
    assert p.idle == p.idle[..n] + [p.idle[n]];
    if p.idle[n] in closed && c != p.idle[n] {
      var rest := p.(idle := p.idle[..n]);
      TakeIdleDrops(ForgetClosed(rest.(live := rest.live - {p.idle[n]}), cleaned), closed, cleaned, c);
    }
  }

  /** An idle connection of the operation's pool stays idle, is taken or was closed. */
  lemma IdleStep(s: State, e: Event, c: Conn)
    requires Typed(s) && OfOperation(e) && Enabled(s, e) && c in PoolOf(s, e.op).idle
    ensures c in NextPool(s, e).idle || Held(NextOp(s, e)) == Some(c) || c in s.closed
  {
    if e.PickIdle? {
      TakeIdleDrops(ForgetClosed(PoolOf(s, e.op), s.cleaned), s.closed, s.cleaned, c);
    }
  }

  /** A connection that the operation held is still held, given back, or closed. */
  lemma HeldStep(s: State, e: Event, c: Conn)
    requires Typed(s) && OfOperation(e) && Enabled(s, e) && Held(s.ops[e.op]) == Some(c)
    ensures
      || Held(NextOp(s, e)) == Some(c) || c in Core(s, e).closed
      || (c in NextPool(s, e).idle && Registered(s, s.ops[e.op].pool))
  {
    if e.Leave? && PutsBack(s, e.op) {
      assert NextPool(s, e).idle == PoolOf(s, e.op).idle + [c];
    }
  }

  /** One operation moved on and its pool changed; registration is as it was. */
  predicate MovedOn(s: State, t: State, o: nat, op: Op, p: PoolRef, pool: Pool) {
    && o < |s.ops| && p in s.heap && t.pools == s.pools && t.heap == s.heap[p := pool]
    && t.ops == s.ops[o := op] && s.closed <= t.closed && pool.id == s.heap[p].id
  }

  lemma MovedState(s: State, e: Event)
    requires Inv(s) && OfOperation(e) && Enabled(s, e)
    ensures MovedOn(s, Core(s, e), e.op, NextOp(s, e), s.ops[e.op].pool, NextPool(s, e))
  {
    hide Counts, Exclusive, Approvals, AllVouched;
    CoreMoves(s, e);
    ElsewhereHome(s, e, Move(s, e.op, NextOp(s, e), s.ops[e.op].pool, NextPool(s, e)));
    if e.PickIdle? {
      TakeIdleFacts(ForgetClosed(PoolOf(s, e.op), s.cleaned), s.closed, s.cleaned);
    }
  }

  lemma IdlePlaces(s: State, t: State, o: nat, op: Op, p: PoolRef, pool: Pool, c: Conn)
    requires MovedOn(s, t, o, op, p, pool) && IdleIn(s, c)
    requires c in s.heap[p].idle ==> c in pool.idle || Held(op) == Some(c) || c in s.closed
    ensures Placed(t, c)
  {
    var q :| q in s.heap && c in s.heap[q].idle && Registered(s, q);
    assert Registered(t, q);
    if q == p && Held(op) == Some(c) {
      assert Held(t.ops[o]) == Some(c);
    }
  }

  lemma HeldPlaces(s: State, t: State, o: nat, op: Op, p: PoolRef, pool: Pool, c: Conn)
    requires MovedOn(s, t, o, op, p, pool) && HeldBySome(s, c)
    requires Held(s.ops[o]) == Some(c) ==>
      Held(op) == Some(c) || c in t.closed || (c in pool.idle && Registered(s, p))
    ensures Placed(t, c)
  {
    var x :| 0 <= x < |s.ops| && Held(s.ops[x]) == Some(c);
    if x != o {
      assert Held(t.ops[x]) == Some(c);
    } else if Held(op) == Some(c) {
      assert Held(t.ops[o]) == Some(c);
    } else if c !in t.closed {
      assert Registered(t, p);
    }
  }

  lemma OperationPlaces(s: State, e: Event, c: Conn)
    requires Inv(s) && OfOperation(e) && Enabled(s, e) && Placed(s, c)
    ensures Placed(Core(s, e), c)
  {
    MovedState(s, e);
    var p := s.ops[e.op].pool;
    if c in s.heap[p].idle {
      IdleStep(s, e, c);
    }
    if Held(s.ops[e.op]) == Some(c) {
      HeldStep(s, e, c);
    }
    hide NextPool, NextOp, Core, IdleIn, HeldBySome, Counts, Exclusive, Approvals, AllVouched, Enabled;
    if IdleIn(s, c) {
      IdlePlaces(s, Core(s, e), e.op, NextOp(s, e), p, NextPool(s, e), c);
    } else if HeldBySome(s, c) {
      HeldPlaces(s, Core(s, e), e.op, NextOp(s, e), p, NextPool(s, e), c);
    }
  }

  // ---------------------------------------------------------------------
  // The registry
  // ---------------------------------------------------------------------

  /** Idle lists change only by retiring their pool; retired pools stay so. */
  predicate KeepsIdle(s: State, t: State) {
    && |s.ops| <= |t.ops| && t.ops[..|s.ops|] == s.ops && t.closed == s.closed
    && (forall p <- s.heap :: p in t.heap && (t.heap[p].idle == s.heap[p].idle || IsRetired(t, p)))
    && (forall p <- s.heap :: IsRetired(s, p) ==> IsRetired(t, p))
  }

  lemma KeepsIdleThen(s: State, t: State, u: State)
    requires KeepsIdle(s, t) && KeepsIdle(t, u)
    ensures KeepsIdle(s, u)
  {
    assert u.ops[..|s.ops|] == u.ops[..|t.ops|][..|s.ops|];
  }

  lemma RetireKeepsIdle(s: State, id: string)
    requires Typed(s)
    ensures KeepsIdle(s, Retire(s, id)) && Typed(Retire(s, id)) && id !in Retire(s, id).pools
    ensures Retire(s, id).heap.Keys == s.heap.Keys
  {}

  lemma JoinKeepsIdle(s: State, p: PoolRef)
    requires p in s.heap
    ensures KeepsIdle(s, Join(s, p))
  {}

  lemma RefusedKeepsIdle(s: State)
    ensures KeepsIdle(s, s.(ops := s.ops + [Done]))
  {}

  lemma RegisterKeepsIdle(s: State, id: string, fingerprint: string, made: PoolRef)
    requires made !in s.heap && id !in s.pools
    ensures KeepsIdle(s, Register(s, id, fingerprint, made))
  {}

  lemma BeginKeepsIdle(s: State, id: string, fingerprint: string, made: PoolRef, victim: string)
    requires Typed(s) && made !in s.heap
    ensures KeepsIdle(s, BeginCheckout(s, id, fingerprint, made, victim))
  {
    if s.shut {
      RefusedKeepsIdle(s);
    } else if id in s.pools && !Stale(s, id, fingerprint) {
      JoinKeepsIdle(s, s.pools[id]);
    } else {
      hide KeepsIdle, Register, Retire;
      var gone := Retire(s, id);
      RetireKeepsIdle(s, id);
      RetireKeepsIdle(gone, victim);
      var room := MakeRoom(gone, victim);
      if room != gone {
        KeepsIdleThen(s, gone, room);
      }
      RefusedKeepsIdle(room);
      if |room.pools| < MAX_POOLS {
        RegisterKeepsIdle(room, id, fingerprint, made);
      }
      KeepsIdleThen(s, room, BeginCheckout(s, id, fingerprint, made, victim));
    }
  }

  lemma RegistryKeepsIdle(s: State, e: Event)
    requires Typed(s) && !OfOperation(e) && !e.ConnCloses? && !e.ConnCleaned? && Enabled(s, e)
    ensures KeepsIdle(s, Core(s, e))
  {
    match e {
      case Begin(id, fingerprint, made, victim) => BeginKeepsIdle(s, id, fingerprint, made, victim);
      case TimerFires(id, _) => RetireKeepsIdle(s, id);
      case Invalidate(id) => RetireKeepsIdle(s, id);
      case Shutdown =>
    }
  }

  lemma KeptPlaces(s: State, t: State, c: Conn)
    requires KeepsIdle(s, t) && Placed(s, c)
    ensures Placed(t, c) || HandedOver(s, t, c)
  {
    if HeldBySome(s, c) {
      var o :| 0 <= o < |s.ops| && Held(s.ops[o]) == Some(c);
      assert t.ops[o] == t.ops[..|s.ops|][o];
    }
  }

  lemma SamePlaces(s: State, t: State, c: Conn)
    requires t.heap == s.heap && t.pools == s.pools && t.ops == s.ops && s.closed <= t.closed && Placed(s, c)
    ensures Placed(t, c)
  {
    if HeldBySome(s, c) {
      var o :| 0 <= o < |s.ops| && Held(s.ops[o]) == Some(c);
      assert Held(t.ops[o]) == Some(c);
    }
  }

  // ---------------------------------------------------------------------
  // Every run
  // ---------------------------------------------------------------------

  lemma CorePlaces(s: State, e: Event, c: Conn)
    requires Inv(s) && Enabled(s, e)
    ensures Placed(s, c) ==> Placed(Core(s, e), c) || HandedOver(s, Core(s, e), c)
    ensures c in Core(s, e).home && c !in s.home ==> Placed(Core(s, e), c)
  {
    if Placed(s, c) {
      if OfOperation(e) {
        OperationPlaces(s, e, c);
      } else if e.ConnCloses? || e.ConnCleaned? {
        SamePlaces(s, Core(s, e), c);
      } else {
        RegistryKeepsIdle(s, e);
        KeptPlaces(s, Core(s, e), c);
      }
    } else if c in Core(s, e).home && c !in s.home {
      Dialled(s, e, c);
    }
  }

  lemma Dialled(s: State, e: Event, c: Conn)
    requires Inv(s) && Enabled(s, e) && c in Core(s, e).home && c !in s.home
    ensures HeldBySome(Core(s, e), c)
  {
    hide Counts, Exclusive, Approvals, AllVouched;
    if OfOperation(e) {
      var m := Move(s, e.op, NextOp(s, e), s.ops[e.op].pool, NextPool(s, e));
      ElsewhereHome(s, e, m);
      CoreMoves(s, e);
      assert e.DialSucceeds? && e.conn == c;
      assert Held(Core(s, e).ops[e.op]) == Some(c);
    } else if !e.ConnCloses? && !e.ConnCleaned? {
      RegistryQuiet(s, e);
      assert false;
    }
  }

  /** No connection is lost: at every moment each one that was ever dialled is idle in a
      registered pool, held by an operation or closed, or some earlier step retired its
      pool and gave it to the retirer. */
  lemma {:induction false} NoConnectionLost(states: seq<State>, events: seq<Event>, i: nat, c: Conn)
    requires Run(states, events) && i < |states| && c in states[i].home
    ensures Placed(states[i], c) || exists k :: 0 <= k < i && HandedOver(states[k], states[k + 1], c)
    decreases i
  {
    hide Inv, Placed, HandedOver, Core, Enabled, Typed;
    if i > 0 {
      var s, t := states[i - 1], states[i];
      InvAlways(states, events, i - 1);
      assert Step(s, events[i - 1], t);
      CorePlaces(s, events[i - 1], c);
      SameState(s, events[i - 1], c);
      if c in s.home {
        NoConnectionLost(states, events, i - 1, c);
        if Placed(s, c) && !Placed(t, c) {
          assert HandedOver(states[i - 1], states[i - 1 + 1], c);
        }
      }
    }
  }

  /** The history variable has no part in it. */
  lemma SameState(s: State, e: Event, c: Conn)
    requires Typed(s) && Enabled(s, e)
    ensures After(s, e).home == Core(s, e).home
    ensures Placed(After(s, e), c) == Placed(Core(s, e), c)
    ensures HandedOver(s, After(s, e), c) == HandedOver(s, Core(s, e), c)
  {
    hide Core, Enabled;
    var t, u := Core(s, e), After(s, e);
    assert forall p <- t.heap :: Registered(t, p) == Registered(u, p);
    if HeldBySome(t, c) {
      var o :| 0 <= o < |t.ops| && Held(t.ops[o]) == Some(c);
      assert Held(u.ops[o]) == Some(c);
    }
    if HeldBySome(u, c) {
      var o :| 0 <= o < |u.ops| && Held(u.ops[o]) == Some(c);
      assert Held(t.ops[o]) == Some(c);
    }
  }
}
