/**
 What the driver answers, stated exactly: who is served, on whose approval, which pool a
 checkout gets, when a pool is retired, and what becomes of a healthy connection.
 */
module PoolRules {
  import Runs
  import opened ConnectionPool

  // ---------------------------------------------------------------------
  // Approval comes from a passed account check
  // ---------------------------------------------------------------------

  /** While a pool is registered its context is alive, and its approval has not been revoked
      since its validation began: two of the conditions that the code checks are implied. */
  predicate Fresh(s: State)
    requires Typed(s)
  {
    && (forall p :: p in s.heap && Registered(s, p) ==> !s.heap[p].cancelled)
    && (forall o :: 0 <= o < |s.ops| ==> FreshOp(s, o))
  }

  predicate FreshOp(s: State, o: nat)
    requires Typed(s) && o < |s.ops|
  {
    s.ops[o].Validating? && Registered(s, s.ops[o].pool) ==> s.ops[o].generation == PoolOf(s, o).generation
  }

  /** Whether the validation that ends approves, said without the pool's bookkeeping. */
  predicate Passes(s: State, o: nat, accountOk: bool, contextOk: bool)
    requires Typed(s) && o < |s.ops| && s.ops[o].Validating?
  {
    accountOk && contextOk && Registered(s, s.ops[o].pool) && s.ops[o].conn !in s.closed
  }

  /** While a validation is in flight nothing that forgetting does can revoke approval. */
  lemma Unapproved(s: State, o: nat)
    requires Typed(s) && Approvals(s) && o < |s.ops| && s.ops[o].Validating?
    ensures var pool := PoolOf(s, o); !pool.approved && ForgetClosed(pool, s.cleaned) == pool.(live := pool.live - s.cleaned)
  {
    assert OpApproval(s, o) && PoolApproval(s, s.ops[o].pool);
  }

  lemma PassesExactly(s: State, o: nat, accountOk: bool, contextOk: bool)
    requires Typed(s) && Approvals(s) && Fresh(s) && o < |s.ops| && s.ops[o].Validating?
    ensures ValidationHolds(s, o, accountOk, contextOk) <==> Passes(s, o, accountOk, contextOk)
  {
    Unapproved(s, o);
    assert FreshOp(s, o);
  }

  lemma OperationFresh(s: State, e: Event)
    requires Inv(s) && Fresh(s) && OfOperation(e) && Enabled(s, e) && Typed(Core(s, e))
    ensures Fresh(Core(s, e))
  {
    hide Counts, Exclusive, AllVouched;
    CoreMoves(s, e);
    KeepsContext(s, e);
    hide NextOp, NextPool, Enabled, Core;
    MovedFresh(s, Core(s, e), e.op, NextOp(s, e), s.ops[e.op].pool, NextPool(s, e));
  }

  lemma MovedFresh(s: State, t: State, o: nat, op: Op, p: PoolRef, pool: Pool)
    requires Typed(s) && Typed(t) && Approvals(s) && Fresh(s)
    requires o < |s.ops| && !s.ops[o].Done? && s.ops[o].pool == p
    requires t.pools == s.pools && t.heap == s.heap[p := pool] && t.ops == s.ops[o := op]
    requires pool.id == s.heap[p].id && pool.cancelled == s.heap[p].cancelled
    requires !s.heap[p].approved ==> pool.generation == s.heap[p].generation
    requires op.Validating? ==> op.pool == p && op.generation == pool.generation
    ensures Fresh(t)
  {
    assert forall q :: q in s.heap ==> Registered(t, q) == Registered(s, q);
    hide Approvals;
    forall x | 0 <= x < |t.ops| ensures FreshOp(t, x) {
      assert FreshOp(s, x);
      if x != o && s.ops[x].Validating? {
        Unapproved(s, x);
      }
    }
  }

  /** An operation's event keeps its pool's name and context, and its generation as long as
      the pool is not approved. */
  lemma KeepsContext(s: State, e: Event)
    requires Typed(s) && Approvals(s) && OfOperation(e) && Enabled(s, e)
    ensures var pool, next := PoolOf(s, e.op), NextPool(s, e);
      && next.id == pool.id && next.cancelled == pool.cancelled
      && (!pool.approved ==> next.generation == pool.generation)
    ensures NextOp(s, e).Validating? ==> NextOp(s, e).pool == s.ops[e.op].pool && NextOp(s, e).generation == NextPool(s, e).generation
  {
    if e.PickIdle? {
      TakeIdleFacts(ForgetClosed(PoolOf(s, e.op), s.cleaned), s.closed, s.cleaned);
      TakeIdleGeneration(ForgetClosed(PoolOf(s, e.op), s.cleaned), s.closed, s.cleaned);
    }
  }

  lemma {:induction false} TakeIdleGeneration(p: Pool, closed: set<Conn>, cleaned: set<Conn>)
    ensures !p.approved ==> TakeIdle(p, closed, cleaned).0.generation == p.generation && !TakeIdle(p, closed, cleaned).0.approved
    decreases |p.idle|
  {
    if p.idle != [] && p.idle[|p.idle| - 1] in closed {
      var n := |p.idle| - 1;
      var rest := p.(idle := p.idle[..n]);
      TakeIdleGeneration(ForgetClosed(rest.(live := rest.live - {p.idle[n]}), cleaned), closed, cleaned);
    }
  }

  /** Registry events: what stays registered stays as it was, but for its users. */
  predicate KeepsRegistered(s: State, t: State)
    requires Typed(s) && Typed(t)
  {
    && |s.ops| <= |t.ops| && t.ops[..|s.ops|] == s.ops
    && (forall o :: |s.ops| <= o < |t.ops| ==> t.ops[o].AwaitSlot? || t.ops[o].Done?)
    && (forall p :: p in t.heap && Registered(t, p) ==>
          if p in s.heap then Registered(s, p) && t.heap[p].cancelled == s.heap[p].cancelled && t.heap[p].generation == s.heap[p].generation
          else !t.heap[p].cancelled)
  }

  lemma RegisteredFresh(s: State, t: State)
    requires Typed(s) && Typed(t) && Fresh(s) && KeepsRegistered(s, t)
    ensures Fresh(t)
  {
    forall o | 0 <= o < |t.ops| ensures FreshOp(t, o) {
      if o < |s.ops| {
        assert t.ops[o] == t.ops[..|s.ops|][o] && FreshOp(s, o);
      }
    }
  }

  lemma RetireKeeps(s: State, id: string)
    requires Typed(s)
    ensures Typed(Retire(s, id)) && KeepsRegistered(s, Retire(s, id)) && Retire(s, id).ops == s.ops
    ensures Retire(s, id).heap.Keys == s.heap.Keys && id !in Retire(s, id).pools
  {}

  lemma KeepsThen(s: State, t: State, u: State)
    requires Typed(s) && Typed(t) && Typed(u) && KeepsRegistered(s, t) && KeepsRegistered(t, u)
    requires t.ops == s.ops && t.heap.Keys == s.heap.Keys
    ensures KeepsRegistered(s, u)
  {}

  lemma JoinKeeps(s: State, p: PoolRef)
    requires Typed(s) && p in s.heap
    ensures Typed(Join(s, p)) && KeepsRegistered(s, Join(s, p))
  {}

  lemma RegisterKeeps(s: State, id: string, fingerprint: string, made: PoolRef)
    requires Typed(s) && made !in s.heap && id !in s.pools
    ensures Typed(Register(s, id, fingerprint, made)) && KeepsRegistered(s, Register(s, id, fingerprint, made))
  {}

  lemma RoomKeeps(s: State, id: string, victim: string)
    requires Typed(s)
    ensures var room := MakeRoom(Retire(s, id), victim);
      && Typed(room) && KeepsRegistered(s, room) && room.ops == s.ops && room.heap.Keys == s.heap.Keys && id !in room.pools
  {
    RetireKeeps(s, id);
    RetireKeeps(Retire(s, id), victim);
    hide Typed, KeepsRegistered;
    var room := MakeRoom(Retire(s, id), victim);
    if room != Retire(s, id) {
      KeepsThen(s, Retire(s, id), room);
    }
  }

  lemma BeginKeeps(s: State, id: string, fingerprint: string, made: PoolRef, victim: string)
    requires Typed(s) && made !in s.heap
    ensures var t := BeginCheckout(s, id, fingerprint, made, victim); Typed(t) && KeepsRegistered(s, t)
  {
    if s.shut {
      RefusedKeeps(s);
    } else if id in s.pools && !Stale(s, id, fingerprint) {
      JoinKeeps(s, s.pools[id]);
    } else {
      var room := MakeRoom(Retire(s, id), victim);
      RoomKeeps(s, id, victim);
      RoomFor(s, room, id, fingerprint, made);
    }
  }

  lemma RoomFor(s: State, room: State, id: string, fingerprint: string, made: PoolRef)
    requires Typed(s) && Typed(room) && KeepsRegistered(s, room) && room.ops == s.ops && room.heap.Keys == s.heap.Keys
    requires made !in s.heap && id !in room.pools
    ensures var t := room.(ops := room.ops + [Done]); Typed(t) && KeepsRegistered(s, t)
    ensures var t := Register(room, id, fingerprint, made); Typed(t) && KeepsRegistered(s, t)
  {
    RefusedKeeps(room);
    RegisterKeeps(room, id, fingerprint, made);
    hide KeepsRegistered, Register, Typed;
    KeepsThen(s, room, room.(ops := room.ops + [Done]));
    KeepsThen(s, room, Register(room, id, fingerprint, made));
  }

  lemma RefusedKeeps(s: State)
    requires Typed(s)
    ensures Typed(s.(ops := s.ops + [Done])) && KeepsRegistered(s, s.(ops := s.ops + [Done]))
  {}

  lemma RegistryFresh(s: State, e: Event)
    requires Typed(s) && Fresh(s) && !OfOperation(e) && Enabled(s, e) && Typed(Core(s, e))
    ensures Fresh(Core(s, e))
  {
    var t := Core(s, e);
    if e.Begin? {
      BeginKeeps(s, e.id, e.fingerprint, e.made, e.victim);
      RegisteredFresh(s, t);
    } else if e.TimerFires? || e.Invalidate? {
      RetireKeeps(s, e.id);
      if t != s {
        RegisteredFresh(s, t);
      }
    } else {
      assert t.ops == s.ops;
      forall o | 0 <= o < |t.ops| ensures FreshOp(t, o) {
        assert FreshOp(s, o);
      }
    }
  }

  lemma CoreFresh(s: State, e: Event)
    requires Inv(s) && Fresh(s) && Enabled(s, e) && Typed(Core(s, e))
    ensures Fresh(Core(s, e))
  {
    if OfOperation(e) {
      OperationFresh(s, e);
    } else {
      RegistryFresh(s, e);
    }
  }

  predicate Sound(s: State) {
    Inv(s) && Fresh(s)
  }

  lemma SoundKept(s: State, e: Event)
    requires Sound(s) && Enabled(s, e)
    ensures Sound(After(s, e))
  {
    InvKept(s, e);
    hide Inv;
    CoreCountsOnly(s, e);
    CoreFresh(s, e);
    SameFresh(Core(s, e), After(s, e));
  }

  lemma CoreCountsOnly(s: State, e: Event)
    requires Inv(s) && Enabled(s, e)
    ensures Typed(Core(s, e))
  {
    CoreCounts(s, e);
  }

  lemma SameFresh(s: State, t: State)
    requires Typed(s) && Fresh(s) && t == s.(vouched := t.vouched)
    ensures Typed(t) && Fresh(t)
  {
    forall o | 0 <= o < |t.ops| ensures FreshOp(t, o) {
      assert FreshOp(s, o);
    }
  }

  lemma SoundAlways(states: seq<State>, events: seq<Event>, i: nat)
    requires Run(states, events) && i < |states|
    ensures Inv(states[i]) && Fresh(states[i])
  {
    hide Inv, Fresh, After, Enabled;
    forall s, e, t | Sound(s) && Step(s, e, t) ensures Sound(t) {
      SoundKept(s, e);
    }
    assert Sound(EMPTY) by {
      InvAlways([EMPTY], [], 0);
      EmptyFresh();
    }
    Runs.Invariant(EMPTY, Step, Sound, states, events, i);
  }

  lemma EmptyFresh()
    ensures Typed(EMPTY) && Fresh(EMPTY)
  {}

  /** A validation that ends approves its pool and serves its caller exactly when the account
      check passed, neither the caller's context nor its connection has ended, and the pool
      is still registered; otherwise the pool is not approved and the caller, with its
      connection, is on the way out. */
  lemma ValidationDecides(states: seq<State>, events: seq<Event>, i: nat, o: nat, accountOk: bool, contextOk: bool)
    requires Run(states, events) && i < |events| && events[i] == FinishValidation(o, accountOk, contextOk)
    ensures Typed(states[i]) && o < |states[i].ops| == |states[i + 1].ops| && states[i].ops[o].Validating?
    ensures var s, t, p, conn := states[i], states[i + 1], states[i].ops[o].pool, states[i].ops[o].conn;
      && p in t.heap
      && (t.heap[p].approved <==> Passes(s, o, accountOk, contextOk))
      && t.ops[o] == if Passes(s, o, accountOk, contextOk) then Running(p, conn) else Returning(p, conn, false)
  {
    SoundAlways(states, events, i);
    hide Counts, Exclusive, AllVouched;
    var s, e := states[i], events[i];
    assert Step(s, e, states[i + 1]);
    CoreMoves(s, e);
    PassesExactly(s, o, accountOk, contextOk);
  }

  /** Only a passed account check ever grants approval. */
  lemma GrantsOnly(s: State, e: Event, p: PoolRef)
    requires Inv(s) && Fresh(s) && Enabled(s, e) && Grants(s, After(s, e), p)
    ensures e.FinishValidation? && s.ops[e.op].pool == p && Passes(s, e.op, e.accountOk, e.contextOk)
  {
    hide Counts, Exclusive, AllVouched;
    if OfOperation(e) {
      CoreMoves(s, e);
      assert PoolApproval(s, p);
      if Plain(e) {
        PlainGentle(s, e);
      } else if e.FinishValidation? {
        PassesExactly(s, e.op, e.accountOk, e.contextOk);
      }
    } else if e.Begin? {
      BeginRegistry(s, e.id, e.fingerprint, e.made, e.victim);
    }
  }

  /** In step i an account check of this pool passed, and approved it. */
  predicate Vetted(states: seq<State>, events: seq<Event>, i: nat, p: PoolRef) {
    && i < |events| < |states| && Typed(states[i])
    && events[i].FinishValidation? && events[i].op < |states[i].ops| && states[i].ops[events[i].op].Validating?
    && states[i].ops[events[i].op].pool == p
    && Passes(states[i], events[i].op, events[i].accountOk, events[i].contextOk)
  }

  /** Every approval goes back to a passed account check. */
  lemma {:induction false} ApprovedWasVetted(states: seq<State>, events: seq<Event>, j: nat, p: PoolRef) returns (i: nat)
    requires Run(states, events) && j < |states| && p in states[j].heap && states[j].heap[p].approved
    ensures i < j && Vetted(states, events, i, p)
    decreases j
  {
    hide Inv, Fresh, Core, Enabled, Passes;
    var s, e := states[j - 1], events[j - 1];
    SoundAlways(states, events, j - 1);
    assert Step(s, e, states[j]);
    if p in s.heap && s.heap[p].approved {
      i := ApprovedWasVetted(states, events, j - 1, p);
    } else {
      NewUnapproved(s, e, p);
      GrantsOnly(s, e, p);
      VettedHere(states, events, j - 1, p);
      i := j - 1;
    }
  }

  lemma VettedHere(states: seq<State>, events: seq<Event>, i: nat, p: PoolRef)
    requires i < |events| < |states| && Typed(states[i]) && Enabled(states[i], events[i])
    requires events[i].FinishValidation? && states[i].ops[events[i].op].pool == p
    requires Passes(states[i], events[i].op, events[i].accountOk, events[i].contextOk)
    ensures Vetted(states, events, i, p)
  {}

  lemma NewUnapproved(s: State, e: Event, p: PoolRef)
    requires Inv(s) && Enabled(s, e) && p in After(s, e).heap && After(s, e).heap[p].approved
    ensures p in s.heap
  {
    hide Counts, Exclusive, AllVouched;
    if OfOperation(e) {
      CoreMoves(s, e);
    } else if e.Begin? {
      BeginRegistry(s, e.id, e.fingerprint, e.made, e.victim);
    }
  }

  // ---------------------------------------------------------------------
  // Who is served
  // ---------------------------------------------------------------------

  /** An event of the registry begins at most an operation that neither waits nor runs. */
  lemma RegistryOps(s: State, e: Event, o: nat)
    requires Typed(s) && Enabled(s, e) && !OfOperation(e) && o < |Core(s, e).ops|
    ensures if o < |s.ops| then Core(s, e).ops[o] == s.ops[o] else Core(s, e).ops[o].AwaitSlot? || Core(s, e).ops[o].Done?
  {
    if e.Begin? {
      BeginKeeps(s, e.id, e.fingerprint, e.made, e.victim);
      assert o < |s.ops| ==> Core(s, e).ops[..|s.ops|][o] == Core(s, e).ops[o];
    }
  }

  lemma NextWaits(s: State, e: Event)
    requires Typed(s) && OfOperation(e) && Enabled(s, e) && NextOp(s, e).AwaitVerdict?
    ensures AsksAndWaits(s, e, e.op, NextOp(s, e))
  {}

  predicate AsksAndWaits(s: State, e: Event, o: nat, op: Op)
    requires o < |s.ops|
  {
    && e.AskApproval? && e.op == o && op.AwaitVerdict? && !s.ops[o].Done? && s.ops[o].pool == op.pool
    && op.pool in s.heap && s.heap[op.pool].validation == Some(op.verdict)
  }

  /** How an operation comes to wait for a verdict. */
  lemma AwaitStep(s: State, e: Event, o: nat)
    requires Inv(s) && Enabled(s, e) && o < |After(s, e).ops| && After(s, e).ops[o].AwaitVerdict?
    ensures o < |s.ops|
    ensures s.ops[o] == After(s, e).ops[o] || AsksAndWaits(s, e, o, After(s, e).ops[o])
  {
    if OfOperation(e) {
      CoreMoves(s, e);
      if o == e.op {
        NextWaits(s, e);
      }
    } else {
      RegistryOps(s, e, o);
    }
    hide Core, NextOp, NextPool, Enabled, Counts, Exclusive, Approvals, AllVouched;
  }

  lemma DecidedStep(s: State, e: Event, v: Verdict)
    requires Inv(s) && Fresh(s) && Enabled(s, e) && Decided(After(s, e), v, true) && !Decided(s, v, true)
    ensures e.FinishValidation? && s.ops[e.op].verdict == v && Passes(s, e.op, e.accountOk, e.contextOk)
  {
    hide Counts, Exclusive, AllVouched;
    if OfOperation(e) {
      if e.FinishValidation? {
        PassesExactly(s, e.op, e.accountOk, e.contextOk);
      }
    } else if e.Begin? {
      BeginRegistry(s, e.id, e.fingerprint, e.made, e.victim);
    }
  }

  /** A waiter and the runner of the verdict it waits for are in the same pool. */
  lemma WaiterAndRunner(s: State, o: nat, x: nat)
    requires Approvals(s) && o < |s.ops| && x < |s.ops| && s.ops[o].AwaitVerdict? && s.ops[x].Validating?
    requires s.ops[x].verdict == s.ops[o].verdict
    ensures s.ops[x].pool == s.ops[o].pool
  {
    assert OpApproval(s, o) && OpApproval(s, x);
    assert PoolApproval(s, s.ops[x].pool) && PoolApproval(s, s.ops[o].pool);
  }

  lemma UndecidedInFlight(s: State, p: PoolRef, v: Verdict)
    requires Approvals(s) && p in s.heap && s.heap[p].validation == Some(v)
    ensures !Decided(s, v, true)
  {
    assert PoolApproval(s, p);
  }

  /** The positive verdict that an operation waits for came from a passed check of its pool. */
  lemma {:induction false} VerdictWasVetted(states: seq<State>, events: seq<Event>, j: nat, o: nat) returns (i: nat)
    requires Run(states, events) && j < |states| && o < |states[j].ops|
    requires states[j].ops[o].AwaitVerdict? && Decided(states[j], states[j].ops[o].verdict, true)
    ensures i < j && Vetted(states, events, i, states[j].ops[o].pool)
    decreases j
  {
    hide Inv, Fresh, Core, Enabled, Passes, Decided;
    var s, e, op := states[j - 1], events[j - 1], states[j].ops[o];
    SoundAlways(states, events, j - 1);
    assert Step(s, e, states[j]);
    AwaitStep(s, e, o);
    if Decided(s, op.verdict, true) {
      if s.ops[o] == op {
        i := VerdictWasVetted(states, events, j - 1, o);
      } else {
        InvParts(s);
        UndecidedInFlight(s, op.pool, op.verdict);
        assert false;
      }
    } else {
      i := j - 1;
      DecidedStep(s, e, op.verdict);
      InvParts(s);
      FinishIsNoAsk(s, e);
      WaiterAndRunner(s, o, e.op);
      VettedHere(states, events, i, op.pool);
    }
  }

  lemma InvParts(s: State)
    requires Inv(s)
    ensures Typed(s) && Approvals(s)
  {}

  lemma FinishIsNoAsk(s: State, e: Event)
    requires Typed(s) && Enabled(s, e) && e.FinishValidation?
    ensures e.op < |s.ops| && s.ops[e.op].Validating?
  {}

  /** How an operation comes to be served: by an approval that stands, by its own check, or by
      the verdict of the check it waited for. */
  predicate Served(s: State, e: Event, o: nat, p: PoolRef)
    requires Typed(s) && Enabled(s, e) && o < |s.ops|
  {
    && OfOperation(e) && e.op == o && s.ops[o].pool == p && p in s.heap
    && match e {
      case AskApproval(_, _) => s.heap[p].approved && Alive(s, p) != {}
      case FinishValidation(_, accountOk, contextOk) => Passes(s, o, accountOk, contextOk)
      case HearVerdict(_) => Decided(s, s.ops[o].verdict, true)
      case _ => false
    }
  }

  lemma RunningStep(s: State, e: Event, o: nat)
    requires Inv(s) && Fresh(s) && Enabled(s, e) && o < |After(s, e).ops| && After(s, e).ops[o].Running?
    ensures o < |s.ops|
    ensures s.ops[o] == After(s, e).ops[o] || Served(s, e, o, After(s, e).ops[o].pool)
  {
    hide Counts, Exclusive, AllVouched;
    if OfOperation(e) {
      CoreMoves(s, e);
      if e.AskApproval? {
        AskPool(PoolOf(s, e.op), s.ops[e.op].conn, s.cleaned);
      } else if e.FinishValidation? {
        PassesExactly(s, e.op, e.accountOk, e.contextOk);
      }
    } else {
      RegistryOps(s, e, o);
    }
  }

  /** Nobody is served without a passed account check: the approval behind every running
      operation, inherited, awaited or its own, was granted by one of its pool. */
  lemma {:induction false} ServedWasVetted(states: seq<State>, events: seq<Event>, j: nat, o: nat) returns (i: nat)
    requires Run(states, events) && j < |states| && o < |states[j].ops| && states[j].ops[o].Running?
    ensures i < j && Vetted(states, events, i, states[j].ops[o].pool)
    decreases j
  {
    hide Inv, Fresh, Core, Enabled, Passes, Decided;
    var s, e, p := states[j - 1], events[j - 1], states[j].ops[o].pool;
    SoundAlways(states, events, j - 1);
    assert Step(s, e, states[j]);
    RunningStep(s, e, o);
    if s.ops[o] == states[j].ops[o] {
      i := ServedWasVetted(states, events, j - 1, o);
    } else if e.AskApproval? {
      i := ApprovedWasVetted(states, events, j - 1, p);
    } else if e.FinishValidation? {
      i := j - 1;
      VettedHere(states, events, i, p);
    } else {
      WasWaiting(s, e);
      i := VerdictWasVetted(states, events, j - 1, o);
    }
  }

  lemma WasWaiting(s: State, e: Event)
    requires Typed(s) && Enabled(s, e) && e.HearVerdict?
    ensures s.ops[e.op].AwaitVerdict?
  {}

  lemma VerdictKept(s: State, e: Event, v: Verdict, outcome: bool)
    requires Inv(s) && Enabled(s, e) && Decided(s, v, outcome)
    ensures Decided(After(s, e), v, outcome)
  {
    hide Counts, Exclusive, AllVouched;
    if OfOperation(e) {
      if e.FinishValidation? {
        assert OpApproval(s, e.op) && PoolApproval(s, s.ops[e.op].pool);
      }
    } else if e.Begin? {
      BeginRegistry(s, e.id, e.fingerprint, e.made, e.victim);
    }
  }

  lemma FoundStep(s: State, e: Event)
    requires Inv(s) && Fresh(s) && Enabled(s, e) && e.FinishValidation?
    ensures e.op < |s.ops| && s.ops[e.op].Validating?
    ensures Decided(After(s, e), s.ops[e.op].verdict, Passes(s, e.op, e.accountOk, e.contextOk))
  {
    hide Counts, Exclusive, AllVouched;
    PassesExactly(s, e.op, e.accountOk, e.contextOk);
  }

  lemma {:induction false} VerdictLasts(states: seq<State>, events: seq<Event>, k: nat, i: nat) returns (v: Verdict, passed: bool)
    requires Run(states, events) && k < i < |states| && events[k].FinishValidation?
    ensures Typed(states[k]) && events[k].op < |states[k].ops| && states[k].ops[events[k].op].Validating?
    ensures v == states[k].ops[events[k].op].verdict
    ensures passed == Passes(states[k], events[k].op, events[k].accountOk, events[k].contextOk) && Decided(states[i], v, passed)
    decreases i
  {
    hide Inv, Fresh, Core, Enabled, Passes, Decided;
    SoundAlways(states, events, k);
    SoundAlways(states, events, i - 1);
    assert Step(states[k], events[k], states[k + 1]);
    assert Step(states[i - 1], events[i - 1], states[i]);
    if k + 1 == i {
      FoundStep(states[k], events[k]);
      v, passed := states[k].ops[events[k].op].verdict, Passes(states[k], events[k].op, events[k].accountOk, events[k].contextOk);
    } else {
      v, passed := VerdictLasts(states, events, k, i - 1);
      VerdictKept(states[i - 1], events[i - 1], v, passed);
    }
  }

  lemma HearStep(s: State, e: Event, outcome: bool)
    requires Typed(s) && Enabled(s, e) && e.HearVerdict? && Decided(s, s.ops[e.op].verdict, outcome)
    ensures var p, c, t := s.ops[e.op].pool, s.ops[e.op].conn, After(s, e);
      e.op < |t.ops| && t.ops[e.op] == if outcome then Running(p, c) else Returning(p, c, false)
  {
    CoreMoves(s, e);
  }

  /** Whoever waited for a check hears what it found: it is served if the check passed, and
      sent away if it did not. */
  lemma HeardWhatWasFound(states: seq<State>, events: seq<Event>, k: nat, i: nat, o: nat)
    requires Run(states, events) && k < i < |events| && events[k].FinishValidation? && events[i] == HearVerdict(o)
    ensures Typed(states[k]) && events[k].op < |states[k].ops| && states[k].ops[events[k].op].Validating?
    ensures o < |states[i].ops| && states[i].ops[o].AwaitVerdict? && o < |states[i + 1].ops|
    ensures states[i].ops[o].verdict == states[k].ops[events[k].op].verdict ==>
      var p, c := states[i].ops[o].pool, states[i].ops[o].conn;
      states[i + 1].ops[o] ==
        if Passes(states[k], events[k].op, events[k].accountOk, events[k].contextOk) then Running(p, c) else Returning(p, c, false)
  {
    hide Inv, Core, Passes, Decided;
    var v, passed := VerdictLasts(states, events, k, i);
    InvAlways(states, events, i);
    assert Step(states[i], events[i], states[i + 1]);
    if states[i].ops[o].verdict == v {
      HearStep(states[i], events[i], passed);
    } else {
      HearMoves(states[i], events[i]);
    }
  }

  lemma HearMoves(s: State, e: Event)
    requires Typed(s) && Enabled(s, e) && e.HearVerdict?
    ensures |After(s, e).ops| == |s.ops|
  {
    CoreMoves(s, e);
  }

  /** An operation that asks for approval is served at once exactly when its pool is approved
      and has a connection alive; otherwise it waits for the check in flight, or runs one. */
  lemma AskExactly(states: seq<State>, events: seq<Event>, i: nat, o: nat, v: Verdict)
    requires Run(states, events) && i < |events| && events[i] == AskApproval(o, v)
    ensures Typed(states[i]) && o < |states[i].ops| == |states[i + 1].ops| && states[i].ops[o].Connected?
    ensures var s, p, c := states[i], states[i].ops[o].pool, states[i].ops[o].conn;
      var t, op := states[i + 1], states[i + 1].ops[o];
      && p in t.heap && c in t.heap[p].live
      && if s.heap[p].approved && Alive(s, p) != {} then op == Running(p, c) && t.heap[p].approved
         else if s.heap[p].validation.Some? then op == AwaitVerdict(p, c, s.heap[p].validation.value)
         else op == Validating(p, c, v, t.heap[p].generation) && t.heap[p].validation == Some(v)
  {
    InvAlways(states, events, i);
    hide Counts, Exclusive, AllVouched;
    var s, e := states[i], events[i];
    assert Step(s, e, states[i + 1]);
    CoreMoves(s, e);
    assert PoolApproval(s, s.ops[o].pool);
  }
}
