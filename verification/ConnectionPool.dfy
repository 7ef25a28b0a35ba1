/**
 The driver's connection pools as a state machine. Every event is one critical
 section under the driver's mutex, one channel operation, or one act of the
 environment (a dial that ends, a socket that closes, a timer that fires); any
 number of operations interleave at these points.
 */
module ConnectionPool {
  import Runs

  datatype Option<T> = None | Some(value: T)

  type Conn = int
  type PoolRef = int
  type Verdict = int  // one account validation in flight or decided

  const MAX_CONNECTIONS := 8
  const MAX_POOLS := 16

  /** A pool object. `tokens` counts the slots in use; `cancelled` is its context. */
  datatype Pool = Pool(
    id: string, fingerprint: string, tokens: nat, idle: seq<Conn>, users: nat, cancelled: bool,
    live: set<Conn>, approved: bool, generation: nat, validation: Option<Verdict>)

  /** Where an operation stands between its checkout and the end of its release. */
  datatype Op =
    | AwaitSlot(pool: PoolRef)
    | HaveSlot(pool: PoolRef)
    | Dialling(pool: PoolRef)
    | Connected(pool: PoolRef, conn: Conn)
    | Validating(pool: PoolRef, conn: Conn, verdict: Verdict, generation: nat)
    | AwaitVerdict(pool: PoolRef, conn: Conn, verdict: Verdict)
    | Running(pool: PoolRef, conn: Conn)                              // checkout returned no error
    | Returning(pool: PoolRef, conn: Conn, healthy: bool)
    | Discarding(pool: PoolRef, conn: Conn)
    | Leaving(pool: PoolRef, kept: Option<Conn>, acquired: bool)
    | ClosingLate(pool: PoolRef, conn: Conn)
    | HoldsSlot(pool: PoolRef)
    | Done

  /** A validation: the operation that runs it and, once decided, its outcome. */
  datatype Ruling = Ruling(runner: nat, outcome: Option<bool>)

  datatype State = State(
    pools: map<string, PoolRef>,        // the registry
    heap: map<PoolRef, Pool>,           // every pool ever made, retired ones included
    ops: seq<Op>,                       // every operation ever begun
    shut: bool,
    home: map<Conn, PoolRef>,           // the pool each connection was dialled for
    closed: set<Conn>,
    cleaned: set<Conn>,                 // closed, and the asynchronous cleanup has ended
    verdicts: map<Verdict, Ruling>,
    vouched: set<PoolRef>)              // history: some connection has been alive ever since the approval

  datatype Event =
    | Begin(id: string, fingerprint: string, made: PoolRef, victim: string)
    | TakeSlot(op: nat)
    | GiveUp(op: nat)
    | PickIdle(op: nat)
    | DialFails(op: nat)
    | DialSucceeds(op: nat, conn: Conn)
    | AskApproval(op: nat, verdict: Verdict)
    | FinishValidation(op: nat, accountOk: bool, contextOk: bool)
    | HearVerdict(op: nat)
    | StopWaiting(op: nat)
    | Finish(op: nat, healthy: bool)
    | Return(op: nat)
    | Discard(op: nat)
    | Leave(op: nat)
    | CloseLate(op: nat)
    | GiveSlotBack(op: nat)
    | TimerFires(id: string, pool: PoolRef)
    | Invalidate(id: string)
    | Shutdown
    | ConnCloses(conn: Conn)
    | ConnCleaned(conn: Conn)

  // ---------------------------------------------------------------------
  // Critical sections as functions on one pool
  // ---------------------------------------------------------------------

  /** Drops connections whose cleanup has ended; approval goes with the last one. */
  function ForgetClosed(p: Pool, cleaned: set<Conn>): Pool {
    var live := p.live - cleaned;
    if live == {} && p.approved then
      p.(live := live, approved := false, generation := p.generation + 1)
    else p.(live := live)
  }

  /** Takes idle connections from the end until one is not closed. */
  function TakeIdle(p: Pool, closed: set<Conn>, cleaned: set<Conn>): (Pool, Option<Conn>)
    decreases |p.idle|
  {
    if p.idle == [] then (p, None)
    else
      var n := |p.idle| - 1;
      var c, rest := p.idle[n], p.(idle := p.idle[..n]);
      if c !in closed then (rest, Some(c))
      else TakeIdle(ForgetClosed(rest.(live := rest.live - {c}), cleaned), closed, cleaned)
  }

  function Retired(p: Pool): Pool {
    p.(approved := false, generation := p.generation + 1, cancelled := true, idle := [])
  }

  /** First section of an approval request: the connection joins the live set
      before anything else is decided. */
  function JoinLive(p: Pool, c: Conn, cleaned: set<Conn>): Pool {
    var q := ForgetClosed(p, cleaned);
    q.(live := q.live + {c})
  }

  /** Last section of a validation. */
  function Conclude(p: Pool, cleaned: set<Conn>, ok: bool): Pool {
    ForgetClosed(p, cleaned).(approved := ok, validation := None)
  }

  // ---------------------------------------------------------------------
  // The registry
  // ---------------------------------------------------------------------

  /** References resolve. */
  predicate Typed(s: State) {
    && (forall id :: id in s.pools ==> s.pools[id] in s.heap && s.heap[s.pools[id]].id == id)
    && (forall o :: 0 <= o < |s.ops| && !s.ops[o].Done? ==> s.ops[o].pool in s.heap)
  }

  predicate Registered(s: State, p: PoolRef)
    requires p in s.heap
  {
    s.heap[p].id in s.pools && s.pools[s.heap[p].id] == p
  }

  function Retire(s: State, id: string): State
    requires Typed(s)
  {
    if id !in s.pools then s
    else s.(pools := s.pools - {id}, heap := s.heap[s.pools[id] := Retired(s.heap[s.pools[id]])])
  }

  function RetireAll(s: State): State {
    s.(pools := map[],
       heap := map p | p in s.heap :: if Registered(s, p) then Retired(s.heap[p]) else s.heap[p])
  }

  function Join(s: State, p: PoolRef): State
    requires p in s.heap
  {
    s.(heap := s.heap[p := s.heap[p].(users := s.heap[p].users + 1)], ops := s.ops + [AwaitSlot(p)])
  }

  /** A pool without users may be evicted when the registry is full. */
  predicate Evictable(s: State, id: string)
    requires Typed(s)
  {
    id in s.pools && s.heap[s.pools[id]].users == 0
  }

  /** The pool on file for a profile when its credentials still match. */
  predicate Stale(s: State, id: string, fingerprint: string)
    requires Typed(s)
  {
    id in s.pools && s.heap[s.pools[id]].fingerprint != fingerprint
  }

  function MakeRoom(s: State, victim: string): State
    requires Typed(s)
  {
    if |s.pools| >= MAX_POOLS && Evictable(s, victim) then Retire(s, victim) else s
  }

  function Register(s: State, id: string, fingerprint: string, made: PoolRef): State {
    Join(s.(pools := s.pools[id := made],
            heap := s.heap[made := Pool(id, fingerprint, 0, [], 0, false, {}, false, 0, None)]), made)
  }

  /** The first section of checkout: find, replace, evict or create a pool. */
  function BeginCheckout(s: State, id: string, fingerprint: string, made: PoolRef, victim: string): State
    requires Typed(s)
  {
    if s.shut then s.(ops := s.ops + [Done])
    else if id in s.pools && !Stale(s, id, fingerprint) then Join(s, s.pools[id])
    else
      var room := MakeRoom(Retire(s, id), victim);
      if |room.pools| >= MAX_POOLS then room.(ops := room.ops + [Done])
      else Register(room, id, fingerprint, made)
  }

  // ---------------------------------------------------------------------
  // Events
  // ---------------------------------------------------------------------

  function PoolOf(s: State, o: nat): Pool
    requires Typed(s) && o < |s.ops| && !s.ops[o].Done?
  {
    s.heap[s.ops[o].pool]
  }

  /** One operation moves on and its pool changes. */
  function Move(s: State, o: nat, op: Op, p: PoolRef, pool: Pool): State
    requires o < |s.ops|
  {
    s.(ops := s.ops[o := op], heap := s.heap[p := pool])
  }

  ghost predicate Enabled(s: State, e: Event)
    requires Typed(s)
  {
    match e {
      case Begin(_, _, made, victim) =>
        made !in s.heap && ((exists v :: Evictable(s, v)) ==> Evictable(s, victim))
      case TakeSlot(o) => o < |s.ops| && s.ops[o].AwaitSlot? && PoolOf(s, o).tokens < MAX_CONNECTIONS
      case GiveUp(o) => o < |s.ops| && s.ops[o].AwaitSlot?
      case PickIdle(o) => o < |s.ops| && s.ops[o].HaveSlot?
      case DialFails(o) => o < |s.ops| && s.ops[o].Dialling?
      case DialSucceeds(o, c) => o < |s.ops| && s.ops[o].Dialling? && c !in s.home
      case AskApproval(o, v) => o < |s.ops| && s.ops[o].Connected? && v !in s.verdicts
      case FinishValidation(o, _, _) => o < |s.ops| && s.ops[o].Validating?
      case HearVerdict(o) =>
        o < |s.ops| && s.ops[o].AwaitVerdict? && s.ops[o].verdict in s.verdicts && s.verdicts[s.ops[o].verdict].outcome.Some?
      case StopWaiting(o) => o < |s.ops| && s.ops[o].AwaitVerdict?
      case Finish(o, _) => o < |s.ops| && s.ops[o].Running?
      case Return(o) => o < |s.ops| && s.ops[o].Returning?
      case Discard(o) => o < |s.ops| && s.ops[o].Discarding?
      case Leave(o) => o < |s.ops| && s.ops[o].Leaving? && PoolOf(s, o).users > 0
      case CloseLate(o) => o < |s.ops| && s.ops[o].ClosingLate?
      case GiveSlotBack(o) => o < |s.ops| && s.ops[o].HoldsSlot? && PoolOf(s, o).tokens > 0
      case TimerFires(id, p) => true
      case Invalidate(_) => true
      case Shutdown => true
      case ConnCloses(c) => c in s.home
      case ConnCleaned(c) => c in s.closed
    }
  }

  predicate OfOperation(e: Event) {
    !e.Begin? && !e.TimerFires? && !e.Invalidate? && !e.Shutdown? && !e.ConnCloses? && !e.ConnCleaned?
  }

  /** Everything the last section of a validation looks at before it approves. */
  predicate ValidationHolds(s: State, o: nat, accountOk: bool, contextOk: bool)
    requires Typed(s) && o < |s.ops| && s.ops[o].Validating?
  {
    var pool := ForgetClosed(PoolOf(s, o), s.cleaned);
    && accountOk && !s.shut && Registered(s, s.ops[o].pool) && !pool.cancelled && contextOk
    && s.ops[o].generation == pool.generation && s.ops[o].conn !in s.closed
  }

  /** A returned connection goes back to the idle list of a registered pool. */
  predicate PutsBack(s: State, o: nat)
    requires Typed(s) && o < |s.ops| && s.ops[o].Leaving?
  {
    s.ops[o].kept.Some? && Registered(s, s.ops[o].pool) && !s.shut
  }

  /** Where the operation of an event stands afterwards. */
  function NextOp(s: State, e: Event): Op
    requires Typed(s) && OfOperation(e) && Enabled(s, e)
  {
    var op := s.ops[e.op];
    var p := op.pool;
    match e {
      case TakeSlot(_) => HaveSlot(p)
      case GiveUp(_) => Leaving(p, None, false)
      case PickIdle(_) =>
        var found := TakeIdle(ForgetClosed(s.heap[p], s.cleaned), s.closed, s.cleaned).1;
        if found.Some? then Connected(p, found.value) else Dialling(p)
      case DialFails(_) => Leaving(p, None, true)
      case DialSucceeds(_, c) => Connected(p, c)
      case AskApproval(_, v) =>
        var pool := JoinLive(s.heap[p], op.conn, s.cleaned);
        if pool.approved then Running(p, op.conn)
        else if pool.validation.Some? then AwaitVerdict(p, op.conn, pool.validation.value)
        else Validating(p, op.conn, v, pool.generation)
      case FinishValidation(o, accountOk, contextOk) =>
        if ValidationHolds(s, o, accountOk, contextOk) then Running(p, op.conn) else Returning(p, op.conn, false)
      case HearVerdict(_) =>
        if s.verdicts[op.verdict].outcome.value then Running(p, op.conn) else Returning(p, op.conn, false)
      case StopWaiting(_) => Returning(p, op.conn, false)
      case Finish(_, healthy) => Returning(p, op.conn, healthy)
      case Return(_) =>
        if op.healthy && op.conn !in s.closed then Leaving(p, Some(op.conn), true) else Discarding(p, op.conn)
      case Discard(_) => Leaving(p, None, true)
      case Leave(o) =>
        if op.kept.Some? && !PutsBack(s, o) then ClosingLate(p, op.kept.value)
        else if op.acquired then HoldsSlot(p) else Done
      case CloseLate(_) => HoldsSlot(p)
      case GiveSlotBack(_) => Done
    }
  }

  /** The operation's pool afterwards. */
  function NextPool(s: State, e: Event): Pool
    requires Typed(s) && OfOperation(e) && Enabled(s, e)
  {
    var op := s.ops[e.op];
    var pool := s.heap[op.pool];
    match e {
      case TakeSlot(_) => pool.(tokens := pool.tokens + 1)
      case PickIdle(_) => TakeIdle(ForgetClosed(pool, s.cleaned), s.closed, s.cleaned).0
      case AskApproval(_, v) =>
        var joined := JoinLive(pool, op.conn, s.cleaned);
        if joined.approved || joined.validation.Some? then joined else joined.(validation := Some(v))
      case FinishValidation(o, accountOk, contextOk) =>
        Conclude(pool, s.cleaned, ValidationHolds(s, o, accountOk, contextOk))
      case Return(_) =>
        if op.healthy && op.conn !in s.closed then pool
        else ForgetClosed(pool.(live := pool.live - {op.conn}), s.cleaned)
      case Leave(o) =>
        var left := ForgetClosed(pool, s.cleaned);
        left.(users := left.users - 1, idle := left.idle + if PutsBack(s, o) then [op.kept.value] else [])
      case GiveSlotBack(_) => pool.(tokens := pool.tokens - 1)
      case _ => pool
    }
  }

  /** What an operation's event does outside its pool. */
  function Elsewhere(s: State, e: Event, t: State): State
    requires Typed(s) && OfOperation(e) && Enabled(s, e)
  {
    match e {
      case DialSucceeds(o, c) => t.(home := s.home[c := s.ops[o].pool])
      case AskApproval(_, v) => if NextOp(s, e).Validating? then t.(verdicts := s.verdicts[v := Ruling(e.op, None)]) else t
      case FinishValidation(o, _, _) => t.(verdicts := s.verdicts[s.ops[o].verdict := Ruling(o, Some(NextOp(s, e).Running?))])
      case Discard(o) => t.(closed := s.closed + {s.ops[o].conn})
      case CloseLate(o) => t.(closed := s.closed + {s.ops[o].conn})
      case _ => t
    }
  }

  /** The state after an event, history variable aside. */
  function Core(s: State, e: Event): State
    requires Typed(s) && Enabled(s, e)
  {
    match e {
      case Begin(id, fingerprint, made, victim) => BeginCheckout(s, id, fingerprint, made, victim)
      case TimerFires(id, p) =>
        if id in s.pools && s.pools[id] == p && s.heap[p].users == 0 then Retire(s, id) else s
      case Invalidate(id) => Retire(s, id)
      case Shutdown => RetireAll(s).(shut := true)
      case ConnCloses(c) => s.(closed := s.closed + {c})
      case ConnCleaned(c) => s.(cleaned := s.cleaned + {c})
      case _ => Elsewhere(s, e, Move(s, e.op, NextOp(s, e), s.ops[e.op].pool, NextPool(s, e)))
    }
  }

  /** Connections of a pool that are still alive at this instant. */
  function Alive(s: State, p: PoolRef): set<Conn>
    requires p in s.heap
  {
    s.heap[p].live - s.cleaned
  }

  /** The state after an event. A pool stays vouched for while some connection is
      alive at every instant since its approval was granted. */
  function After(s: State, e: Event): State
    requires Typed(s) && Enabled(s, e)
  {
    Core(s, e).(vouched := Vouched(s, Core(s, e)))
  }

  function Vouched(s: State, t: State): set<PoolRef> {
    set p | p in t.heap && Alive(t, p) != {}
            && (p in s.vouched || (t.heap[p].approved && p in s.heap && !s.heap[p].approved))
  }

  const EMPTY := State(map[], map[], [], false, map[], {}, {}, map[], {})

  // ---------------------------------------------------------------------
  // Counting crews
  // ---------------------------------------------------------------------

  datatype Role = User | SlotHolder | Owner

  /** User: counted in `users`. SlotHolder: holds a slot token. Owner: has, or is
      dialling, a connection. */
  predicate Plays(op: Op, role: Role, p: PoolRef) {
    !op.Done? && op.pool == p &&
    match role {
      case User => !op.ClosingLate? && !op.HoldsSlot?
      case SlotHolder => !op.AwaitSlot? && (op.Leaving? ==> op.acquired)
      case Owner => !op.AwaitSlot? && !op.HaveSlot? && !op.HoldsSlot? && (op.Leaving? ==> op.kept.Some?)
    }
  }

  function Count(ops: seq<Op>, role: Role, p: PoolRef): nat {
    if ops == [] then 0
    else Count(ops[..|ops| - 1], role, p) + if Plays(ops[|ops| - 1], role, p) then 1 else 0
  }

  lemma {:induction false} CountMoves(ops: seq<Op>, o: nat, op: Op, role: Role, p: PoolRef)
    requires o < |ops|
    ensures Count(ops[o := op], role, p) == Count(ops, role, p)
      - (if Plays(ops[o], role, p) then 1 else 0) + (if Plays(op, role, p) then 1 else 0)
    decreases |ops|
  {
    var front, after := ops[..|ops| - 1], ops[o := op];
    if o == |front| {
      assert after[..|ops| - 1] == front;
    } else {
      assert after[..|ops| - 1] == front[o := op];
      CountMoves(front, o, op, role, p);
    }
  }

  lemma CountJoins(ops: seq<Op>, op: Op, role: Role, p: PoolRef)
    ensures Count(ops + [op], role, p) == Count(ops, role, p) + if Plays(op, role, p) then 1 else 0
  {
    assert (ops + [op])[..|ops|] == ops;
  }

  /** Counters match the operations, and a pool never owns more than eight
      connections: idle, checked out or being dialled. */
  predicate CountsOf(pool: Pool, ops: seq<Op>, p: PoolRef) {
    && pool.users == Count(ops, User, p)
    && pool.tokens == Count(ops, SlotHolder, p) <= MAX_CONNECTIONS
    && |pool.idle| + Count(ops, Owner, p) <= MAX_CONNECTIONS
  }

  predicate KeptUnderSlot(ops: seq<Op>) {
    forall o :: 0 <= o < |ops| && ops[o].Leaving? && ops[o].kept.Some? ==> ops[o].acquired
  }

  predicate Counts(s: State) {
    && (forall p :: p in s.heap ==> CountsOf(s.heap[p], s.ops, p))
    && KeptUnderSlot(s.ops)
    && |s.pools| <= MAX_POOLS
  }

  /** What a step of one operation may do to the counters of its pool. */
  predicate Balanced(before: Pool, after: Pool, ops: seq<Op>, o: nat, op: Op, p: PoolRef)
    requires o < |ops|
  {
    && after.users - before.users ==
         (if Plays(op, User, p) then 1 else 0) - (if Plays(ops[o], User, p) then 1 else 0)
    && after.tokens - before.tokens ==
         (if Plays(op, SlotHolder, p) then 1 else 0) - (if Plays(ops[o], SlotHolder, p) then 1 else 0)
    && after.tokens <= MAX_CONNECTIONS
    && var change := (if Plays(op, Owner, p) then 1 else 0) - (if Plays(ops[o], Owner, p) then 1 else 0);
    (|after.idle| + change <= |before.idle| || |after.idle| + Count(ops, Owner, p) + change <= MAX_CONNECTIONS)
  }

  lemma BalancedCounts(before: Pool, after: Pool, ops: seq<Op>, o: nat, op: Op, p: PoolRef)
    requires o < |ops| && CountsOf(before, ops, p) && Balanced(before, after, ops, o, op, p)
    ensures CountsOf(after, ops[o := op], p)
  {
    CountMoves(ops, o, op, User, p);
    CountMoves(ops, o, op, SlotHolder, p);
    CountMoves(ops, o, op, Owner, p);
  }

  /** A step of an operation of another pool leaves a pool's counters right. */
  lemma OtherCounts(pool: Pool, ops: seq<Op>, o: nat, op: Op, p: PoolRef)
    requires CountsOf(pool, ops, p)
    requires o < |ops| && (ops[o].Done? || ops[o].pool != p)
    requires op.Done? || op.pool != p
    ensures CountsOf(pool, ops[o := op], p)
  {
    CountMoves(ops, o, op, User, p);
    CountMoves(ops, o, op, SlotHolder, p);
    CountMoves(ops, o, op, Owner, p);
  }

  lemma MoveCounts(s: State, o: nat, op: Op, p: PoolRef, pool: Pool)
    requires Typed(s) && Counts(s) && o < |s.ops| && !s.ops[o].Done? && s.ops[o].pool == p
    requires pool.id == s.heap[p].id && (op.Done? || op.pool == p)
    requires op.Leaving? && op.kept.Some? ==> op.acquired
    requires Balanced(s.heap[p], pool, s.ops, o, op, p)
    ensures Typed(Move(s, o, op, p, pool)) && Counts(Move(s, o, op, p, pool))
  {
    var t := Move(s, o, op, p, pool);
    forall q | q in t.heap ensures CountsOf(t.heap[q], t.ops, q) {
      if q == p {
        BalancedCounts(s.heap[p], pool, s.ops, o, op, p);
      } else {
        OtherCounts(s.heap[q], s.ops, o, op, q);
      }
    }
  }

  /** What taking from the idle list does to the rest of the pool. */
  lemma {:induction false} TakeIdleFacts(p: Pool, closed: set<Conn>, cleaned: set<Conn>)
    ensures
      var (q, found) := TakeIdle(p, closed, cleaned);
      && |q.idle| + (if found.Some? then 1 else 0) <= |p.idle|
      && q.idle == p.idle[..|q.idle|]
      && (found.None? ==> q.idle == [])
      && (found.Some? ==> found.value == p.idle[|q.idle|] && found.value !in closed)
      && q.id == p.id && q.users == p.users && q.tokens == p.tokens && q.cancelled == p.cancelled
      && q.validation == p.validation && q.fingerprint == p.fingerprint
    decreases |p.idle|
  {
    if p.idle != [] && p.idle[|p.idle| - 1] in closed {
      var n := |p.idle| - 1;
      var rest := p.(idle := p.idle[..n]);
      var next := ForgetClosed(rest.(live := rest.live - {p.idle[n]}), cleaned);
      TakeIdleFacts(next, closed, cleaned);
      var q := TakeIdle(p, closed, cleaned).0;
      assert p.idle[..n][..|q.idle|] == p.idle[..|q.idle|];
    }
  }

  lemma MapWithout(m: map<string, PoolRef>, k: string)
    requires k in m
    ensures |m - {k}| == |m| - 1
  {
    assert m.Keys == (m - {k}).Keys + {k};
  }

  lemma MapWith(m: map<string, PoolRef>, k: string, p: PoolRef)
    requires k !in m
    ensures |m[k := p]| == |m| + 1
  {
    assert m[k := p].Keys == m.Keys + {k};
  }

  lemma RetireCounts(s: State, id: string)
    requires Typed(s) && Counts(s)
    ensures Typed(Retire(s, id)) && Counts(Retire(s, id))
  {
    if id in s.pools {
      MapWithout(s.pools, id);
      var t := Retire(s, id);
      forall p | p in t.heap ensures CountsOf(t.heap[p], t.ops, p) {
        assert CountsOf(s.heap[p], s.ops, p);
      }
    }
  }

  /** Joining a pool adds one user. */
  lemma JoinCounts(s: State, p: PoolRef)
    requires Typed(s) && Counts(s) && p in s.heap
    ensures Typed(Join(s, p)) && Counts(Join(s, p))
  {
    var t := Join(s, p);
    forall q | q in t.heap ensures CountsOf(t.heap[q], t.ops, q) {
      CountJoins(s.ops, AwaitSlot(p), User, q);
      CountJoins(s.ops, AwaitSlot(p), SlotHolder, q);
      CountJoins(s.ops, AwaitSlot(p), Owner, q);
    }
  }

  lemma RefusedCounts(s: State)
    requires Typed(s) && Counts(s)
    ensures Typed(s.(ops := s.ops + [Done])) && Counts(s.(ops := s.ops + [Done]))
  {
    var t := s.(ops := s.ops + [Done]);
    forall q | q in t.heap ensures CountsOf(t.heap[q], t.ops, q) {
      CountJoins(s.ops, Done, User, q);
      CountJoins(s.ops, Done, SlotHolder, q);
      CountJoins(s.ops, Done, Owner, q);
    }
  }

  lemma NewPoolCounts(s: State, id: string, made: PoolRef, pool: Pool)
    requires Typed(s) && Counts(s) && made !in s.heap && |s.pools| < MAX_POOLS && id !in s.pools
    requires pool.id == id && pool.users == 0 && pool.tokens == 0 && pool.idle == []
    ensures var t := s.(pools := s.pools[id := made], heap := s.heap[made := pool]); Typed(t) && Counts(t)
  {
    var t := s.(pools := s.pools[id := made], heap := s.heap[made := pool]);
    MapWith(s.pools, id, made);
    forall p | p in t.heap ensures CountsOf(t.heap[p], t.ops, p) {
      if p == made {
        NobodyYet(s.ops, made, User);
        NobodyYet(s.ops, made, SlotHolder);
        NobodyYet(s.ops, made, Owner);
      } else {
        assert CountsOf(s.heap[p], s.ops, p);
      }
    }
  }

  lemma {:induction false} NobodyYet(ops: seq<Op>, p: PoolRef, role: Role)
    requires forall o :: 0 <= o < |ops| ==> ops[o].Done? || ops[o].pool != p
    ensures Count(ops, role, p) == 0
    decreases |ops|
  {
    if ops != [] {
      NobodyYet(ops[..|ops| - 1], p, role);
    }
  }

  lemma BeginCounts(s: State, id: string, fingerprint: string, made: PoolRef, victim: string)
    requires Typed(s) && Counts(s) && made !in s.heap
    ensures var t := BeginCheckout(s, id, fingerprint, made, victim); Typed(t) && Counts(t)
  {
    if s.shut {
      RefusedCounts(s);
    } else if id in s.pools && !Stale(s, id, fingerprint) {
      JoinCounts(s, s.pools[id]);
    } else {
      RetireCounts(s, id);
      RetireCounts(Retire(s, id), victim);
      var room := MakeRoom(Retire(s, id), victim);
      if |room.pools| >= MAX_POOLS {
        RefusedCounts(room);
      } else {
        var pool := Pool(id, fingerprint, 0, [], 0, false, {}, false, 0, None);
        NewPoolCounts(room, id, made, pool);
        JoinCounts(room.(pools := room.pools[id := made], heap := room.heap[made := pool]), made);
      }
    }
  }

  /** An event moves its operation within the pool and balances the pool's books. */
  ghost predicate BalancedMove(s: State, e: Event)
    requires Typed(s) && OfOperation(e) && Enabled(s, e)
  {
    var p, op, pool := s.ops[e.op].pool, NextOp(s, e), NextPool(s, e);
    && pool.id == s.heap[p].id
    && (op.Done? || op.pool == p)
    && (op.Leaving? && op.kept.Some? ==> op.acquired)
    && Balanced(s.heap[p], pool, s.ops, e.op, op, p)
  }

  lemma PickBalanced(s: State, o: nat)
    requires Typed(s) && Counts(s) && Enabled(s, PickIdle(o))
    ensures BalancedMove(s, PickIdle(o))
  {
    var p := s.ops[o].pool;
    assert CountsOf(s.heap[p], s.ops, p);
    TakeIdleFacts(ForgetClosed(s.heap[p], s.cleaned), s.closed, s.cleaned);
    OwnersHoldSlots(s.ops, o, p);
  }

  /** Getting a slot, dialling and asking for approval. */
  lemma CheckoutBalanced(s: State, e: Event)
    requires Typed(s) && Counts(s) && OfOperation(e) && Enabled(s, e)
    requires e.TakeSlot? || e.GiveUp? || e.DialFails? || e.DialSucceeds?
    ensures BalancedMove(s, e)
  {
    assert CountsOf(s.heap[s.ops[e.op].pool], s.ops, s.ops[e.op].pool);
  }

  lemma AskBalanced(s: State, o: nat, v: Verdict)
    requires Typed(s) && Counts(s) && Enabled(s, AskApproval(o, v))
    ensures BalancedMove(s, AskApproval(o, v))
  {
    assert CountsOf(s.heap[s.ops[o].pool], s.ops, s.ops[o].pool);
  }

  lemma VerdictBalanced(s: State, e: Event)
    requires Typed(s) && Counts(s) && OfOperation(e) && Enabled(s, e)
    requires e.HearVerdict? || e.StopWaiting? || e.Finish?
    ensures BalancedMove(s, e)
  {
    assert CountsOf(s.heap[s.ops[e.op].pool], s.ops, s.ops[e.op].pool);
  }

  lemma FinishBalanced(s: State, o: nat, accountOk: bool, contextOk: bool)
    requires Typed(s) && Counts(s) && Enabled(s, FinishValidation(o, accountOk, contextOk))
    ensures BalancedMove(s, FinishValidation(o, accountOk, contextOk))
  {
    assert CountsOf(s.heap[s.ops[o].pool], s.ops, s.ops[o].pool);
  }

  lemma ReturnBalanced(s: State, o: nat)
    requires Typed(s) && Counts(s) && Enabled(s, Return(o))
    ensures BalancedMove(s, Return(o))
  {
    assert CountsOf(s.heap[s.ops[o].pool], s.ops, s.ops[o].pool);
  }

  /** Closing a connection that is not kept, and giving the slot back. */
  lemma ReleaseBalanced(s: State, e: Event)
    requires Typed(s) && Counts(s) && OfOperation(e) && Enabled(s, e)
    requires e.Discard? || e.CloseLate? || e.GiveSlotBack?
    ensures BalancedMove(s, e)
  {
    assert CountsOf(s.heap[s.ops[e.op].pool], s.ops, s.ops[e.op].pool);
  }

  lemma LeaveBalanced(s: State, o: nat)
    requires Typed(s) && Counts(s) && Enabled(s, Leave(o))
    ensures BalancedMove(s, Leave(o))
  {
    assert CountsOf(s.heap[s.ops[o].pool], s.ops, s.ops[o].pool);
  }

  lemma OperationBalanced(s: State, e: Event)
    requires Typed(s) && Counts(s) && OfOperation(e) && Enabled(s, e)
    ensures BalancedMove(s, e)
  {
    match e {
      case TakeSlot(_) => CheckoutBalanced(s, e);
      case GiveUp(_) => CheckoutBalanced(s, e);
      case DialFails(_) => CheckoutBalanced(s, e);
      case DialSucceeds(_, _) => CheckoutBalanced(s, e);
      case AskApproval(o, v) => AskBalanced(s, o, v);
      case PickIdle(o) => PickBalanced(s, o);
      case FinishValidation(o, accountOk, contextOk) => FinishBalanced(s, o, accountOk, contextOk);
      case HearVerdict(_) => VerdictBalanced(s, e);
      case StopWaiting(_) => VerdictBalanced(s, e);
      case Finish(_, _) => VerdictBalanced(s, e);
      case Return(o) => ReturnBalanced(s, o);
      case Leave(o) => LeaveBalanced(s, o);
      case _ => ReleaseBalanced(s, e);
    }
  }

  lemma CoreMoves(s: State, e: Event)
    requires Typed(s) && OfOperation(e) && Enabled(s, e)
    ensures
      var m, t := Move(s, e.op, NextOp(s, e), s.ops[e.op].pool, NextPool(s, e)), Core(s, e);
      t.pools == m.pools && t.heap == m.heap && t.ops == m.ops && t.shut == m.shut
      && t.cleaned == m.cleaned && t.vouched == m.vouched
  {
    ElsewhereOnly(s, e, Move(s, e.op, NextOp(s, e), s.ops[e.op].pool, NextPool(s, e)));
  }

  lemma ElsewhereOnly(s: State, e: Event, m: State)
    requires Typed(s) && OfOperation(e) && Enabled(s, e)
    ensures
      var t := Elsewhere(s, e, m);
      t == m.(home := t.home, closed := t.closed, verdicts := t.verdicts)
  {
  }

  lemma OperationCounts(s: State, e: Event)
    requires Typed(s) && Counts(s) && OfOperation(e) && Enabled(s, e)
    ensures Typed(Core(s, e)) && Counts(Core(s, e))
  {
    OperationBalanced(s, e);
    MoveCounts(s, e.op, NextOp(s, e), s.ops[e.op].pool, NextPool(s, e));
    CoreMoves(s, e);
  }

  lemma ShutdownCounts(s: State)
    requires Typed(s) && Counts(s)
    ensures Typed(RetireAll(s)) && Counts(RetireAll(s))
  {
    var t := RetireAll(s);
    forall p | p in t.heap ensures CountsOf(t.heap[p], t.ops, p) {
      assert CountsOf(s.heap[p], s.ops, p);
    }
  }

  /** Every event keeps the counters, the bound of eight owned connections per
      pool and the bound of sixteen registered pools. */
  lemma CountsKept(s: State, e: Event)
    requires Typed(s) && Counts(s) && Enabled(s, e)
    ensures Typed(After(s, e)) && Counts(After(s, e))
  {
    CoreCounts(s, e);
  }

  lemma CoreCounts(s: State, e: Event)
    requires Typed(s) && Counts(s) && Enabled(s, e)
    ensures Typed(Core(s, e)) && Counts(Core(s, e))
  {
    match e {
      case Begin(id, fingerprint, made, victim) => BeginCounts(s, id, fingerprint, made, victim);
      case TimerFires(id, _) => RetireCounts(s, id);
      case Invalidate(id) => RetireCounts(s, id);
      case Shutdown => ShutdownCounts(s);
      case ConnCloses(_) =>
      case ConnCleaned(_) =>
      case _ => OperationCounts(s, e);
    }
  }

  /** Owners hold slots, so an operation that holds a slot and owns nothing leaves
      room for one more owner. */
  lemma {:induction false} OwnersHoldSlots(ops: seq<Op>, o: nat, p: PoolRef)
    requires o < |ops| ==> ops[o] == HaveSlot(p)
    requires KeptUnderSlot(ops)
    ensures Count(ops, Owner, p) + (if o < |ops| then 1 else 0) <= Count(ops, SlotHolder, p)
    decreases |ops|
  {
    if ops != [] {
      var front := ops[..|ops| - 1];
      OwnersHoldSlots(front, o, p);
    }
  }

  // ---------------------------------------------------------------------
  // Who holds which connection
  // ---------------------------------------------------------------------

  /** The connection an operation holds, if any. */
  function Held(op: Op): Option<Conn> {
    match op {
      case AwaitSlot(_) => None
      case HaveSlot(_) => None
      case Dialling(_) => None
      case Connected(_, c) => Some(c)
      case Validating(_, c, _, _) => Some(c)
      case AwaitVerdict(_, c, _) => Some(c)
      case Running(_, c) => Some(c)
      case Returning(_, c, _) => Some(c)
      case Discarding(_, c) => Some(c)
      case Leaving(_, kept, _) => kept
      case ClosingLate(_, c) => Some(c)
      case HoldsSlot(_) => None
      case Done => None
    }
  }

  predicate AtHome(home: map<Conn, PoolRef>, c: Conn, p: PoolRef) {
    c in home && home[c] == p
  }

  /** Idle connections belong to their pool and are listed once. */
  predicate IdleOf(home: map<Conn, PoolRef>, idle: seq<Conn>, p: PoolRef) {
    && (forall i :: 0 <= i < |idle| ==> AtHome(home, idle[i], p))
    && (forall i, j :: 0 <= i < j < |idle| ==> idle[i] != idle[j])
  }

  predicate HeldOf(s: State, o: nat)
    requires o < |s.ops|
  {
    var held := Held(s.ops[o]);
    held.Some? ==>
      && s.ops[o].pool in s.heap
      && AtHome(s.home, held.value, s.ops[o].pool)
      && held.value !in s.heap[s.ops[o].pool].idle
  }

  /** Every connection is in one place: one idle list or one operation. */
  predicate Exclusive(s: State) {
    && (forall p :: p in s.heap ==> IdleOf(s.home, s.heap[p].idle, p))
    && (forall o :: 0 <= o < |s.ops| ==> HeldOf(s, o))
    && (forall o, x :: 0 <= o < |s.ops| && 0 <= x < |s.ops| && o != x && Held(s.ops[o]).Some?
          ==> Held(s.ops[x]) != Held(s.ops[o]))
    && s.cleaned <= s.closed
  }

  /** What an event may do to holdings: keep what the operation held, dial a new
      connection, take one from the idle list, or put one back. */
  predicate Handover(home: map<Conn, PoolRef>, home': map<Conn, PoolRef>, p: PoolRef, before: Pool, after: Pool, was: Op, now: Op) {
    var w, n := Held(was), Held(now);
    || (home' == home && after.idle == before.idle && (n == w || n == None))
    || (n.Some? && w == None && n.value !in home && home' == home[n.value := p] && after.idle == before.idle)
    || (home' == home && w == None && |after.idle| <= |before.idle| && after.idle == before.idle[..|after.idle|]
        && (n == None || (|after.idle| < |before.idle| && n == Some(before.idle[|after.idle|]))))
    || (home' == home && w.Some? && n == None && after.idle == before.idle + [w.value])
  }

  function NextHome(s: State, e: Event): map<Conn, PoolRef>
    requires Typed(s) && OfOperation(e) && Enabled(s, e)
  {
    if e.DialSucceeds? then s.home[e.conn := s.ops[e.op].pool] else s.home
  }

  ghost predicate HandoverOf(s: State, e: Event)
    requires Typed(s) && OfOperation(e) && Enabled(s, e)
  {
    Handover(s.home, NextHome(s, e), s.ops[e.op].pool, PoolOf(s, e.op), NextPool(s, e), s.ops[e.op], NextOp(s, e))
  }

  lemma CheckoutHandover(s: State, e: Event)
    requires Typed(s) && OfOperation(e) && Enabled(s, e)
    requires e.TakeSlot? || e.GiveUp? || e.DialFails? || e.DialSucceeds? || e.AskApproval?
    ensures HandoverOf(s, e)
  {
  }

  lemma VerdictHandover(s: State, e: Event)
    requires Typed(s) && OfOperation(e) && Enabled(s, e)
    requires e.FinishValidation? || e.HearVerdict? || e.StopWaiting? || e.Finish?
    ensures HandoverOf(s, e)
  {
  }

  lemma ReleaseHandover(s: State, e: Event)
    requires Typed(s) && OfOperation(e) && Enabled(s, e)
    requires e.Return? || e.Discard? || e.Leave? || e.CloseLate? || e.GiveSlotBack?
    ensures HandoverOf(s, e)
  {
    if e.Leave? && PutsBack(s, e.op) {
      assert NextPool(s, e).idle == PoolOf(s, e.op).idle + [s.ops[e.op].kept.value];
    } else if e.Leave? {
      assert NextPool(s, e).idle == PoolOf(s, e.op).idle + [] == PoolOf(s, e.op).idle;
    }
  }

  lemma EveryHandover(s: State, e: Event)
    requires Typed(s) && OfOperation(e) && Enabled(s, e)
    ensures HandoverOf(s, e)
  {
    match e {
      case PickIdle(_) => TakeIdleFacts(ForgetClosed(PoolOf(s, e.op), s.cleaned), s.closed, s.cleaned);
      case TakeSlot(_) => CheckoutHandover(s, e);
      case GiveUp(_) => CheckoutHandover(s, e);
      case DialFails(_) => CheckoutHandover(s, e);
      case DialSucceeds(_, _) => CheckoutHandover(s, e);
      case AskApproval(_, _) => CheckoutHandover(s, e);
      case FinishValidation(_, _, _) => VerdictHandover(s, e);
      case HearVerdict(_) => VerdictHandover(s, e);
      case StopWaiting(_) => VerdictHandover(s, e);
      case Finish(_, _) => VerdictHandover(s, e);
      case _ => ReleaseHandover(s, e);
    }
  }

  /** The idle list after a handover. */
  lemma HandoverIdle(s: State, home: map<Conn, PoolRef>, o: nat, op: Op, p: PoolRef, pool: Pool)
    requires Typed(s) && Exclusive(s) && o < |s.ops| && !s.ops[o].Done? && p == s.ops[o].pool
    requires Handover(s.home, home, p, s.heap[p], pool, s.ops[o], op)
    ensures IdleOf(home, pool.idle, p)
    ensures Held(op).Some? ==> AtHome(home, Held(op).value, p) && Held(op).value !in pool.idle
    ensures forall x :: 0 <= x < |s.ops| && x != o && Held(op).Some? ==> Held(s.ops[x]) != Held(op)
    ensures forall c :: c in pool.idle ==> c in s.heap[p].idle || Held(s.ops[o]) == Some(c)
    ensures forall c :: c in s.home ==> AtHome(home, c, s.home[c])
  {
    assert HeldOf(s, o);
    assert IdleOf(s.home, s.heap[p].idle, p);
    forall x | 0 <= x < |s.ops| && x != o && Held(op).Some? ensures Held(s.ops[x]) != Held(op) {
      assert HeldOf(s, x);
    }
  }

  lemma ExclusiveMove(s: State, home: map<Conn, PoolRef>, o: nat, op: Op, p: PoolRef, pool: Pool)
    requires Typed(s) && Exclusive(s) && o < |s.ops| && !s.ops[o].Done? && p == s.ops[o].pool
    requires op.Done? || op.pool == p
    requires Handover(s.home, home, p, s.heap[p], pool, s.ops[o], op)
    ensures Exclusive(Move(s, o, op, p, pool).(home := home))
  {
    var t := Move(s, o, op, p, pool).(home := home);
    HandoverIdle(s, home, o, op, p, pool);
    forall q | q in t.heap ensures IdleOf(t.home, t.heap[q].idle, q) {
      assert q != p ==> IdleOf(s.home, s.heap[q].idle, q);
    }
    forall x | 0 <= x < |t.ops| ensures HeldOf(t, x) {
      assert HeldOf(s, x);
      if x != o && Held(s.ops[x]).Some? {
        assert Held(s.ops[o]) != Held(s.ops[x]);
      }
    }
  }

  lemma MovedExclusive(s: State, e: Event)
    requires Typed(s) && Exclusive(s) && OfOperation(e) && Enabled(s, e)
    requires NextOp(s, e).Done? || NextOp(s, e).pool == s.ops[e.op].pool
    ensures Exclusive(Move(s, e.op, NextOp(s, e), s.ops[e.op].pool, NextPool(s, e)).(home := NextHome(s, e)))
  {
    EveryHandover(s, e);
    hide NextOp, NextPool, NextHome, Handover, Exclusive;
    ExclusiveMove(s, NextHome(s, e), e.op, NextOp(s, e), s.ops[e.op].pool, NextPool(s, e));
  }

  lemma OperationExclusive(s: State, e: Event)
    requires Typed(s) && Exclusive(s) && OfOperation(e) && Enabled(s, e)
    requires NextOp(s, e).Done? || NextOp(s, e).pool == s.ops[e.op].pool
    ensures Exclusive(Core(s, e))
  {
    var m := Move(s, e.op, NextOp(s, e), s.ops[e.op].pool, NextPool(s, e));
    MovedExclusive(s, e);
    ElsewhereHome(s, e, m);
    ElsewhereOnly(s, e, m);
    hide NextOp, NextPool, NextHome, IdleOf, HeldOf, Elsewhere;
    SameExclusive(m.(home := NextHome(s, e)), Core(s, e));
  }

  lemma ElsewhereHome(s: State, e: Event, m: State)
    requires Typed(s) && OfOperation(e) && Enabled(s, e) && m.home == s.home && m.closed == s.closed
    ensures Elsewhere(s, e, m).home == NextHome(s, e) && s.closed <= Elsewhere(s, e, m).closed
  {}

  lemma SameExclusive(s: State, t: State)
    requires Exclusive(s) && t.ops == s.ops && t.heap == s.heap && t.home == s.home && t.cleaned <= t.closed
    ensures Exclusive(t)
  {
    forall o | 0 <= o < |t.ops| ensures HeldOf(t, o) {
      assert HeldOf(s, o);
    }
  }

  /** The registry's events leave holdings alone, except that retiring a pool
      empties its idle list. */
  predicate Quiet(s: State, t: State) {
    && t.home == s.home && t.closed == s.closed && t.cleaned == s.cleaned
    && |s.ops| <= |t.ops| <= |s.ops| + 1 && t.ops[..|s.ops|] == s.ops
    && (|t.ops| == |s.ops| + 1 ==> Held(t.ops[|s.ops|]) == None)
    && (forall p :: p in t.heap ==> t.heap[p].idle == [] || (p in s.heap && t.heap[p].idle == s.heap[p].idle))
    && (forall p :: p in s.heap ==> p in t.heap)
  }

  lemma JoinQuiet(s: State, p: PoolRef)
    requires p in s.heap
    ensures Quiet(s, Join(s, p))
  {
  }

  lemma RegisterQuiet(s: State, id: string, fingerprint: string, made: PoolRef)
    requires made !in s.heap
    ensures Quiet(s, Register(s, id, fingerprint, made))
  {
    var pool := Pool(id, fingerprint, 0, [], 0, false, {}, false, 0, None);
    var t := s.(pools := s.pools[id := made], heap := s.heap[made := pool]);
    JoinQuiet(t, made);
  }

  lemma QuietThen(s: State, t: State, u: State)
    requires Quiet(s, t) && t.ops == s.ops && Quiet(t, u)
    ensures Quiet(s, u)
  {
  }

  lemma BeginQuiet(s: State, id: string, fingerprint: string, made: PoolRef, victim: string)
    requires Typed(s) && made !in s.heap
    ensures Quiet(s, BeginCheckout(s, id, fingerprint, made, victim))
  {
    if s.shut {
      RefusedQuiet(s);
    } else if id in s.pools && !Stale(s, id, fingerprint) {
      JoinQuiet(s, s.pools[id]);
    } else {
      RetireTyped(s, id);
      RetireTyped(Retire(s, id), victim);
      var room := MakeRoom(Retire(s, id), victim);
      QuietThen(s, Retire(s, id), room);
      RefusedQuiet(room);
      RegisterQuiet(room, id, fingerprint, made);
      QuietThen(s, room, BeginCheckout(s, id, fingerprint, made, victim));
    }
  }

  lemma RefusedQuiet(s: State)
    ensures Quiet(s, s.(ops := s.ops + [Done]))
  {
  }

  lemma RetireTyped(s: State, id: string)
    requires Typed(s)
    ensures Typed(Retire(s, id)) && Quiet(s, Retire(s, id))
    ensures Retire(s, id).heap.Keys == s.heap.Keys && Retire(s, id).ops == s.ops
  {
  }

  lemma QuietExclusive(s: State, t: State)
    requires Exclusive(s) && Quiet(s, t)
    ensures Exclusive(t)
  {
    assert forall x :: 0 <= x < |s.ops| ==> t.ops[x] == t.ops[..|s.ops|][x] == s.ops[x];
    forall p | p in t.heap ensures IdleOf(t.home, t.heap[p].idle, p) {
      assert p in s.heap ==> IdleOf(s.home, s.heap[p].idle, p);
    }
    forall x | 0 <= x < |t.ops| ensures HeldOf(t, x) {
      if x < |s.ops| {
        assert HeldOf(s, x);
      }
    }
    forall o, x | 0 <= o < |t.ops| && 0 <= x < |t.ops| && o != x && Held(t.ops[o]).Some?
      ensures Held(t.ops[x]) != Held(t.ops[o])
    {
      assert o < |s.ops|;
    }
  }

  lemma RegistryQuiet(s: State, e: Event)
    requires Typed(s) && !OfOperation(e) && !e.ConnCloses? && !e.ConnCleaned? && Enabled(s, e)
    ensures Quiet(s, Core(s, e))
  {
    match e {
      case Begin(id, fingerprint, made, victim) => BeginQuiet(s, id, fingerprint, made, victim);
      case TimerFires(id, _) => RetireTyped(s, id);
      case Invalidate(id) => RetireTyped(s, id);
      case Shutdown =>
    }
  }

  lemma CoreExclusive(s: State, e: Event)
    requires Typed(s) && Counts(s) && Exclusive(s) && Enabled(s, e)
    ensures Exclusive(Core(s, e))
  {
    if OfOperation(e) {
      OperationBalanced(s, e);
      OperationExclusive(s, e);
    } else if e.ConnCloses? || e.ConnCleaned? {
      SameExclusive(s, Core(s, e));
    } else {
      RegistryQuiet(s, e);
      QuietExclusive(s, Core(s, e));
    }
  }

  lemma ExclusiveKept(s: State, e: Event)
    requires Typed(s) && Counts(s) && Exclusive(s) && Enabled(s, e)
    ensures Exclusive(After(s, e))
  {
    CoreExclusive(s, e);
    SameExclusive(Core(s, e), After(s, e));
  }

  // ---------------------------------------------------------------------
  // Single-flight approval
  // ---------------------------------------------------------------------

  /** An approved pool is registered and has a live connection; a retired pool has
      no idle connection; a validation in flight has a runner. */
  predicate PoolApproval(s: State, p: PoolRef)
    requires p in s.heap
  {
    var q := s.heap[p];
    && (q.approved ==> Registered(s, p) && q.validation.None? && q.live != {})
    && (!Registered(s, p) ==> q.idle == [] && q.cancelled)
    && (q.validation.Some? ==>
          var v := q.validation.value;
          && v in s.verdicts && s.verdicts[v].outcome.None? && s.verdicts[v].runner < |s.ops|
          && var op := s.ops[s.verdicts[v].runner]; op.Validating? && op.pool == p && op.verdict == v)
  }

  predicate Decided(s: State, v: Verdict, outcome: bool) {
    v in s.verdicts && s.verdicts[v].outcome == Some(outcome)
  }

  /** The runner of a validation is unique, a waiter's verdict is in flight or
      decided, and a caller that was, or is about to be, told "approved" sees the
      approval stand while its connection lives and the pool is registered. */
  predicate OpApproval(s: State, o: nat)
    requires o < |s.ops|
  {
    var op := s.ops[o];
    (op.Validating? || op.AwaitVerdict? || op.Running?) ==>
      && op.pool in s.heap
      && var q := s.heap[op.pool];
      && (op.Validating? ==>
            q.validation == Some(op.verdict) && op.verdict in s.verdicts && s.verdicts[op.verdict].runner == o)
      && (op.AwaitVerdict? ==>
            op.verdict in s.verdicts
            && (s.verdicts[op.verdict].outcome.None? ==> q.validation == Some(op.verdict)))
      && (op.conn in q.live || op.conn in s.cleaned)
      && (op.Running? || (op.AwaitVerdict? && Decided(s, op.verdict, true)) ==>
            q.approved || op.conn in s.cleaned || !Registered(s, op.pool))
  }

  predicate Approvals(s: State) {
    && (forall p :: p in s.heap ==> PoolApproval(s, p))
    && (forall o :: 0 <= o < |s.ops| ==> OpApproval(s, o))
    && (s.shut ==> s.pools == map[])
  }

  /** A change that only lets go of cleaned or dropped connections, and of the
      approval only together with all of them. */
  predicate Gentle(q: Pool, r: Pool, cleaned: set<Conn>, dropped: set<Conn>) {
    && r.live <= q.live
    && (forall c :: c in q.live ==> c in r.live || c in cleaned || c in dropped)
    && (r.approved ==> q.approved && r.live != {})
    && (q.approved && !r.approved ==> forall c :: c in q.live ==> c in cleaned || c in dropped)
    && r.validation == q.validation && r.cancelled == q.cancelled && r.id == q.id
  }

  lemma ForgetGentle(q: Pool, cleaned: set<Conn>, dropped: set<Conn>)
    ensures
      var r := ForgetClosed(q.(live := q.live - dropped), cleaned);
      Gentle(q, r, cleaned, dropped) && r.idle == q.idle
  {
  }

  lemma GentleThen(q: Pool, r: Pool, t: Pool, cleaned: set<Conn>, dropped: set<Conn>)
    requires Gentle(q, r, cleaned, dropped) && Gentle(r, t, cleaned, dropped)
    ensures Gentle(q, t, cleaned, dropped)
  {
  }

  lemma GentleMore(q: Pool, r: Pool, cleaned: set<Conn>, dropped: set<Conn>, more: set<Conn>)
    requires Gentle(q, r, cleaned, dropped) && dropped <= more
    ensures Gentle(q, r, cleaned, more)
  {
  }

  lemma {:induction false} TakeIdleGentle(p: Pool, closed: set<Conn>, cleaned: set<Conn>, dropped: set<Conn>)
    requires (forall i :: 0 <= i < |p.idle| ==> p.idle[i] in dropped) && (p.approved ==> p.live != {})
    ensures Gentle(p, TakeIdle(p, closed, cleaned).0, cleaned, dropped)
    decreases |p.idle|
  {
    if p.idle != [] && p.idle[|p.idle| - 1] in closed {
      var n := |p.idle| - 1;
      var rest := p.(idle := p.idle[..n]);
      var next := ForgetClosed(rest.(live := rest.live - {p.idle[n]}), cleaned);
      ForgetGentle(rest, cleaned, {p.idle[n]});
      GentleMore(rest, next, cleaned, {p.idle[n]}, dropped);
      TakeIdleGentle(next, closed, cleaned, dropped);
      GentleThen(p, next, TakeIdle(p, closed, cleaned).0, cleaned, dropped);
    }
  }

  /** An event of one operation, away from validations. */
  ghost predicate PlainMove(s: State, t: State, o: nat, p: PoolRef, dropped: set<Conn>)
    requires p in s.heap && o < |s.ops|
  {
    && p in t.heap && |t.ops| == |s.ops|
    && t.ops == s.ops[o := t.ops[o]] && t.heap == s.heap[p := t.heap[p]]
    && t.pools == s.pools && t.verdicts == s.verdicts && t.cleaned == s.cleaned && t.shut == s.shut
    && Gentle(s.heap[p], t.heap[p], s.cleaned, dropped)
    && (!Registered(s, p) && s.heap[p].idle == [] ==> t.heap[p].idle == [])
  }

  /** Other operations keep their standing through a plain move. */
  lemma PlainMoveOthers(s: State, t: State, o: nat, p: PoolRef, dropped: set<Conn>, x: nat)
    requires p in s.heap && o < |s.ops| && PlainMove(s, t, o, p, dropped) && Approvals(s)
    requires x < |s.ops| && x != o
    requires Held(s.ops[x]).Some? && s.ops[x].pool == p ==> Held(s.ops[x]).value !in dropped
    ensures OpApproval(t, x)
  {
    assert OpApproval(s, x);
    assert t.ops[x] == s.ops[x];
  }

  lemma PlainMoveApprovals(s: State, t: State, o: nat, p: PoolRef, dropped: set<Conn>)
    requires p in s.heap && o < |s.ops| && PlainMove(s, t, o, p, dropped) && Approvals(s)
    requires !s.ops[o].Validating?
    requires forall x :: 0 <= x < |s.ops| && x != o && Held(s.ops[x]).Some? && s.ops[x].pool == p
               ==> Held(s.ops[x]).value !in dropped
    requires OpApproval(t, o)
    ensures Approvals(t)
  {
    forall x | 0 <= x < |t.ops| ensures OpApproval(t, x) {
      if x != o {
        PlainMoveOthers(s, t, o, p, dropped, x);
      }
    }
    forall q | q in t.heap ensures PoolApproval(t, q) {
      assert PoolApproval(s, q);
    }
  }

  /** What an event may remove from the live set of its pool. */
  function Dropped(s: State, e: Event): set<Conn>
    requires Typed(s) && OfOperation(e) && Enabled(s, e)
  {
    if e.Return? then {s.ops[e.op].conn}
    else if e.PickIdle? then set c | c in PoolOf(s, e.op).idle
    else {}
  }

  predicate Plain(e: Event) {
    OfOperation(e) && !e.AskApproval? && !e.FinishValidation?
  }

  lemma PlainGentle(s: State, e: Event)
    requires Typed(s) && Plain(e) && Enabled(s, e) && PoolApproval(s, s.ops[e.op].pool)
    ensures Gentle(PoolOf(s, e.op), NextPool(s, e), s.cleaned, Dropped(s, e))
  {
    var q := PoolOf(s, e.op);
    match e {
      case PickIdle(_) =>
        ForgetGentle(q, s.cleaned, {});
        assert q.(live := q.live - {}) == q;
        var f := ForgetClosed(q, s.cleaned);
        GentleMore(q, f, s.cleaned, {}, Dropped(s, e));
        TakeIdleGentle(f, s.closed, s.cleaned, Dropped(s, e));
        GentleThen(q, f, NextPool(s, e), s.cleaned, Dropped(s, e));
      case Return(_) => ForgetGentle(q, s.cleaned, {s.ops[e.op].conn});
      case Leave(_) =>
        ForgetGentle(q, s.cleaned, {});
        assert q.(live := q.live - {}) == q;
      case _ =>
    }
  }

  lemma PlainIsPlain(s: State, e: Event)
    requires Typed(s) && Plain(e) && Enabled(s, e) && Approvals(s)
    ensures PlainMove(s, Core(s, e), e.op, s.ops[e.op].pool, Dropped(s, e))
  {
    var p := s.ops[e.op].pool;
    assert PoolApproval(s, p);
    PlainGentle(s, e);
    CoreMoves(s, e);
    var m := Move(s, e.op, NextOp(s, e), p, NextPool(s, e));
    ElsewhereOnly(s, e, m);
    assert Elsewhere(s, e, m).verdicts == s.verdicts;
    if s.heap[p].idle == [] && e.PickIdle? {
      TakeIdleFacts(ForgetClosed(s.heap[p], s.cleaned), s.closed, s.cleaned);
    }
  }

  lemma PlainOwn(s: State, e: Event)
    requires Typed(s) && Plain(e) && Enabled(s, e) && Approvals(s)
    ensures OpApproval(Core(s, e), e.op)
  {
    CoreMoves(s, e);
    assert OpApproval(s, e.op);
    PlainIsPlain(s, e);
  }

  lemma DroppedHeldByNoOther(s: State, e: Event)
    requires Typed(s) && Exclusive(s) && OfOperation(e) && Enabled(s, e)
    ensures forall x :: 0 <= x < |s.ops| && x != e.op && Held(s.ops[x]).Some? && s.ops[x].pool == s.ops[e.op].pool
              ==> Held(s.ops[x]).value !in Dropped(s, e)
  {
    forall x | 0 <= x < |s.ops| && x != e.op && Held(s.ops[x]).Some? && s.ops[x].pool == s.ops[e.op].pool
      ensures Held(s.ops[x]).value !in Dropped(s, e)
    {
      assert HeldOf(s, x);
      assert e.Return? ==> Held(s.ops[e.op]) != Held(s.ops[x]);
    }
  }

  lemma PlainApprovals(s: State, e: Event)
    requires Typed(s) && Exclusive(s) && Approvals(s) && Plain(e) && Enabled(s, e)
    ensures Approvals(Core(s, e))
  {
    PlainIsPlain(s, e);
    PlainOwn(s, e);
    DroppedHeldByNoOther(s, e);
    PlainMoveApprovals(s, Core(s, e), e.op, s.ops[e.op].pool, Dropped(s, e));
  }

  lemma AskPool(q: Pool, c: Conn, cleaned: set<Conn>)
    ensures
      var r := JoinLive(q, c, cleaned);
      && c in r.live && r.validation == q.validation && r.id == q.id && r.idle == q.idle && r.cancelled == q.cancelled
      && (forall x :: x in q.live ==> x in r.live || x in cleaned)
      && (r.approved ==> q.approved && q.live - cleaned != {})
      && (q.approved && !r.approved ==> forall x :: x in q.live ==> x in cleaned)
  {
  }

  lemma AskOthers(s: State, o: nat, v: Verdict, x: nat)
    requires Typed(s) && Approvals(s) && Enabled(s, AskApproval(o, v)) && x < |s.ops| && x != o
    ensures OpApproval(Core(s, AskApproval(o, v)), x)
  {
    CoreMoves(s, AskApproval(o, v));
    assert OpApproval(s, x);
    AskPool(PoolOf(s, o), s.ops[o].conn, s.cleaned);
  }

  lemma AskOwn(s: State, o: nat, v: Verdict)
    requires Typed(s) && Approvals(s) && Enabled(s, AskApproval(o, v))
    ensures OpApproval(Core(s, AskApproval(o, v)), o)
  {
    CoreMoves(s, AskApproval(o, v));
    assert PoolApproval(s, s.ops[o].pool);
    AskPool(PoolOf(s, o), s.ops[o].conn, s.cleaned);
  }

  /** Asking for approval joins the live set first, so an approval without a living
      connection is gone before it can be inherited. */
  lemma AskApprovals(s: State, o: nat, v: Verdict)
    requires Typed(s) && Approvals(s) && Enabled(s, AskApproval(o, v))
    ensures Approvals(Core(s, AskApproval(o, v)))
  {
    var t := Core(s, AskApproval(o, v));
    CoreMoves(s, AskApproval(o, v));
    forall x | 0 <= x < |t.ops| ensures OpApproval(t, x) {
      if x != o {
        AskOthers(s, o, v, x);
      } else {
        AskOwn(s, o, v);
      }
    }
    AskPool(PoolOf(s, o), s.ops[o].conn, s.cleaned);
    forall r | r in t.heap ensures PoolApproval(t, r) {
      assert PoolApproval(s, r);
    }
  }

  /** The runner of a pool's validation is the only one. */
  lemma OneRunner(s: State, o: nat, x: nat)
    requires Approvals(s) && o < |s.ops| && x < |s.ops| && s.ops[o].Validating? && s.ops[x].Validating?
    requires s.ops[o].pool == s.ops[x].pool
    ensures o == x
  {
    assert OpApproval(s, o) && OpApproval(s, x);
  }

  lemma FinishOthers(s: State, o: nat, accountOk: bool, contextOk: bool, x: nat)
    requires Typed(s) && Approvals(s) && Enabled(s, FinishValidation(o, accountOk, contextOk)) && x < |s.ops| && x != o
    ensures OpApproval(Core(s, FinishValidation(o, accountOk, contextOk)), x)
  {
    var p := s.ops[o].pool;
    CoreMoves(s, FinishValidation(o, accountOk, contextOk));
    assert OpApproval(s, o) && OpApproval(s, x) && PoolApproval(s, p);
    ForgetGentle(s.heap[p], s.cleaned, {});
    if s.ops[x].Validating? && s.ops[x].pool == p {
      OneRunner(s, o, x);
    }
  }

  lemma FinishApprovals(s: State, o: nat, accountOk: bool, contextOk: bool)
    requires Typed(s) && Exclusive(s) && Approvals(s) && Enabled(s, FinishValidation(o, accountOk, contextOk))
    ensures Approvals(Core(s, FinishValidation(o, accountOk, contextOk)))
  {
    var e := FinishValidation(o, accountOk, contextOk);
    var p, t := s.ops[o].pool, Core(s, e);
    CoreMoves(s, e);
    assert OpApproval(s, o) && PoolApproval(s, p);
    assert s.ops[o].conn !in s.closed ==> s.ops[o].conn in ForgetClosed(s.heap[p], s.cleaned).live;
    forall x | 0 <= x < |t.ops| ensures OpApproval(t, x) {
      if x != o {
        FinishOthers(s, o, accountOk, contextOk, x);
      }
    }
    forall r | r in t.heap ensures PoolApproval(t, r) {
      assert PoolApproval(s, r);
    }
  }

  /** Registry events: pools are unchanged, retired, or new. */
  predicate RegistryMove(s: State, t: State) {
    && |s.ops| <= |t.ops| <= |s.ops| + 1
    && (forall x :: 0 <= x < |s.ops| ==> t.ops[x] == s.ops[x])
    && (|t.ops| == |s.ops| + 1 ==> Held(t.ops[|s.ops|]) == None)
    && t.verdicts == s.verdicts && t.cleaned == s.cleaned
    && (forall p :: p in s.heap ==>
          && p in t.heap && t.heap[p].id == s.heap[p].id && t.heap[p].live == s.heap[p].live
          && t.heap[p].validation == s.heap[p].validation
          && (Registered(t, p) ==> Registered(s, p) && t.heap[p].approved == s.heap[p].approved)
          && (!Registered(t, p) ==>
                (Registered(s, p) ==> t.heap[p].cancelled && t.heap[p].idle == [] && !t.heap[p].approved)
                && (!Registered(s, p) ==>
                      && t.heap[p].cancelled == s.heap[p].cancelled && t.heap[p].idle == s.heap[p].idle
                      && t.heap[p].approved == s.heap[p].approved)))
    && (forall p :: p in t.heap && p !in s.heap ==>
          Registered(t, p) && !t.heap[p].approved && t.heap[p].validation.None?)
    && (t.shut ==> t.pools == map[])
  }

  lemma RegistryMoveApprovals(s: State, t: State)
    requires Typed(s) && Approvals(s) && RegistryMove(s, t)
    ensures Approvals(t)
  {
    forall x | 0 <= x < |t.ops| ensures OpApproval(t, x) {
      if x < |s.ops| {
        assert OpApproval(s, x);
      }
    }
    forall r | r in t.heap ensures PoolApproval(t, r) {
      if r in s.heap {
        assert PoolApproval(s, r);
      }
    }
  }

  lemma RetireRegistry(s: State, id: string)
    requires Typed(s) && (s.shut ==> s.pools == map[])
    ensures RegistryMove(s, Retire(s, id))
  {
  }

  lemma JoinRegistry(s: State, p: PoolRef)
    requires Typed(s) && !s.shut && p in s.heap
    ensures RegistryMove(s, Join(s, p))
  {
  }

  lemma RefusedRegistry(s: State)
    requires Typed(s) && (s.shut ==> s.pools == map[])
    ensures RegistryMove(s, s.(ops := s.ops + [Done]))
  {
  }

  lemma RegisterRegistry(s: State, id: string, fingerprint: string, made: PoolRef)
    requires Typed(s) && !s.shut && made !in s.heap && id !in s.pools
    ensures RegistryMove(s, Register(s, id, fingerprint, made))
  {
  }

  lemma RegistryThen(s: State, t: State, u: State)
    requires RegistryMove(s, t) && t.ops == s.ops && t.heap.Keys == s.heap.Keys && RegistryMove(t, u)
    ensures RegistryMove(s, u)
  {
  }

  lemma RoomRegistry(s: State, id: string, victim: string)
    requires Typed(s) && (s.shut ==> s.pools == map[])
    ensures
      var room := MakeRoom(Retire(s, id), victim);
      Typed(room) && RegistryMove(s, room) && room.ops == s.ops && room.heap.Keys == s.heap.Keys
      && id !in room.pools && room.shut == s.shut
  {
    RetireTyped(s, id);
    RetireTyped(Retire(s, id), victim);
    RetireRegistry(s, id);
    RetireRegistry(Retire(s, id), victim);
    RegistryThen(s, Retire(s, id), Retire(Retire(s, id), victim));
  }

  lemma BeginRegistry(s: State, id: string, fingerprint: string, made: PoolRef, victim: string)
    requires Typed(s) && (s.shut ==> s.pools == map[]) && made !in s.heap
    ensures RegistryMove(s, BeginCheckout(s, id, fingerprint, made, victim))
  {
    if s.shut {
      RefusedRegistry(s);
    } else if id in s.pools && !Stale(s, id, fingerprint) {
      JoinRegistry(s, s.pools[id]);
    } else {
      RoomRegistry(s, id, victim);
      var room := MakeRoom(Retire(s, id), victim);
      RefusedRegistry(room);
      RegisterRegistry(room, id, fingerprint, made);
      RegistryThen(s, room, BeginCheckout(s, id, fingerprint, made, victim));
    }
  }

  lemma RegistryApprovals(s: State, e: Event)
    requires Typed(s) && Approvals(s) && !OfOperation(e) && !e.ConnCloses? && !e.ConnCleaned? && Enabled(s, e)
    ensures Approvals(Core(s, e))
  {
    match e {
      case Begin(id, fingerprint, made, victim) =>
        BeginRegistry(s, id, fingerprint, made, victim);
        RegistryMoveApprovals(s, Core(s, e));
      case TimerFires(id, _) =>
        RetireRegistry(s, id);
        RegistryMoveApprovals(s, Retire(s, id));
      case Invalidate(id) =>
        RetireRegistry(s, id);
        RegistryMoveApprovals(s, Core(s, e));
      case Shutdown =>
        assert RegistryMove(s, Core(s, e));
        RegistryMoveApprovals(s, Core(s, e));
    }
  }

  lemma SocketApprovals(s: State, e: Event)
    requires Typed(s) && Approvals(s) && (e.ConnCloses? || e.ConnCleaned?) && Enabled(s, e)
    ensures Approvals(Core(s, e))
  {
    var t := Core(s, e);
    forall x | 0 <= x < |t.ops| ensures OpApproval(t, x) {
      assert OpApproval(s, x);
    }
    forall r | r in t.heap ensures PoolApproval(t, r) {
      assert PoolApproval(s, r);
    }
  }

  /** The history variable plays no part in approval. */
  lemma SameApprovals(s: State, t: State)
    requires Approvals(s) && t == s.(vouched := t.vouched)
    ensures Approvals(t)
  {
    forall x | 0 <= x < |t.ops| ensures OpApproval(t, x) {
      assert OpApproval(s, x);
    }
    forall r | r in t.heap ensures PoolApproval(t, r) {
      assert PoolApproval(s, r);
    }
  }

  lemma CoreApprovals(s: State, e: Event)
    requires Typed(s) && Exclusive(s) && Approvals(s) && Enabled(s, e)
    ensures Approvals(Core(s, e))
  {
    if Plain(e) {
      PlainApprovals(s, e);
    } else if e.AskApproval? {
      AskApprovals(s, e.op, e.verdict);
    } else if e.FinishValidation? {
      FinishApprovals(s, e.op, e.accountOk, e.contextOk);
    } else if e.ConnCloses? || e.ConnCleaned? {
      SocketApprovals(s, e);
    } else {
      RegistryApprovals(s, e);
    }
  }

  lemma ApprovalsKept(s: State, e: Event)
    requires Typed(s) && Exclusive(s) && Approvals(s) && Enabled(s, e)
    ensures Approvals(After(s, e))
  {
    CoreApprovals(s, e);
    SameApprovals(Core(s, e), After(s, e));
  }

  // ---------------------------------------------------------------------
  // Approval never survives a moment without a living connection
  // ---------------------------------------------------------------------

  predicate VouchedFor(s: State, p: PoolRef)
    requires p in s.heap
  {
    s.heap[p].approved && Alive(s, p) != {} ==> p in s.vouched
  }

  predicate AllVouched(s: State) {
    forall p :: p in s.heap ==> VouchedFor(s, p)
  }

  /** Between two states, approval of p comes from before, or is new, and living
      connections only join an approved pool that still has one. */
  predicate Continuous(s: State, t: State, p: PoolRef)
    requires p in t.heap
  {
    t.heap[p].approved ==>
      && p in s.heap
      && (s.heap[p].approved ==> Alive(t, p) == {} || Alive(s, p) != {})
  }

  lemma OperationContinuous(s: State, e: Event, p: PoolRef)
    requires Typed(s) && Approvals(s) && OfOperation(e) && Enabled(s, e) && p in Core(s, e).heap
    ensures Continuous(s, Core(s, e), p)
  {
    CoreMoves(s, e);
    if p == s.ops[e.op].pool {
      assert PoolApproval(s, p);
      if Plain(e) {
        PlainGentle(s, e);
      } else if e.AskApproval? {
        AskPool(PoolOf(s, e.op), s.ops[e.op].conn, s.cleaned);
      } else {
        assert OpApproval(s, e.op);
      }
    }
  }

  lemma VouchedKept(s: State, e: Event)
    requires Typed(s) && Approvals(s) && AllVouched(s) && Enabled(s, e)
    ensures AllVouched(After(s, e))
  {
    var t := Core(s, e);
    forall p | p in t.heap ensures Continuous(s, t, p) {
      if OfOperation(e) {
        OperationContinuous(s, e, p);
      } else if !e.ConnCloses? && !e.ConnCleaned? {
        assert p in s.heap ==> PoolApproval(s, p);
        if e.Begin? {
          BeginRegistry(s, e.id, e.fingerprint, e.made, e.victim);
        }
      }
    }
    forall p | p in t.heap ensures VouchedFor(After(s, e), p) {
      assert Continuous(s, t, p);
      assert p in s.heap ==> VouchedFor(s, p);
    }
  }

  // ---------------------------------------------------------------------
  // All runs
  // ---------------------------------------------------------------------

  predicate Inv(s: State) {
    Typed(s) && Counts(s) && Exclusive(s) && Approvals(s) && AllVouched(s)
  }

  ghost predicate Run(states: seq<State>, events: seq<Event>) {
    Runs.Run(EMPTY, Step, states, events)
  }

  ghost predicate Step(s: State, e: Event, t: State) {
    Typed(s) && Enabled(s, e) && t == After(s, e)
  }

  lemma InvKept(s: State, e: Event)
    requires Inv(s) && Enabled(s, e)
    ensures Inv(After(s, e))
  {
    CountsKept(s, e);
    ExclusiveKept(s, e);
    ApprovalsKept(s, e);
    VouchedKept(s, e);
  }

  lemma StepKeepsInv()
    ensures forall s, e, t :: Inv(s) && Step(s, e, t) ==> Inv(t)
  {
    forall s, e, t | Inv(s) && Step(s, e, t) ensures Inv(t) {
      InvKept(s, e);
    }
  }

  lemma InvAlways(states: seq<State>, events: seq<Event>, i: nat)
    requires Run(states, events) && i < |states|
    ensures Inv(states[i])
  {
    StepKeepsInv();
    Runs.Invariant(EMPTY, Step, Inv, states, events, i);
  }

  /** At every moment of every run a pool owns at most eight connections (idle,
      checked out or being dialled), its counters equal the outstanding users and
      slot holders, and at most sixteen pools are registered. */
  lemma OwnershipBounded(states: seq<State>, events: seq<Event>, i: nat, p: PoolRef)
    requires Run(states, events) && i < |states| && p in states[i].heap
    ensures |states[i].heap[p].idle| + Count(states[i].ops, Owner, p) <= 8
    ensures states[i].heap[p].users == Count(states[i].ops, User, p)
    ensures states[i].heap[p].tokens == Count(states[i].ops, SlotHolder, p) <= 8
    ensures |states[i].pools| <= 16
  {
    InvAlways(states, events, i);
    assert CountsOf(states[i].heap[p], states[i].ops, p);
  }

  /** Nothing leaks: once every operation is over, no pool counts a user or a slot
      and no validation is in flight. */
  lemma NothingLeaks(states: seq<State>, events: seq<Event>, i: nat, p: PoolRef)
    requires Run(states, events) && i < |states| && p in states[i].heap
    requires forall o :: 0 <= o < |states[i].ops| ==> states[i].ops[o].Done?
    ensures states[i].heap[p].users == 0 && states[i].heap[p].tokens == 0 && states[i].heap[p].validation.None?
  {
    OwnershipBounded(states, events, i, p);
    InvAlways(states, events, i);
    NobodyYet(states[i].ops, p, User);
    NobodyYet(states[i].ops, p, SlotHolder);
    assert PoolApproval(states[i], p);
  }

  /** At most one validation runs per pool, and whoever waits for a verdict waits
      for one that is decided or still has its runner. */
  lemma SingleFlight(states: seq<State>, events: seq<Event>, i: nat, o: nat, x: nat)
    requires Run(states, events) && i < |states| && o < |states[i].ops| && x < |states[i].ops|
    requires !states[i].ops[o].Done? && !states[i].ops[x].Done? && states[i].ops[o].pool == states[i].ops[x].pool
    ensures states[i].ops[o].Validating? && states[i].ops[x].Validating? ==> o == x
    ensures states[i].ops[o].AwaitVerdict? ==>
      var v := states[i].ops[o].verdict;
      && v in states[i].verdicts
      && (states[i].verdicts[v].outcome.None? ==>
            states[i].verdicts[v].runner < |states[i].ops| && states[i].ops[states[i].verdicts[v].runner].Validating?)
  {
    InvAlways(states, events, i);
    assert OpApproval(states[i], o) && OpApproval(states[i], x);
    if states[i].ops[o].AwaitVerdict? {
      assert PoolApproval(states[i], states[i].ops[o].pool);
    }
  }

  /** A caller whose checkout succeeded sees its pool approved for as long as its
      connection has not been cleaned up and the pool is registered. */
  lemma ApprovalStands(states: seq<State>, events: seq<Event>, i: nat, o: nat)
    requires Run(states, events) && i < |states| && o < |states[i].ops| && states[i].ops[o].Running?
    ensures states[i].ops[o].pool in states[i].heap
    ensures states[i].heap[states[i].ops[o].pool].approved
         || states[i].ops[o].conn in states[i].cleaned
         || !Registered(states[i], states[i].ops[o].pool)
  {
    InvAlways(states, events, i);
    assert OpApproval(states[i], o);
  }

  predicate Backs(s: State, p: PoolRef) {
    p in s.heap && Alive(s, p) != {}
  }

  predicate Grants(s: State, t: State, p: PoolRef) {
    p in s.heap && p in t.heap && !s.heap[p].approved && t.heap[p].approved
  }

  lemma VouchedStep(s: State, e: Event, t: State, p: PoolRef)
    requires Step(s, e, t) && p in t.vouched
    ensures Backs(t, p) && (p in s.vouched || Grants(s, t, p))
  {
    assert p in Vouched(s, Core(s, e));
  }

  /** The approval of p was granted in step i, and at every moment since then, up
      to moment j, p has had a living connection. */
  ghost predicate UnbrokenSince(states: seq<State>, i: nat, j: nat, p: PoolRef) {
    Runs.Backed((s, t) => Grants(s, t, p), s => Backs(s, p), states, i, j)
  }

  lemma VouchedMeans(states: seq<State>, events: seq<Event>, j: nat, p: PoolRef) returns (i: nat)
    requires Run(states, events) && j < |states| && p in states[j].vouched
    ensures UnbrokenSince(states, i, j, p)
  {
    forall s, e, t | Step(s, e, t) && p in t.vouched ensures Backs(t, p) && (p in s.vouched || Grants(s, t, p)) {
      VouchedStep(s, e, t, p);
    }
    i := Runs.Origin(EMPTY, Step, (s: State) => p in s.vouched, (s, t) => Grants(s, t, p), s => Backs(s, p), states, events, j);
  }

  lemma Inheritance(s: State, e: Event)
    requires Inv(s) && e.AskApproval? && Enabled(s, e) && NextOp(s, e).Running?
    ensures s.ops[e.op].pool in s.vouched
  {
    AskPool(PoolOf(s, e.op), s.ops[e.op].conn, s.cleaned);
    assert VouchedFor(s, s.ops[e.op].pool);
  }

  /** An approved pool is registered and counts a live connection, and while one of them
      is really alive the approval has been backed ever since it was granted. */
  lemma ApprovedMeans(states: seq<State>, events: seq<Event>, j: nat, p: PoolRef)
    requires Run(states, events) && j < |states| && p in states[j].heap && states[j].heap[p].approved
    ensures Registered(states[j], p) && states[j].heap[p].live != {}
    ensures Alive(states[j], p) != {} ==> exists i :: UnbrokenSince(states, i, j, p)
  {
    InvAlways(states, events, j);
    hide Counts, Exclusive;
    assert PoolApproval(states[j], p);
    if Alive(states[j], p) != {} {
      assert VouchedFor(states[j], p);
      var i := VouchedMeans(states, events, j, p);
    }
  }

  /** An operation that inherits an approval, without validating or waiting, gets
      one that has been backed by a living connection at every moment since it was
      granted: approval never survives an instant without one. */
  lemma InheritedApproval(states: seq<State>, events: seq<Event>, j: nat)
    requires Run(states, events) && j < |events| && events[j].AskApproval?
    requires Typed(states[j]) && Enabled(states[j], events[j]) && NextOp(states[j], events[j]).Running?
    ensures exists i :: UnbrokenSince(states, i, j, states[j].ops[events[j].op].pool)
  {
    InvAlways(states, events, j);
    Inheritance(states[j], events[j]);
    var i := VouchedMeans(states, events, j, states[j].ops[events[j].op].pool);
  }

  /** Retired: known, off the registry, and without idle connections. */
  predicate IsRetired(s: State, p: PoolRef) {
    p in s.heap && !Registered(s, p)
  }

  lemma StaysRetiredStep(s: State, e: Event, p: PoolRef)
    requires Inv(s) && Enabled(s, e) && IsRetired(s, p)
    ensures IsRetired(After(s, e), p)
  {
    if OfOperation(e) {
      CoreMoves(s, e);
      OperationBalanced(s, e);
    } else if e.Begin? {
      BeginRegistry(s, e.id, e.fingerprint, e.made, e.victim);
    }
  }

  /** A retired pool is never registered again and never has an idle connection. */
  lemma RetiredForGood(states: seq<State>, events: seq<Event>, i: nat, j: nat, p: PoolRef)
    requires Run(states, events) && i <= j < |states| && IsRetired(states[i], p)
    ensures IsRetired(states[j], p) && states[j].heap[p].idle == []
  {
    StepKeepsInv();
    forall s, e, t | Inv(s) && IsRetired(s, p) && Step(s, e, t) ensures IsRetired(t, p) {
      StaysRetiredStep(s, e, p);
    }
    Runs.Persists(EMPTY, Step, Inv, s => IsRetired(s, p), states, events, i, j);
    Runs.Invariant(EMPTY, Step, Inv, states, events, j);
    assert PoolApproval(states[j], p);
  }
}
