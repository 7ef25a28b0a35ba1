/**
 The driver's mutable pool objects. Every method is one section that the driver
 runs under its mutex, and is proved to do what the state machine of
 ConnectionPool says that section does.
 */
module PoolObjects {
  import opened ConnectionPool

  /** The answer to an approval request. */
  datatype Answer = Inherit | WaitFor(verdict: Verdict) | Validate(generation: nat)

  /** Some member of a set, in no particular order. */
  method AnyOf(s: set<Conn>) returns (c: Conn)
    requires s != {}
    ensures c in s
  {
    var boxes := set x | x in s :: Some(x);
    assert boxes == {} ==> s == {} by {
      assert forall x :: x in s ==> Some(x) in boxes;
    }
    var box :| box in boxes;
    c := box.value;
  }

  class LivePool {
    const id: string
    const fingerprint: string
    var tokens: nat
    var idle: seq<Conn>
    var users: nat
    var cancelled: bool
    var live: set<Conn>
    var approved: bool
    var generation: nat
    var validation: Option<Verdict>

    function Snapshot(): Pool
      reads this
    {
      Pool(id, fingerprint, tokens, idle, users, cancelled, live, approved, generation, validation)
    }

    constructor (id: string, fingerprint: string)
      ensures Snapshot() == Pool(id, fingerprint, 0, [], 0, false, {}, false, 0, None)
    {
      this.id, this.fingerprint := id, fingerprint;
      tokens, idle, users, cancelled, live, approved, generation, validation := 0, [], 0, false, {}, false, 0, None;
    }

    method Forget(cleaned: set<Conn>)
      modifies this
      ensures Snapshot() == ForgetClosed(old(Snapshot()), cleaned)
    {
      var todo := live;
      while todo != {}
        invariant todo <= old(live) && live == old(live) - (cleaned - todo)
        invariant Snapshot() == old(Snapshot()).(live := live)
        decreases todo
      {
        var c := AnyOf(todo);
        if c in cleaned {
          live := live - {c};
        }
        todo := todo - {c};
      }
      if live == {} && approved {
        approved := false;
        generation := generation + 1;
      }
    }

    /** Takes idle connections from the end until one is not closed. */
    method Pick(closed: set<Conn>, cleaned: set<Conn>) returns (found: Option<Conn>)
      modifies this
      ensures (Snapshot(), found) == TakeIdle(ForgetClosed(old(Snapshot()), cleaned), closed, cleaned)
    {
      Forget(cleaned);
      found := None;
      ghost var start := Snapshot();
      while |idle| > 0
        invariant found.None?
        invariant TakeIdle(Snapshot(), closed, cleaned) == TakeIdle(start, closed, cleaned)
        decreases |idle|
      {
        var n := |idle| - 1;
        var c := idle[n];
        idle := idle[..n];
        if c !in closed {
          return Some(c);
        }
        live := live - {c};
        Forget(cleaned);
      }
    }

    method Ask(c: Conn, verdict: Verdict, cleaned: set<Conn>) returns (answer: Answer)
      modifies this
      ensures
        var joined := JoinLive(old(Snapshot()), c, cleaned);
        answer ==
          (if joined.approved then Inherit
           else if joined.validation.Some? then WaitFor(joined.validation.value)
           else Validate(joined.generation))
        && Snapshot() == if answer.Validate? then joined.(validation := Some(verdict)) else joined
    {
      Forget(cleaned);
      live := live + {c};
      if approved {
        return Inherit;
      }
      if validation.Some? {
        return WaitFor(validation.value);
      }
      validation := Some(verdict);
      return Validate(generation);
    }

    method Decide(ok: bool, cleaned: set<Conn>)
      modifies this
      ensures Snapshot() == Conclude(old(Snapshot()), cleaned, ok)
    {
      Forget(cleaned);
      approved := ok;
      validation := None;
    }

    method Drop(c: Conn, cleaned: set<Conn>)
      modifies this
      ensures Snapshot() == ForgetClosed(old(Snapshot()).(live := old(live) - {c}), cleaned)
    {
      live := live - {c};
      Forget(cleaned);
    }

    /** Ends a pool's life; its idle connections pass to the caller. */
    method Retire() returns (given: seq<Conn>)
      modifies this
      ensures Snapshot() == Retired(old(Snapshot())) && given == old(idle)
    {
      approved := false;
      generation := generation + 1;
      cancelled := true;
      given := idle;
      idle := [];
    }

    twostate predicate RetiredNow()
      reads this
    {
      Snapshot() == Retired(old(Snapshot()))
    }

    /** The last section of a release: a kept connection of a registered pool goes
        back to the idle list; otherwise the caller still has to close it. */
    method Leave(kept: Option<Conn>, registered: bool, cleaned: set<Conn>) returns (toClose: Option<Conn>)
      requires users > 0
      modifies this
      ensures
        var left := ForgetClosed(old(Snapshot()), cleaned);
        Snapshot() == left.(users := left.users - 1,
                            idle := left.idle + if kept.Some? && registered then [kept.value] else [])
      ensures toClose == if registered then None else kept
    {
      Forget(cleaned);
      toClose := kept;
      if toClose.Some? && registered {
        idle := idle + [toClose.value];
        toClose := None;
      } else {
        assert idle + [] == idle;
      }
      users := users - 1;
    }
  }

  class Driver {
    var pools: map<string, LivePool>
    var closed: bool
    var epoch: nat

    ghost predicate Valid()
      reads this, pools.Values
    {
      && |pools| <= MAX_POOLS
      && (forall id :: id in pools ==> pools[id].id == id)
      && (closed ==> pools == map[])
    }

    constructor ()
      ensures Valid() && pools == map[] && !closed
    {
      pools, closed, epoch := map[], false, 0;
    }

    /** The pool on file for a profile, as a frame. */
    ghost function Entry(id: string): set<LivePool>
      reads this
    {
      if id in pools then {pools[id]} else {}
    }

    /** Takes a pool off the registry and hands its idle connections to the caller. */
    method RetireLocked(id: string) returns (idle: seq<Conn>)
      requires Valid()
      modifies this`pools, Entry(id)
      ensures Valid() && pools == old(pools) - {id} && |pools| == old(|pools|) - (if id in old(pools) then 1 else 0)
      ensures id in old(pools) ==>
        old(pools)[id].Snapshot() == Retired(old(pools[id].Snapshot())) && idle == old(pools[id].idle)
      ensures id !in old(pools) ==> idle == []
    {
      idle := [];
      if id in pools {
        idle := pools[id].Retire();
        assert pools.Keys == (pools - {id}).Keys + {id};
        pools := pools - {id};
      }
    }

    method Invalidate(id: string) returns (idle: seq<Conn>)
      requires Valid()
      modifies this, Entry(id)
      ensures Valid() && pools == old(pools) - {id} && epoch == old(epoch) + 1 && closed == old(closed)
      ensures id in old(pools) ==> old(pools)[id].Snapshot() == Retired(old(pools[id].Snapshot())) && idle == old(pools[id].idle)
      ensures id !in old(pools) ==> idle == []
    {
      epoch := epoch + 1;
      idle := RetireLocked(id);
    }

    /** Retires every pool; the driver admits no checkout afterwards. */
    method Close()
      requires Valid()
      modifies this, pools.Values
      ensures Valid() && closed && pools == map[]
      ensures forall id :: id in old(pools) ==> old(pools)[id].RetiredNow()
    {
      hide LivePool.Snapshot;
      while |pools| > 0
        invariant Valid() && pools.Keys <= old(pools).Keys
        invariant forall id :: id in pools ==> pools[id] == old(pools)[id] && unchanged(pools[id])
        invariant forall id :: id in old(pools) && id !in pools ==> old(pools)[id].RetiredNow()
        decreases |pools|
      {
        RetireOne();
      }
      closed := true;
    }

    method RetireOne()
      requires Valid() && |pools| > 0
      modifies this`pools, pools.Values
      ensures Valid() && pools.Keys < old(pools).Keys && |pools| < old(|pools|)
      ensures forall id :: id in pools ==> pools[id] == old(pools)[id] && unchanged(pools[id])
      ensures forall id :: id in old(pools) && id !in pools ==> old(pools)[id].RetiredNow()
    {
      assert |pools.Keys| > 0;
      var id :| id in pools.Keys;
      var _ := RetireLocked(id);
    }

    /** Looks for a pool without users. */
    method FindIdle() returns (victim: Option<string>)
      ensures victim.Some? ==> victim.value in pools && pools[victim.value].users == 0
      ensures victim.None? ==> forall id :: id in pools ==> pools[id].users > 0
    {
      victim := None;
      var todo := pools.Keys;
      while |todo| > 0
        invariant todo <= pools.Keys && victim.None?
        invariant forall id :: id in pools && id !in todo ==> pools[id].users > 0
        decreases |todo|
      {
        var id :| id in todo;
        if pools[id].users == 0 {
          return Some(id);
        }
        todo := todo - {id};
      }
    }

    /** Evicts a pool without users when the registry is full. */
    method MakeRoomFor() returns (full: bool)
      requires Valid() && !closed
      modifies this`pools, pools.Values
      ensures Valid() && full == (|pools| == MAX_POOLS)
      ensures full ==> pools == old(pools) && forall x :: x in pools ==> pools[x].users > 0
      ensures forall x :: x in pools ==> x in old(pools) && pools[x] == old(pools)[x] && unchanged(pools[x])
      ensures forall x :: x in old(pools) && x !in pools ==> old(pools[x].users) == 0 && |old(pools)| == MAX_POOLS
    {
      if |pools| < MAX_POOLS {
        return false;
      }
      var victim := FindIdle();
      if victim.Some? {
        var _ := RetireLocked(victim.value);
      }
      return victim.None?;
    }

    /** A new pool for a profile that has none. */
    method Admit(id: string, fingerprint: string) returns (pool: LivePool)
      requires Valid() && !closed && id !in pools && |pools| < MAX_POOLS
      modifies this`pools
      ensures Valid() && fresh(pool) && pools == old(pools)[id := pool]
      ensures pool.Snapshot() == Pool(id, fingerprint, 0, [], 0, false, {}, false, 0, None)
    {
      pool := new LivePool(id, fingerprint);
      assert pools[id := pool].Keys == pools.Keys + {id};
      pools := pools[id := pool];
    }

    /** Replaces or creates the pool of a profile. */
    method Renew(id: string, fingerprint: string) returns (pool: LivePool?)
      requires Valid() && !closed
      modifies this`pools, pools.Values
      ensures Valid()
      ensures pool == null ==> |pools| == MAX_POOLS && id !in pools && forall x :: x in pools ==> pools[x].users > 0
      ensures pool != null ==>
        && fresh(pool) && id in pools && pools[id] == pool
        && pool.Snapshot() == Pool(id, fingerprint, 0, [], 0, false, {}, false, 0, None)
      ensures forall x :: x in pools && x != id ==> x in old(pools) && pools[x] == old(pools)[x] && unchanged(pools[x])
      ensures forall x :: x in old(pools) && x !in pools && x != id ==>
        old(pools[x].users) == 0 && |old(pools)| == MAX_POOLS
    {
      if id in pools {
        var _ := RetireLocked(id);
        assert |pools| < MAX_POOLS;
      } else {
        var full := MakeRoomFor();
        if full {
          return null;
        }
      }
      pool := Admit(id, fingerprint);
    }

    /** The first section of checkout. A refusal leaves the registry full of pools
        in use; an admission evicts at most one pool, never one with users, and
        never serves a profile from a pool with other credentials. */
    method Checkout(id: string, fingerprint: string) returns (pool: LivePool?)
      requires Valid()
      modifies this`pools, pools.Values
      ensures Valid()
      ensures pool == null ==>
        closed || (|pools| == MAX_POOLS && id !in pools && forall x :: x in pools ==> pools[x].users > 0)
      ensures pool != null ==> !closed && id in pools && pools[id] == pool && pool.fingerprint == fingerprint
      ensures pool != null && !fresh(pool) ==>
        id in old(pools) && pool == old(pools)[id]
        && pool.Snapshot() == old(pools[id].Snapshot()).(users := old(pools[id].users) + 1)
      ensures pool != null && fresh(pool) ==>
        (id in old(pools) ==> old(pools[id].fingerprint) != fingerprint)
        && pool.Snapshot() == Pool(id, fingerprint, 0, [], 1, false, {}, false, 0, None)
      ensures forall x :: x in pools && x != id ==>
        x in old(pools) && pools[x] == old(pools)[x] && unchanged(pools[x])
      ensures forall x :: x in old(pools) && x !in pools && x != id ==>
        old(pools[x].users) == 0 && |old(pools)| == MAX_POOLS
    {
      if closed {
        return null;
      }
      if id in pools && pools[id].fingerprint == fingerprint {
        pool := pools[id];
      } else {
        pool := Renew(id, fingerprint);
        if pool == null {
          return;
        }
      }
      pool.users := pool.users + 1;
    }
  }
}
