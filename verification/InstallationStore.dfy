/**
 The store of an installation directory: the operations that carry out the plans of
 the purge one file-system step at a time, each ending with its plan done or where it
 was stopped.
 */
module InstallationStore {
  import opened InstallationDisk
  import opened PurgeStore

  /** What a call leaves: its whole plan, or where it was stopped. */
  ghost predicate Left(d: Disk, plan: seq<Op>, r: Disk, ok: bool) {
    if ok then r == DoAll(d, plan) else Stopped(d, plan, r)
  }

  lemma StoppedAt(d: Disk, plan: seq<Op>, k: nat, gone: set<Path>, r: Disk)
    requires k <= |plan| && gone <= SIBLINGS && r == DoAll(d, plan[..k]) - gone
    ensures Stopped(d, plan, r)
  {}

  lemma LeftThen(d: Disk, a: seq<Op>, m: Disk, b: seq<Op>, r: Disk, ok: bool)
    requires Left(d, a, m, true) && Left(m, b, r, ok)
    ensures Left(d, a + b, r, ok)
  {
    DoConcat(d, a, b);
    StoppedSplit(d, a, b, r);
  }

  lemma LeftEarly(d: Disk, a: seq<Op>, b: seq<Op>, r: Disk)
    requires Left(d, a, r, false)
    ensures Left(d, a + b, r, false)
  {
    StoppedSplit(d, a, b, r);
  }

  /** `budget` counts the mutations until the process dies or an operation fails. */
  class Store {
    const root: nat
    const dies: bool
    var disk: Disk
    var budget: nat
    var identity: Identity

    constructor (root: nat, disk: Disk, budget: nat, dies: bool, identity: Identity)
      ensures this.root == root && this.dies == dies && this.disk == disk && this.budget == budget && this.identity == identity
    {
      this.root, this.dies, this.disk, this.budget, this.identity := root, dies, disk, budget, identity;
    }

    method Mutate(op: Op) returns (ok: bool)
      modifies this`disk, this`budget
      ensures disk == if ok then Do(old(disk), op) else old(disk)
      ensures old(budget) >= 1 ==> ok && budget == old(budget) - 1
    {
      ok := budget > 0;
      if ok {
        disk, budget := Do(disk, op), budget - 1;
      }
    }

    /** A directory sync: a point at which the operation can still fail. */
    method Sync() returns (ok: bool)
      modifies this`budget
      ensures old(budget) >= 1 ==> ok && budget == old(budget) - 1
    {
      ok := budget > 0;
      if ok {
        budget := budget - 1;
      }
    }

    method Replace(p: Path, content: Content) returns (ok: bool)
      requires Published(p)
      modifies this`disk, this`budget
      ensures Left(old(disk), ReplacePlan(p, content), disk, ok)
      ensures old(budget) >= 5 ==> ok && budget == old(budget) - 5
    {
      var plan, k := ReplacePlan(p, content), 0;
      ok := true;
      while k < 4 && ok
        invariant 0 <= k <= 4 && disk == DoAll(old(disk), plan[..k])
        invariant old(budget) >= 5 ==> ok && budget == old(budget) - k
        invariant !ok ==> old(budget) < 5
        decreases 4 - k, ok
      {
        DoConcat(old(disk), plan[..k], [plan[k]]);
        assert plan[..k + 1] == plan[..k] + [plan[k]];
        OneOp(disk, plan[k]);
        ok := Mutate(plan[k]);
        if ok {
          k := k + 1;
        }
      }
      if ok {
        ok := Sync();
      }
      assert plan[..4] == plan;
      if !ok && !dies {
        disk := disk - {Sibling(p)};
        StoppedAt(old(disk), plan, k, {Sibling(p)}, disk);
      } else {
        StoppedAt(old(disk), plan, k, {}, disk);
      }
    }

    method Remove(p: Path) returns (ok: bool)
      modifies this`disk, this`budget
      ensures Left(old(disk), [Unlink(p)], disk, ok)
      ensures old(budget) >= 2 ==> ok && budget >= old(budget) - 2
    {
      if p !in disk {
        ok := true;
      } else {
        ok := Mutate(Unlink(p));
        if ok {
          ok := Sync();
        }
      }
      OneOp(old(disk), Unlink(p));
      assert [Unlink(p)][..1] == [Unlink(p)];
      StoppedAt(old(disk), [Unlink(p)], if disk == old(disk) then 0 else 1, {}, disk);
    }

    method RemoveAll(paths: seq<Path>) returns (ok: bool)
      modifies this`disk, this`budget
      ensures Left(old(disk), Unlinks(paths), disk, ok)
      ensures old(budget) >= 2 * |paths| ==> ok && budget >= old(budget) - 2 * |paths|
    {
      var i := 0;
      ok := true;
      while i < |paths|
        invariant 0 <= i <= |paths| && ok && disk == DoAll(old(disk), Unlinks(paths[..i]))
        invariant old(budget) >= 2 * |paths| ==> budget >= old(budget) - 2 * i
      {
        ghost var m, done, rest := disk, paths[..i], paths[i..];
        UnlinksSplit(done, rest);
        UnlinksSplit(done, [paths[i]]);
        assert Unlinks([paths[i]]) == [Unlink(paths[i])];
        assert done + rest == paths && done + [paths[i]] == paths[..i + 1];
        ok := Remove(paths[i]);
        LeftThen(old(disk), Unlinks(done), m, [Unlink(paths[i])], disk, ok);
        if !ok {
          LeftEarly(m, [Unlink(paths[i])], Unlinks(rest[1..]), disk);
          LeftThen(old(disk), Unlinks(done), m, Unlinks(rest), disk, ok);
          return;
        }
        i := i + 1;
      }
      assert paths[..i] == paths;
    }

    /** A check of a lease that tolerates purging and pending installations. */
    predicate Check()
      reads this
    {
      Admits(VerifyIdentity(disk, root, identity.id), true)
    }

    /** Opens a stable lock; only a purge may recreate a missing one. */
    method Lock(p: Path, create: bool) returns (ok: bool)
      modifies this`disk, this`budget
      ensures Left(old(disk), Touches(Created(p, create)), disk, ok)
      ensures ok ==> p in disk && (create || p in old(disk))
      ensures disk == old(disk) || (p !in old(disk) && disk == old(disk)[p := EMPTY])
      ensures old(budget) >= 1 && (create || p in old(disk)) ==> ok && budget >= old(budget) - 1
    {
      if p in disk {
        ok := true;
      } else if !create {
        ok := false;
      } else {
        ok := Mutate(Touch(p));
      }
      assert Touches([p]) == [Touch(p)];
      OneOp(old(disk), Touch(p));
      if !ok {
        StoppedAt(old(disk), Touches(Created(p, create)), 0, {}, disk);
      }
    }

    /** Lifecycle, then the state locks, with the checks of both leases. */
    method TakeLocks(terminal: bool) returns (ok: bool)
      modifies this`disk, this`budget
      ensures Left(old(disk), Touches(Locks(Pinned(identity, terminal))), disk, ok)
      ensures ok ==> LifecycleLock in disk && Check() && Lockable(old(disk), identity, terminal)
      ensures Check() == old(Check())
      ensures old(budget) >= 3 && old(Check()) && Lockable(old(disk), identity, terminal) ==> ok && budget >= old(budget) - 3
    {
      hide Touches, VerifyIdentity;
      ghost var d := disk;
      ghost var one, two, three := Created(LifecycleLock, terminal), Created(GateLock, identity.purging), Created(StateLock, identity.purging);
      assert Locks(Pinned(identity, terminal)) == one + (two + three);
      TouchesSplit(one, two + three);
      TouchesSplit(two, three);
      ok := Lock(LifecycleLock, terminal);
      LockIgnored(d, LifecycleLock, root, identity.id);
      if !ok || !Check() {
        if ok {
          StoppedAt(disk, Touches(two + three), 0, {}, disk);
          LeftThen(d, Touches(one), disk, Touches(two + three), disk, false);
        } else {
          LeftEarly(d, Touches(one), Touches(two + three), disk);
        }
        return false;
      }
      ghost var d1 := disk;
      ok := Lock(GateLock, identity.purging);
      LockIgnored(d1, GateLock, root, identity.id);
      if !ok {
        LeftEarly(d1, Touches(two), Touches(three), disk);
      } else {
        ghost var d2 := disk;
        ok := Lock(StateLock, identity.purging);
        LockIgnored(d2, StateLock, root, identity.id);
        LeftThen(d1, Touches(two), d2, Touches(three), disk, ok);
      }
      LeftThen(d, Touches(one), d1, Touches(two + three), disk, ok);
      if ok {
        ok := Check();
      }
    }

    /** Uninstall with purge, from opening the directory to the last unlink: `readable`
        says whether a service record that is there can be read and its service stopped,
        `saves` what is published while agents are removed. Without an identity there is
        no authority to remove anything: it succeeds only when no owned name is left. */
    method Uninstall(readable: bool, saves: seq<nat>) returns (ok: bool)
      modifies this
      ensures var o := OpenExisting(old(disk), root, true);
        if o.Failed? then disk == old(disk) && (ok ==> Gone(disk, true))
        else Left(old(disk), UninstallPlan(o, Work(ServiceRecord in old(disk), saves)), disk, ok)
      ensures var o := OpenExisting(old(disk), root, true);
        o.Pinned? && old(budget) >= 76 + 5 * |saves| ==>
          (ok <==> Removable(old(disk), o) && (ServiceRecord in old(disk) ==> readable))
      ensures OpenExisting(old(disk), root, true) == Failed(Missing) && Gone(old(disk), true) ==> ok
    {
      var o := OpenExisting(disk, root, true);
      if o.Failed? {
        return o.error.Missing? && Gone(disk, true);
      }
      identity := o.identity;
      ok := UninstallOpened(o, readable, saves);
    }

    method UninstallOpened(o: Opened, readable: bool, saves: seq<nat>) returns (ok: bool)
      requires o == OpenExisting(disk, root, true) && o.Pinned? && identity == o.identity
      modifies this
      ensures Left(old(disk), UninstallPlan(o, Work(ServiceRecord in old(disk), saves)), disk, ok)
      ensures old(budget) >= 76 + 5 * |saves| ==>
        (ok <==> Removable(old(disk), o) && (ServiceRecord in old(disk) ==> readable))
    {
      OpenedHere(disk, root);
      RemovableChecks(disk, root);
      hide ServicePlan, ClearPlan, PurgePlan, Touches, VerifyIdentity, Locks, OpenExisting, Stopped, Left, Lockable;
      ghost var d, w := disk, Work(ServiceRecord in disk, saves);
      ghost var locks, service, clear, purge := Touches(Locks(o)), ServicePlan(w), ClearPlan(identity), PurgePlan(Cleared(identity));
      assert UninstallPlan(o, w) == locks + service + clear + purge;
      LocksOnly(d, o);
      ok := TakeLocks(o.terminal);
      if !ok {
        LeftEarly(d, locks, service, disk);
        LeftEarly(d, locks + service, clear, disk);
        LeftEarly(d, locks + service + clear, purge, disk);
        return;
      }
      LeftDone(d, locks, disk);
      ghost var d1 := disk;
      ok := RemoveRecords(readable, saves);
      LeftThen(d, locks, d1, service, disk, ok);
      if !ok {
        LeftEarly(d, locks + service, clear, disk);
        LeftEarly(d, locks + service + clear, purge, disk);
        return;
      }
      LeftDone(d1, service, disk);
      ghost var d2 := disk;
      ServiceKeeps(d1, w, root, identity.id);
      ok := ClearPending();
      LeftThen(d, locks + service, d2, clear, disk, ok);
      if !ok {
        LeftEarly(d, locks + service + clear, purge, disk);
        return;
      }
      LeftDone(d2, clear, disk);
      ghost var d3 := disk;
      ClearKeeps(d2, o, root);
      ok := Purge();
      LeftThen(d, locks + service + clear, d3, purge, disk, ok);
    }

    /** Stops a recorded service, removes its files, saves registrations while agents are
        removed, and then removes what is left of both. */
    method RemoveRecords(readable: bool, saves: seq<nat>) returns (ok: bool)
      modifies this`disk, this`budget
      ensures Left(old(disk), ServicePlan(Work(ServiceRecord in old(disk), saves)), disk, ok)
      ensures ok ==> (ServiceRecord in old(disk) ==> readable)
      ensures old(Check()) && (ServiceRecord in old(disk) ==> readable) && old(budget) >= 18 + 5 * |saves| ==>
        ok && budget >= old(budget) - 18 - 5 * |saves|
    {
      hide VerifyIdentity, Unlinks, Saves;
      ghost var d, stopping, saving, records := disk, if ServiceRecord in disk then Unlinks(STOPPING) else [], Saves(saves), Unlinks(RECORDS);
      RecordsHaveNoAuthority();
      ok := true;
      if ServiceRecord in disk {
        ok := readable;
        if ok {
          ok := RemoveChecked(STOPPING);
        } else {
          StoppedAt(disk, stopping, 0, {}, disk);
        }
      }
      if !ok {
        LeftTail(d, [], d, stopping, saving + records, disk);
        assert [] + stopping + (saving + records) == stopping + saving + records;
        return;
      }
      ghost var d1 := disk;
      ok := SaveAll(saves);
      if !ok {
        LeftTail(d, stopping, d1, saving, records, disk);
        return;
      }
      LeftThen(d, stopping, d1, saving, disk, true);
      ghost var d2 := disk;
      ok := RemoveChecked(RECORDS);
      LeftThen(d, stopping + saving, d2, records, disk, ok);
    }

    /** Removals under the lifecycle lease, each with its own check. */
    method RemoveChecked(paths: seq<Path>) returns (ok: bool)
      modifies this`disk, this`budget
      ensures Left(old(disk), Unlinks(paths), disk, ok)
      ensures old(Check()) && NoAuthority(paths) && old(budget) >= 2 * |paths| ==>
        ok && budget >= old(budget) - 2 * |paths| && Check()
    {
      var i := 0;
      ok := true;
      while i < |paths|
        invariant 0 <= i <= |paths| && ok && disk == DoAll(old(disk), Unlinks(paths[..i]))
        invariant old(Check()) && NoAuthority(paths) && old(budget) >= 2 * |paths| ==> budget >= old(budget) - 2 * i && Check()
      {
        hide VerifyIdentity;
        ghost var m, done, rest := disk, paths[..i], paths[i..];
        UnlinksSplit(done, rest);
        UnlinksSplit(done, [paths[i]]);
        assert Unlinks([paths[i]]) == [Unlink(paths[i])];
        assert done + rest == paths && done + [paths[i]] == paths[..i + 1];
        UnlinkIgnored(m, paths[i], root, identity.id);
        ok := Delete(paths[i]);
        LeftThen(old(disk), Unlinks(done), m, [Unlink(paths[i])], disk, ok);
        if !ok {
          LeftEarly(m, [Unlink(paths[i])], Unlinks(rest[1..]), disk);
          LeftThen(old(disk), Unlinks(done), m, Unlinks(rest), disk, ok);
          return;
        }
        i := i + 1;
      }
      assert paths[..i] == paths;
    }

    method SaveAll(saves: seq<nat>) returns (ok: bool)
      modifies this`disk, this`budget
      ensures Left(old(disk), Saves(saves), disk, ok)
      ensures old(Check()) && old(budget) >= 5 * |saves| ==> ok && budget >= old(budget) - 5 * |saves| && Check()
    {
      var i := 0;
      ok := true;
      while i < |saves|
        invariant 0 <= i <= |saves| && ok && disk == DoAll(old(disk), Saves(saves[..i]))
        invariant old(Check()) && old(budget) >= 5 * |saves| ==> budget >= old(budget) - 5 * i && Check()
      {
        hide VerifyIdentity, ReplacePlan;
        ghost var m, done, rest := disk, saves[..i], saves[i..];
        ghost var plan := ReplacePlan(Registrations, Other(saves[i]));
        SavesSplit(done, rest);
        SavesSplit(done, [saves[i]]);
        OneSave(saves[i]);
        assert done + rest == saves && done + [saves[i]] == saves[..i + 1];
        SaveIgnored(m, saves[i], root, identity.id);
        ok := Save(saves[i]);
        LeftThen(old(disk), Saves(done), m, plan, disk, ok);
        if !ok {
          LeftEarly(m, plan, Saves(rest[1..]), disk);
          LeftThen(old(disk), Saves(done), m, Saves(rest), disk, ok);
          return;
        }
        i := i + 1;
      }
      assert saves[..i] == saves;
    }

    method Save(document: nat) returns (ok: bool)
      modifies this`disk, this`budget
      ensures Left(old(disk), ReplacePlan(Registrations, Other(document)), disk, ok)
      ensures old(Check()) && old(budget) >= 5 ==> ok && budget == old(budget) - 5
    {
      if !Check() {
        StoppedAt(disk, ReplacePlan(Registrations, Other(document)), 0, {}, disk);
        return false;
      }
      ok := Replace(Registrations, Other(document));
    }

    /** A flag that an older installer left is cleared under the state lease. */
    method ClearPending() returns (ok: bool)
      modifies this
      ensures Left(old(disk), ClearPlan(old(identity)), disk, ok)
      ensures identity == if ok then Cleared(old(identity)) else old(identity)
      ensures old(Check()) && old(budget) >= 5 ==> ok && budget >= old(budget) - 5
    {
      if !identity.pending {
        return true;
      }
      if !Check() {
        StoppedAt(disk, ClearPlan(identity), 0, {}, disk);
        return false;
      }
      ok := Replace(Installation, Record(Cleared(identity)));
      if ok {
        identity := Cleared(identity);
      }
    }

    /** From the durable flag to the last unlink. */
    method Purge() returns (ok: bool)
      modifies this
      ensures Left(old(disk), PurgePlan(old(identity)), disk, ok)
      ensures old(budget) >= 50 && LifecycleLock in old(disk) && old(identity).root == root ==> (ok <==> old(Check()))
    {
      hide Unlinks, ReplacePlan, VerifyIdentity, FinishPlan, Recoverable;
      var purging := identity.(purging := true);
      ghost var d, head := disk, ReplacePlan(Installation, Record(purging)) + Unlinks(DATA);
      var finish := FinishPlan(purging);
      assert PurgePlan(identity) == head + finish;
      FlagKept(d, purging);
      ok := PurgeLocked();
      if !ok {
        LeftEarly(d, head, finish, disk);
        return;
      }
      ghost var d1 := disk;
      ok := FinishPurge();
      LeftThen(d, head, d1, finish, disk, ok);
    }

    method BeginPurge() returns (ok: bool)
      modifies this
      ensures Left(old(disk), ReplacePlan(Installation, Record(old(identity).(purging := true))), disk, ok)
      ensures identity == if ok then old(identity).(purging := true) else old(identity)
      ensures !old(Check()) ==> !ok && disk == old(disk)
      ensures old(budget) >= 5 && old(Check()) ==> ok && budget >= old(budget) - 5
    {
      var purging := identity.(purging := true);
      if !Check() {
        StoppedAt(disk, ReplacePlan(Installation, Record(purging)), 0, {}, disk);
        return false;
      }
      ok := Replace(Installation, Record(purging));
      if ok {
        identity := purging;
      }
    }

    /** Everything after the key deletion. */
    method FinishPurge() returns (ok: bool)
      modifies this`disk, this`budget
      ensures Left(old(disk), FinishPlan(identity), disk, ok)
      ensures !(identity.purging && old(Check())) ==> !ok && disk == old(disk)
      ensures Recoverable(old(disk), identity) && identity.root == root && Installation in old(disk) && old(budget) >= 41 ==> ok
    {
      ghost var d, first, last := disk, Unlinks(First(identity.executable)), Unlinks(TERMINAL) + [Unlink(Receipt)];
      ghost var replace := ReplacePlan(Receipt, Record(identity));
      assert FinishPlan(identity) == first + (replace + last);
      if !identity.purging || !Check() {
        StoppedAt(disk, FinishPlan(identity), 0, {}, disk);
        return false;
      }
      ok := RemoveFirst();
      if !ok {
        LeftEarly(d, first, replace + last, disk);
        return;
      }
      ghost var d1 := disk;
      ok := Replace(Receipt, Record(identity));
      if !ok {
        LeftEarly(d1, replace, last, disk);
        LeftThen(d, first, d1, replace + last, disk, ok);
        return;
      }
      ghost var d2 := disk;
      ok := RemoveAll(TERMINAL);
      if !ok {
        LeftEarly(d2, Unlinks(TERMINAL), [Unlink(Receipt)], disk);
      } else {
        ghost var d3 := disk;
        ok := Remove(Receipt);
        LeftThen(d2, Unlinks(TERMINAL), d3, [Unlink(Receipt)], disk, ok);
      }
      LeftThen(d1, replace, d2, last, disk, ok);
      LeftThen(d, first, d1, replace + last, disk, ok);
    }

    method Delete(p: Path) returns (ok: bool)
      modifies this`disk, this`budget
      ensures Left(old(disk), [Unlink(p)], disk, ok)
      ensures old(Check()) && old(budget) >= 2 ==> ok && budget >= old(budget) - 2
    {
      if !Check() {
        StoppedAt(disk, [Unlink(p)], 0, {}, disk);
        return false;
      }
      ok := Remove(p);
    }

    /** Revokes admission, then removes the database; key deletion is external. */
    method PurgeLocked() returns (ok: bool)
      modifies this
      ensures Left(old(disk), ReplacePlan(Installation, Record(old(identity).(purging := true))) + Unlinks(DATA), disk, ok)
      ensures ok ==> identity == old(identity).(purging := true)
      ensures ok ==> old(Check())
      ensures old(budget) >= 9 && old(Check()) && old(identity).root == root ==> ok && budget >= old(budget) - 9
    {
      ghost var d := disk;
      ghost var replace := ReplacePlan(Installation, Record(identity.(purging := true)));
      assert Unlinks(DATA) == [Unlink(Journal)] + [Unlink(Database)];
      ok := BeginPurge();
      if !ok {
        LeftEarly(d, replace, Unlinks(DATA), disk);
        return;
      }
      ghost var d1 := disk;
      DataKept(d, identity);
      ok := Delete(Journal);
      if !ok {
        LeftEarly(d1, [Unlink(Journal)], [Unlink(Database)], disk);
      } else {
        ghost var d2 := disk;
        OneOp(d1, Unlink(Journal));
        ok := Delete(Database);
        LeftThen(d1, [Unlink(Journal)], d2, [Unlink(Database)], disk, ok);
      }
      LeftThen(d, replace, d1, Unlinks(DATA), disk, ok);
    }

    /** The ordinary owned files, and the executable under a fresh check. */
    method RemoveFirst() returns (ok: bool)
      modifies this`disk, this`budget
      ensures Left(old(disk), Unlinks(First(identity.executable)), disk, ok)
      ensures Recoverable(old(disk), identity) && identity.root == root && old(budget) >= 24 ==> ok && budget >= old(budget) - 24
    {
      hide Recoverable, VerifyIdentity, Unlinks;
      ghost var d := disk;
      var binary := if identity.executable then [Executable] else [];
      UnlinksSplit(ORDINARY, binary);
      ok := RemoveAll(ORDINARY);
      if !ok {
        LeftEarly(d, Unlinks(ORDINARY), Unlinks(binary), disk);
        return;
      }
      ghost var d1 := disk;
      OrdinaryKept(d, identity);
      if !Check() {
        StoppedAt(d1, Unlinks(binary), 0, {}, disk);
        LeftThen(d, Unlinks(ORDINARY), d1, Unlinks(binary), disk, false);
        return false;
      }
      ok := RemoveAll(binary);
      LeftThen(d, Unlinks(ORDINARY), d1, Unlinks(binary), disk, ok);
    }
  }

  function Created(p: Path, create: bool): seq<Path> {
    if create then [p] else []
  }

  lemma {:induction false} TouchesSplit(a: seq<Path>, b: seq<Path>)
    ensures Touches(a + b) == Touches(a) + Touches(b)
    decreases |a|
  {
    if a == [] {
      assert a + b == b;
    } else {
      assert (a + b)[1..] == a[1..] + b;
      TouchesSplit(a[1..], b);
    }
  }

  /** Every lock is there, or a purge may have taken it away. */
  predicate Lockable(d: Disk, identity: Identity, terminal: bool) {
    (terminal || LifecycleLock in d) && (identity.purging || (GateLock in d && StateLock in d))
  }

  /** What an uninstall of an opened directory needs: an established installation or one that
      an earlier purge began to remove, with its locks. */
  predicate Removable(d: Disk, o: Opened)
    requires o.Pinned?
  {
    (o.identity.purging || o.identity.established) && Lockable(d, o.identity, o.terminal)
  }

  lemma RemovableChecks(d: Disk, root: nat)
    ensures var o := OpenExisting(d, root, true);
      o.Pinned? ==>
        && o.identity.root == root
        && (Admits(VerifyIdentity(d, root, o.identity.id), true) <==>
              o.identity.purging || o.identity.pending || o.identity.established)
        && (Recoverable(d, o.identity) ==> Removable(d, o))
        && (Installed(d, o.identity) && o.identity.established ==> Removable(d, o))
  {}

  /** Locks say nothing about the identity. */
  lemma LockIgnored(d: Disk, p: Path, root: nat, id: nat)
    requires IsLock(p)
    ensures VerifyIdentity(d[p := EMPTY], root, id) == VerifyIdentity(d, root, id)
  {}

  /** Nor does anything else without authority. */
  ghost predicate SameAuthority(d: Disk, r: Disk) {
    forall p | Authority(p) :: (p in r <==> p in d) && (p in d ==> r[p] == d[p])
  }

  lemma {:induction false} OrdinaryKeeps(d: Disk, ops: seq<Op>, executable: bool)
    requires forall op <- ops :: Ordinary(op, executable)
    ensures SameAuthority(d, DoAll(d, ops))
    decreases |ops|
  {
    if ops != [] {
      assert Ordinary(ops[0], executable);
      OrdinaryKeeps(Do(d, ops[0]), ops[1..], executable);
    }
  }

  lemma ServiceKeeps(d: Disk, w: Work, root: nat, id: nat)
    ensures var r := DoAll(d, ServicePlan(w));
      VerifyIdentity(r, root, id) == VerifyIdentity(d, root, id) && (LifecycleLock in r <==> LifecycleLock in d)
  {
    ServiceOrdinary(w, false);
    OrdinaryKeeps(d, ServicePlan(w), false);
  }

  /** Without the pending flag only an established or purging installation still passes. */
  lemma ClearKeeps(d: Disk, o: Opened, root: nat)
    requires o.Pinned? && o.identity.root == root && LifecycleLock in d
    requires Admits(VerifyIdentity(d, root, o.identity.id), true) <==>
      o.identity.purging || o.identity.pending || o.identity.established
    ensures var r := DoAll(d, ClearPlan(o.identity));
      && LifecycleLock in r
      && (Admits(VerifyIdentity(r, root, o.identity.id), true) <==> o.identity.purging || o.identity.established)
  {
    ReplaceAll(d, Installation, Record(Cleared(o.identity)));
  }

  lemma LocksOnly(d: Disk, o: Opened)
    requires o.Pinned?
    ensures ServiceRecord in DoAll(d, Touches(Locks(o))) <==> ServiceRecord in d
  {
    LocksLeave(d, Locks(o));
  }

  lemma {:induction false} LocksLeave(d: Disk, paths: seq<Path>)
    requires forall p <- paths :: IsLock(p)
    ensures ServiceRecord in DoAll(d, Touches(paths)) <==> ServiceRecord in d
    decreases |paths|
  {
    if paths != [] {
      assert IsLock(paths[0]);
      LocksLeave(Do(d, Touch(paths[0])), paths[1..]);
    }
  }

  lemma LeftTail(d: Disk, done: seq<Op>, m: Disk, stage: seq<Op>, rest: seq<Op>, r: Disk)
    requires Left(d, done, m, true) && Left(m, stage, r, false)
    ensures Left(d, done + stage + rest, r, false)
  {
    LeftThen(d, done, m, stage, r, false);
    LeftEarly(d, done + stage, rest, r);
  }

  lemma LeftDone(d: Disk, plan: seq<Op>, r: Disk)
    requires Left(d, plan, r, true)
    ensures r == DoAll(d, plan)
  {}

  lemma OpenedHere(d: Disk, root: nat)
    ensures OpenExisting(d, root, true).Pinned? ==>
      var o := OpenExisting(d, root, true); o.identity.root == root && o.terminal == (Installation !in d)
  {}

  /** The flag makes a directory with a lifecycle lock recoverable, whatever it was before. */
  lemma FlagKept(d: Disk, identity: Identity)
    requires identity.purging
    ensures LifecycleLock in d ==>
      var d2 := DoAll(d, ReplacePlan(Installation, Record(identity)) + Unlinks(DATA));
      Recoverable(d2, identity) && Installation in d2
  {
    if LifecycleLock in d {
      var d1 := DoAll(d, ReplacePlan(Installation, Record(identity)));
      ReplaceAll(d, Installation, Record(identity));
      assert Recoverable(d1, identity);
      hide Recoverable, Unlinks, ReplacePlan, SameOutside, Gone;
      DataIsOrdinary(identity.executable);
      OrdinaryUnlinks(d1, identity, d1, DATA);
      DoConcat(d, ReplacePlan(Installation, Record(identity)), Unlinks(DATA));
    }
  }

  predicate NoAuthority(paths: seq<Path>) {
    forall p <- paths :: !Authority(p)
  }

  lemma RecordsHaveNoAuthority()
    ensures NoAuthority(STOPPING) && NoAuthority(RECORDS)
  {}

  lemma UnlinkIgnored(d: Disk, p: Path, root: nat, id: nat)
    ensures !Authority(p) ==> VerifyIdentity(DoAll(d, [Unlink(p)]), root, id) == VerifyIdentity(d, root, id)
  {
    OneOp(d, Unlink(p));
  }

  lemma SaveIgnored(d: Disk, document: nat, root: nat, id: nat)
    ensures VerifyIdentity(DoAll(d, ReplacePlan(Registrations, Other(document))), root, id) == VerifyIdentity(d, root, id)
  {
    ReplaceAll(d, Registrations, Other(document));
  }

  lemma OneSave(document: nat)
    ensures Saves([document]) == ReplacePlan(Registrations, Other(document))
  {
    assert [document][1..] == [];
  }

  lemma {:induction false} SavesSplit(a: seq<nat>, b: seq<nat>)
    ensures Saves(a + b) == Saves(a) + Saves(b)
  {
    if a == [] {
      assert a + b == b;
    } else {
      assert (a + b)[1..] == a[1..] + b;
      SavesSplit(a[1..], b);
    }
  }

  lemma DataKept(d: Disk, identity: Identity)
    requires identity.purging
    ensures var d1 := DoAll(d, ReplacePlan(Installation, Record(identity)));
      && Admits(VerifyIdentity(d1, identity.root, identity.id), true)
      && Admits(VerifyIdentity(d1 - {Journal}, identity.root, identity.id), true)
  {
    ReplaceAll(d, Installation, Record(identity));
  }

  lemma OrdinaryKept(d: Disk, identity: Identity)
    ensures Recoverable(d, identity) ==>
      Admits(VerifyIdentity(DoAll(d, Unlinks(ORDINARY)), identity.root, identity.id), true)
  {
    if Recoverable(d, identity) {
      assert forall p <- ORDINARY :: IsOwned(p, identity.executable) && !Authority(p);
      OrdinaryUnlinks(d, identity, d, ORDINARY);
      OrdinaryAccessRefused(DoAll(d, Unlinks(ORDINARY)), identity, identity.id);
    }
  }

  lemma OneOp(d: Disk, op: Op)
    ensures DoAll(d, [op]) == Do(d, op)
  {
    assert |[op][1..]| == 0;
  }

  lemma {:induction false} UnlinksSplit(a: seq<Path>, b: seq<Path>)
    ensures Unlinks(a + b) == Unlinks(a) + Unlinks(b)
  {
    if a == [] {
      assert a + b == b;
    } else {
      assert (a + b)[1..] == a[1..] + b;
      UnlinksSplit(a[1..], b);
    }
  }
}
