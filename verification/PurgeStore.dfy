/**
 The terminal purge: what every moment of it keeps, so that it can be restarted after
 a stop between any two of its file-system steps.
 */
module PurgeStore {
  import Runs
  import opened InstallationDisk

  // ---------------------------------------------------------------------
  // Purge: what every moment keeps
  // ---------------------------------------------------------------------

  /** While purging, the disk is recoverable or clear of owned names, and everything
      that is not the installation's is as it was. */
  predicate Purgeable(start: Disk, identity: Identity, d: Disk) {
    SameOutside(start, d, identity.executable) && (Recoverable(d, identity) || Gone(d, identity.executable))
  }

  predicate SameOutside(start: Disk, d: Disk, executable: bool) {
    Outside(d, executable) == Outside(start, executable)
  }

  lemma OutsideStep(start: Disk, d: Disk, op: Op, executable: bool)
    requires SameOutside(start, d, executable)
    requires IsOwned(op.path, executable) && (op.Rename? ==> IsOwned(op.to, executable))
    ensures SameOutside(start, Do(d, op), executable)
  {
    assert Outside(Do(d, op), executable) == Outside(d, executable);
  }

  predicate Authority(p: Path) {
    p == Installation || p == LifecycleLock || p == Receipt
  }

  /** A mutation of owned names that carry no authority. */
  predicate Ordinary(op: Op, executable: bool) {
    && IsOwned(op.path, executable) && !Authority(op.path)
    && (op.Rename? ==> IsOwned(op.to, executable) && !Authority(op.to))
  }

  lemma {:induction false} OrdinaryOps(start: Disk, identity: Identity, d: Disk, ops: seq<Op>)
    requires Recoverable(d, identity) && SameOutside(start, d, identity.executable)
    requires forall op <- ops :: Ordinary(op, identity.executable)
    ensures Through(d, ops, d => Purgeable(start, identity, d))
    ensures Recoverable(DoAll(d, ops), identity) && SameOutside(start, DoAll(d, ops), identity.executable)
    ensures Installation in d ==> Installation in DoAll(d, ops)
    ensures LifecycleLock in d ==> LifecycleLock in DoAll(d, ops)
    decreases |ops|
  {
    if ops != [] {
      assert Ordinary(ops[0], identity.executable);
      OutsideStep(start, d, ops[0], identity.executable);
      OrdinaryOps(start, identity, Do(d, ops[0]), ops[1..]);
    }
  }

  lemma {:induction false} UnlinksOrdinary(paths: seq<Path>, executable: bool)
    requires forall p <- paths :: IsOwned(p, executable) && !Authority(p)
    ensures forall op <- Unlinks(paths) :: Ordinary(op, executable)
  {
    if paths != [] {
      UnlinksOrdinary(paths[1..], executable);
    }
  }

  lemma OrdinaryUnlinks(start: Disk, identity: Identity, d: Disk, paths: seq<Path>)
    requires Recoverable(d, identity) && SameOutside(start, d, identity.executable)
    requires forall p <- paths :: IsOwned(p, identity.executable) && !Authority(p)
    ensures Through(d, Unlinks(paths), d => Purgeable(start, identity, d))
    ensures Recoverable(DoAll(d, Unlinks(paths)), identity)
    ensures SameOutside(start, DoAll(d, Unlinks(paths)), identity.executable)
    ensures Installation in d ==> Installation in DoAll(d, Unlinks(paths))
  {
    UnlinksOrdinary(paths, identity.executable);
    OrdinaryOps(start, identity, d, Unlinks(paths));
  }

  lemma {:induction false} SavesOrdinary(saves: seq<nat>, executable: bool)
    ensures forall op <- Saves(saves) :: Ordinary(op, executable)
  {
    if saves != [] {
      SavesOrdinary(saves[1..], executable);
    }
  }

  /** Neither stopping the service nor removing registrations touches what a retry needs. */
  lemma ServiceOrdinary(w: Work, executable: bool)
    ensures forall op <- ServicePlan(w) :: Ordinary(op, executable)
  {
    UnlinksOrdinary(STOPPING, executable);
    UnlinksOrdinary(RECORDS, executable);
    SavesOrdinary(w.saves, executable);
  }

  lemma SiblingStep(start: Disk, identity: Identity, d: Disk, op: Op)
    requires Recoverable(d, identity) && SameOutside(start, d, identity.executable)
    requires !op.Rename? && (op.path in SIBLINGS)
    ensures Recoverable(Do(d, op), identity) && SameOutside(start, Do(d, op), identity.executable)
  {
    OutsideStep(start, d, op, identity.executable);
  }

  lemma Replaced(start: Disk, identity: Identity, d: Disk, p: Path)
    requires Recoverable(d, identity) && SameOutside(start, d, identity.executable)
    requires (p == Installation || p == Receipt) && LifecycleLock in d
    ensures var r := (d - {Sibling(p)})[p := Record(identity)];
      Recoverable(r, identity) && SameOutside(start, r, identity.executable)
  {
    OutsideStep(start, d, Unlink(Sibling(p)), identity.executable);
    OutsideStep(start, d - {Sibling(p)}, Fill(p, Record(identity)), identity.executable);
  }

  lemma ReplaceThrough(start: Disk, identity: Identity, d: Disk, p: Path)
    requires Recoverable(d, identity) && SameOutside(start, d, identity.executable)
    requires (p == Installation || p == Receipt) && LifecycleLock in d
    ensures Through(d, ReplacePlan(p, Record(identity)), d => Purgeable(start, identity, d))
    ensures Recoverable(DoAll(d, ReplacePlan(p, Record(identity))), identity)
    ensures SameOutside(start, DoAll(d, ReplacePlan(p, Record(identity))), identity.executable)
  {
    hide Recoverable, SameOutside, Gone;
    var plan := ReplacePlan(p, Record(identity));
    var d1 := Do(d, plan[0]);
    var d2 := Do(d1, plan[1]);
    var d3 := Do(d2, plan[2]);
    SiblingStep(start, identity, d, plan[0]);
    SiblingStep(start, identity, d1, plan[1]);
    SiblingStep(start, identity, d2, plan[2]);
    ReplaceAll(d, p, Record(identity));
    Replaced(start, identity, d, p);
    assert Do(d3, plan[3]) == (d - {Sibling(p)})[p := Record(identity)];
    ThroughFour(d, plan, d => Purgeable(start, identity, d));
  }

  lemma ThroughFour(d: Disk, ops: seq<Op>, good: Disk -> bool)
    requires |ops| == 4
    requires good(d) && good(Do(d, ops[0])) && good(Do(Do(d, ops[0]), ops[1]))
    requires good(Do(Do(Do(d, ops[0]), ops[1]), ops[2])) && good(Do(Do(Do(Do(d, ops[0]), ops[1]), ops[2]), ops[3]))
    ensures Through(d, ops, good)
  {
    var rest := ops[1..][1..][1..];
    assert rest == [ops[3]] && |rest[1..]| == 0;
    assert Through(Do(Do(Do(d, ops[0]), ops[1]), ops[2]), rest, good);
    assert ops[1..][1..][0] == ops[2] && ops[1..][0] == ops[1];
    assert Through(Do(Do(d, ops[0]), ops[1]), ops[1..][1..], good);
  }

  predicate LockAfterIdentity(paths: seq<Path>, identityThere: bool) {
    paths == [] ||
    ((paths[0] == LifecycleLock ==> !identityThere) && LockAfterIdentity(paths[1..], identityThere && paths[0] != Installation))
  }

  /** With the receipt in place anything else may go, the lifecycle lock once the
      identity record has gone. */
  lemma {:induction false} ReceiptUnlinks(start: Disk, identity: Identity, d: Disk, paths: seq<Path>)
    requires Recoverable(d, identity) && SameOutside(start, d, identity.executable)
    requires Receipt in d && d[Receipt] == Record(identity)
    requires LockAfterIdentity(paths, Installation in d)
    requires forall p <- paths :: IsOwned(p, identity.executable) && p != Receipt
    ensures Through(d, Unlinks(paths), d => Purgeable(start, identity, d))
    ensures Recoverable(DoAll(d, Unlinks(paths)), identity)
    ensures SameOutside(start, DoAll(d, Unlinks(paths)), identity.executable)
  {
    if paths != [] {
      OutsideStep(start, d, Unlink(paths[0]), identity.executable);
      ReceiptUnlinks(start, identity, d - {paths[0]}, paths[1..]);
    }
  }

  lemma TerminalOrder(identityThere: bool)
    ensures LockAfterIdentity(TERMINAL, identityThere)
  {
    assert LockAfterIdentity([LifecycleLock, ReceiptTmp], false);
    assert TERMINAL[1..][1..][1..] == [LifecycleLock, ReceiptTmp];
  }

  lemma TerminalThrough(start: Disk, identity: Identity, d: Disk, end: Disk)
    requires Recoverable(d, identity) && SameOutside(start, d, identity.executable)
    requires Receipt in d && d[Receipt] == Record(identity)
    requires end == d - (set p | p in TERMINAL) - {Receipt} && Gone(end, identity.executable)
    ensures Through(d, Unlinks(TERMINAL) + [Unlink(Receipt)], d => Purgeable(start, identity, d))
    ensures Gone(DoAll(d, Unlinks(TERMINAL) + [Unlink(Receipt)]), identity.executable)
  {
    var good, first, last := d => Purgeable(start, identity, d), Unlinks(TERMINAL), [Unlink(Receipt)];
    TerminalOrder(Installation in d);
    ReceiptUnlinks(start, identity, d, TERMINAL);
    UnlinkAll(d, TERMINAL);
    var d' := DoAll(d, first);
    OutsideStep(start, d', Unlink(Receipt), identity.executable);
    hide IsOwned, Recoverable, LockAfterIdentity, SameOutside, Gone;
    assert end == d' - {Receipt} && DoAll(end, last[1..]) == end;
    assert Through(end, last[1..], good);
    assert Through(d', last, good);
    ThroughConcat(d, first, last, good);
    DoConcat(d, first, last);
  }

  predicate IsLock(p: Path) {
    p == LifecycleLock || p == GateLock || p == StateLock
  }

  lemma {:induction false} TouchesThrough(start: Disk, identity: Identity, d: Disk, paths: seq<Path>)
    requires Recoverable(d, identity) && SameOutside(start, d, identity.executable)
    requires forall p <- paths :: IsLock(p)
    ensures Through(d, Touches(paths), d => Purgeable(start, identity, d))
    ensures Recoverable(DoAll(d, Touches(paths)), identity)
    ensures SameOutside(start, DoAll(d, Touches(paths)), identity.executable)
    ensures d.Keys <= DoAll(d, Touches(paths)).Keys
    ensures forall p <- paths :: p in DoAll(d, Touches(paths))
    decreases |paths|
  {
    if paths != [] {
      assert IsLock(paths[0]);
      OutsideStep(start, d, Touch(paths[0]), identity.executable);
      TouchesThrough(start, identity, Do(d, Touch(paths[0])), paths[1..]);
    }
  }

  lemma FinishEmpties(d: Disk, executable: bool, end: Disk)
    requires end == d - (set p | p in First(executable)) - {ReceiptTmp} - (set p | p in TERMINAL) - {Receipt}
    ensures Gone(end, executable)
  {}

  function FinishHead(identity: Identity): seq<Op> {
    Unlinks(First(identity.executable)) + ReplacePlan(Receipt, Record(identity))
  }

  lemma FirstIsOrdinary(executable: bool)
    ensures forall p <- First(executable) :: IsOwned(p, executable) && !Authority(p)
  {}

  lemma HeadThrough(start: Disk, identity: Identity, d: Disk) returns (end: Disk)
    requires Recoverable(d, identity) && SameOutside(start, d, identity.executable) && Installation in d
    ensures var d2 := DoAll(d, FinishHead(identity));
      && Through(d, FinishHead(identity), d => Purgeable(start, identity, d))
      && Recoverable(d2, identity) && SameOutside(start, d2, identity.executable)
      && Installation in d2 && Receipt in d2 && d2[Receipt] == Record(identity)
      && end == d2 - (set p | p in TERMINAL) - {Receipt} && Gone(end, identity.executable)
  {
    hide IsOwned, SameOutside, Gone, ReplacePlan, First;
    var paths, replace := First(identity.executable), ReplacePlan(Receipt, Record(identity));
    FirstIsOrdinary(identity.executable);
    OrdinaryUnlinks(start, identity, d, paths);
    var d1 := DoAll(d, Unlinks(paths));
    ReplaceThrough(start, identity, d1, Receipt);
    ThroughConcat(d, Unlinks(paths), replace, d => Purgeable(start, identity, d));
    DoConcat(d, Unlinks(paths), replace);
    var d2 := DoAll(d1, replace);
    UnlinkAll(d, paths);
    ReplaceAll(d1, Receipt, Record(identity));
    end := d2 - (set p | p in TERMINAL) - {Receipt};
    FinishEmpties(d, identity.executable, end);
  }

  lemma FinishThrough(start: Disk, identity: Identity, d: Disk)
    requires Recoverable(d, identity) && SameOutside(start, d, identity.executable) && Installation in d
    ensures Through(d, FinishPlan(identity), d => Purgeable(start, identity, d))
    ensures Gone(DoAll(d, FinishPlan(identity)), identity.executable)
  {
    hide Recoverable, IsOwned, SameOutside, Gone, Unlinks, ReplacePlan, First;
    var head, last := FinishHead(identity), Unlinks(TERMINAL) + [Unlink(Receipt)];
    var end := HeadThrough(start, identity, d);
    TerminalThrough(start, identity, DoAll(d, head), end);
    ThroughConcat(d, head, last, d => Purgeable(start, identity, d));
    DoConcat(d, head, last);
    assert FinishPlan(identity) == head + last;
  }

  lemma DataIsOrdinary(executable: bool)
    ensures forall p <- DATA :: IsOwned(p, executable) && !Authority(p)
  {}

  lemma RestThrough(start: Disk, identity: Identity, d: Disk)
    requires Recoverable(d, identity) && SameOutside(start, d, identity.executable) && Installation in d
    ensures Through(d, PurgeRest(identity), d => Purgeable(start, identity, d))
    ensures Gone(DoAll(d, PurgeRest(identity)), identity.executable)
  {
    hide Recoverable, IsOwned, SameOutside, Gone, ReplacePlan, Unlinks, FinishPlan;
    DataIsOrdinary(identity.executable);
    OrdinaryUnlinks(start, identity, d, DATA);
    FinishThrough(start, identity, DoAll(d, Unlinks(DATA)));
    ThroughConcat(d, Unlinks(DATA), FinishPlan(identity), d => Purgeable(start, identity, d));
    DoConcat(d, Unlinks(DATA), FinishPlan(identity));
  }

  lemma PurgeThrough(start: Disk, identity: Identity, d: Disk)
    requires Recoverable(d, identity) && SameOutside(start, d, identity.executable) && LifecycleLock in d
    ensures Through(d, PurgePlan(identity), d => Purgeable(start, identity, d))
    ensures Gone(DoAll(d, PurgePlan(identity)), identity.executable)
  {
    assert identity.(purging := true) == identity;
    hide Recoverable, IsOwned, SameOutside, Gone, ReplacePlan, PurgeRest;
    var replace, rest := ReplacePlan(Installation, Record(identity)), PurgeRest(identity);
    ReplaceThrough(start, identity, d, Installation);
    ReplaceAll(d, Installation, Record(identity));
    RestThrough(start, identity, DoAll(d, replace));
    ThroughConcat(d, replace, rest, d => Purgeable(start, identity, d));
    DoConcat(d, replace, rest);
  }

  lemma ClearThrough(start: Disk, identity: Identity, d: Disk, on: Identity)
    requires Recoverable(d, identity) && SameOutside(start, d, identity.executable) && LifecycleLock in d
    requires Cleared(on) == identity
    ensures var d1 := DoAll(d, ClearPlan(on));
      && Through(d, ClearPlan(on), d => Purgeable(start, identity, d))
      && Recoverable(d1, identity) && SameOutside(start, d1, identity.executable) && LifecycleLock in d1
  {
    if on.pending {
      ReplaceThrough(start, identity, d, Installation);
      ReplaceAll(d, Installation, Record(identity));
    }
  }

  lemma LocksTaken(start: Disk, identity: Identity, d: Disk, o: Opened)
    requires Recoverable(d, identity) && o == OpenExisting(d, identity.root, true) && SameOutside(start, d, identity.executable)
    ensures var d1 := DoAll(d, Touches(Locks(o)));
      && Through(d, Touches(Locks(o)), d => Purgeable(start, identity, d))
      && Recoverable(d1, identity) && SameOutside(start, d1, identity.executable) && LifecycleLock in d1
  {
    var paths := Locks(o);
    TouchesThrough(start, identity, d, paths);
  }

  lemma UninstallThrough(d: Disk, identity: Identity, o: Opened, w: Work)
    requires Recoverable(d, identity) && !identity.pending && o == OpenExisting(d, identity.root, true)
    ensures Through(d, UninstallPlan(o, w), r => Purgeable(d, identity, r))
    ensures Gone(DoAll(d, UninstallPlan(o, w)), identity.executable)
  {
    var good := r => Purgeable(d, identity, r);
    var locks, service, clear, purge := Touches(Locks(o)), ServicePlan(w), ClearPlan(o.identity), PurgePlan(identity);
    assert Cleared(o.identity) == identity && Cleared(identity) == identity;
    LocksTaken(d, identity, d, o);
    hide Recoverable, Gone, IsOwned, SameOutside, Touches, Locks, ServicePlan, ClearPlan, PurgePlan;
    var d1 := DoAll(d, locks);
    ServiceOrdinary(w, identity.executable);
    OrdinaryOps(d, identity, d1, service);
    ThroughConcat(d, locks, service, good);
    DoConcat(d, locks, service);
    var d2 := DoAll(d1, service);
    ClearThrough(d, identity, d2, o.identity);
    ThroughConcat(d, locks + service, clear, good);
    DoConcat(d, locks + service, clear);
    var d3 := DoAll(d2, clear);
    PurgeThrough(d, identity, d3);
    ThroughConcat(d, locks + service + clear, purge, good);
    DoConcat(d, locks + service + clear, purge);
  }

  // ---------------------------------------------------------------------
  // Main results
  // ---------------------------------------------------------------------

  lemma RecoverableWithoutSiblings(start: Disk, identity: Identity)
    ensures SiblingsDoNotMatter(d => Purgeable(start, identity, d))
  {
    forall d: Disk, gone | Purgeable(start, identity, d) && gone <= SIBLINGS
      ensures Purgeable(start, identity, d - gone)
    {
      assert Outside(d - gone, identity.executable) == Outside(d, identity.executable);
    }
  }

  /** Stopping a retry anywhere leaves a purging identity, or nothing that is owned;
      nothing else is touched. */
  lemma RetryStoppedAnywhere(d: Disk, identity: Identity, w: Work, r: Disk)
    requires Recoverable(d, identity) && Stopped(d, UninstallPlan(OpenExisting(d, identity.root, true), w), r)
    ensures Purgeable(d, identity, r)
  {
    var o, now := OpenExisting(d, identity.root, true), Cleared(identity);
    UninstallThrough(d, now, o, w);
    RecoverableWithoutSiblings(d, now);
    StoppedThrough(d, UninstallPlan(o, w), d' => Purgeable(d, now, d'), r);
  }

  /** A retry that is not stopped removes every owned name and nothing else. */
  lemma RetryFinishes(d: Disk, identity: Identity, w: Work)
    requires Recoverable(d, identity)
    ensures DoAll(d, UninstallPlan(OpenExisting(d, identity.root, true), w)) == Outside(d, identity.executable)
  {
    var now := Cleared(identity);
    var plan := UninstallPlan(OpenExisting(d, identity.root, true), w);
    UninstallThrough(d, now, OpenExisting(d, identity.root, true), w);
    ThroughAt(d, plan, d' => Purgeable(d, now, d'), |plan|);
    assert plan[..|plan|] == plan;
    assert Outside(DoAll(d, plan), identity.executable) == DoAll(d, plan);
  }

  lemma {:induction false} OnlySibling(d: Disk, ops: seq<Op>)
    requires forall op <- ops :: op.path == InstallationTmp && !op.Rename?
    ensures DoAll(d, ops) - {InstallationTmp} == d - {InstallationTmp}
    decreases |ops|
  {
    if ops != [] {
      assert ops[0].path == InstallationTmp && !ops[0].Rename?;
      assert Do(d, ops[0]) - {InstallationTmp} == d - {InstallationTmp};
      OnlySibling(Do(d, ops[0]), ops[1..]);
    }
  }

  /** Publication is atomic: siblings aside, a stop leaves the old disk or the new. */
  lemma ReplaceAtomic(d: Disk, content: Content, r: Disk)
    requires Stopped(d, ReplacePlan(Installation, content), r)
    ensures r - SIBLINGS == d - SIBLINGS || r - SIBLINGS == d[Installation := content] - SIBLINGS
  {
    var plan := ReplacePlan(Installation, content);
    var k, gone :| 0 <= k <= |plan| && gone <= SIBLINGS && r == DoAll(d, plan[..k]) - gone;
    if k == 4 {
      assert plan[..k] == plan;
      ReplaceAll(d, Installation, content);
    } else {
      OnlySibling(d, plan[..k]);
      assert r - SIBLINGS == (DoAll(d, plan[..k]) - {InstallationTmp}) - SIBLINGS;
    }
  }

  // ---------------------------------------------------------------------
  // The first purge
  // ---------------------------------------------------------------------

  predicate IsServiceFile(p: Path) {
    p == ServiceRecord || p == ServiceRecordTmp || p == ServiceUnit || p == ServiceUnitTmp
  }

  /** What an uninstall leaves alone until its flag is durable: locks, database, known
      hosts, receipt, executable and everything foreign. */
  function Untouched(d: Disk): Disk {
    map p | p in d && !IsServiceFile(p) && p != Registrations && p !in SIBLINGS && p != Installation :: d[p]
  }

  /** Stopped before the flag: still an ordinary installation, with at most its pending
      flag cleared; service files only go, and registrations change only by a save. */
  predicate Unflagged(d: Disk, identity: Identity, w: Work, r: Disk) {
    && (Installed(r, identity) || Installed(r, Cleared(identity)))
    && Untouched(r) == Untouched(d)
    && (forall p <- r :: IsServiceFile(p) ==> p in d && r[p] == d[p])
    && (w.saves == [] && Registrations in r ==> Registrations in d && r[Registrations] == d[Registrations])
  }

  predicate Mild(op: Op, w: Work) {
    match op {
      case Unlink(p) => IsServiceFile(p) || p == Registrations || p in SIBLINGS
      case Touch(p) => p in SIBLINGS
      case Fill(p, _) => p in SIBLINGS
      case Rename(p, to) => p in SIBLINGS && to == Registrations && w.saves != []
    }
  }

  lemma MildStep(d: Disk, identity: Identity, w: Work, m: Disk, op: Op)
    requires Unflagged(d, identity, w, m) && Mild(op, w)
    ensures Unflagged(d, identity, w, Do(m, op))
  {
    assert Untouched(Do(m, op)) == Untouched(m);
  }

  lemma {:induction false} MildThrough(d: Disk, identity: Identity, w: Work, m: Disk, ops: seq<Op>)
    requires Unflagged(d, identity, w, m)
    requires forall op <- ops :: Mild(op, w)
    ensures Through(m, ops, r => Unflagged(d, identity, w, r)) && Unflagged(d, identity, w, DoAll(m, ops))
    decreases |ops|
  {
    if ops != [] {
      assert Mild(ops[0], w);
      MildStep(d, identity, w, m, ops[0]);
      MildThrough(d, identity, w, Do(m, ops[0]), ops[1..]);
    }
  }

  lemma {:induction false} UnlinksMild(paths: seq<Path>, w: Work)
    requires forall p <- paths :: Mild(Unlink(p), w)
    ensures forall op <- Unlinks(paths) :: Mild(op, w)
  {
    if paths != [] {
      UnlinksMild(paths[1..], w);
    }
  }

  lemma {:induction false} SavesMild(saves: seq<nat>, w: Work)
    requires saves != [] ==> w.saves != []
    ensures forall op <- Saves(saves) :: Mild(op, w)
  {
    if saves != [] {
      SavesMild(saves[1..], w);
    }
  }

  lemma ServiceMild(w: Work)
    ensures forall op <- ServicePlan(w) :: Mild(op, w)
  {
    UnlinksMild(STOPPING, w);
    UnlinksMild(RECORDS, w);
    SavesMild(w.saves, w);
  }

  /** Before the flag or after it. */
  predicate FirstPurge(d: Disk, identity: Identity, w: Work, r: Disk) {
    Unflagged(d, identity, w, r) || Purgeable(d, Cleared(identity).(purging := true), r)
  }

  lemma UntouchedOutside(d: Disk, r: Disk, executable: bool)
    requires Untouched(r) == Untouched(d)
    ensures SameOutside(d, r, executable)
  {
    assert Outside(r, executable) == Outside(Untouched(r), executable);
    assert Outside(d, executable) == Outside(Untouched(d), executable);
  }

  lemma PublishedOver(d: Disk, identity: Identity, w: Work, m: Disk, on: Identity)
    requires Unflagged(d, identity, w, m)
    ensures var r := (m - {InstallationTmp})[Installation := Record(on)];
      && (on == Cleared(identity) ==> Unflagged(d, identity, w, r))
      && (on == Cleared(identity).(purging := true) ==> Recoverable(r, on) && SameOutside(d, r, on.executable))
  {
    hide SameOutside, Outside, IsOwned;
    var r := (m - {InstallationTmp})[Installation := Record(on)];
    assert Untouched(r) == Untouched(m);
    UntouchedOutside(d, r, on.executable);
  }

  lemma PublishThrough(d: Disk, identity: Identity, w: Work, m: Disk, on: Identity)
    requires Unflagged(d, identity, w, m)
    requires on == Cleared(identity) || on == Cleared(identity).(purging := true)
    ensures var r := DoAll(m, ReplacePlan(Installation, Record(on)));
      && Through(m, ReplacePlan(Installation, Record(on)), r => FirstPurge(d, identity, w, r))
      && Installation in r && (on == Cleared(identity) ==> Unflagged(d, identity, w, r))
      && (on == Cleared(identity).(purging := true) ==> Recoverable(r, on) && SameOutside(d, r, on.executable))
  {
    hide Unflagged, Recoverable, SameOutside, Gone;
    var plan := ReplacePlan(Installation, Record(on));
    var m1 := Do(m, plan[0]);
    var m2 := Do(m1, plan[1]);
    var m3 := Do(m2, plan[2]);
    MildStep(d, identity, w, m, plan[0]);
    MildStep(d, identity, w, m1, plan[1]);
    MildStep(d, identity, w, m2, plan[2]);
    ReplaceAll(m, Installation, Record(on));
    PublishedOver(d, identity, w, m, on);
    assert Do(m3, plan[3]) == (m - {InstallationTmp})[Installation := Record(on)];
    ThroughFour(m, plan, r => FirstPurge(d, identity, w, r));
  }

  lemma {:induction false} ThroughMore(d: Disk, ops: seq<Op>, some: Disk -> bool, more: Disk -> bool)
    requires Through(d, ops, some) && forall r :: some(r) ==> more(r)
    ensures Through(d, ops, more)
    decreases |ops|
  {
    if ops != [] {
      ThroughMore(Do(d, ops[0]), ops[1..], some, more);
    }
  }

  lemma StartUnflagged(d: Disk, identity: Identity, w: Work)
    requires Installed(d, identity)
    ensures Unflagged(d, identity, w, d) && Locks(Pinned(identity, false)) == []
  {}

  lemma ServiceThrough(d: Disk, identity: Identity, w: Work)
    requires Installed(d, identity)
    ensures var m := DoAll(d, ServicePlan(w)); var r := DoAll(m, ClearPlan(identity));
      && Through(d, ServicePlan(w), r => FirstPurge(d, identity, w, r))
      && Through(m, ClearPlan(identity), r => FirstPurge(d, identity, w, r))
      && Unflagged(d, identity, w, r)
  {
    StartUnflagged(d, identity, w);
    hide Unflagged, Purgeable, Installed, ServicePlan;
    ServiceMild(w);
    MildThrough(d, identity, w, d, ServicePlan(w));
    ThroughMore(d, ServicePlan(w), r => Unflagged(d, identity, w, r), r => FirstPurge(d, identity, w, r));
    if identity.pending {
      PublishThrough(d, identity, w, DoAll(d, ServicePlan(w)), Cleared(identity));
    }
  }

  lemma FlagThrough(d: Disk, identity: Identity, w: Work, m: Disk)
    requires Unflagged(d, identity, w, m)
    ensures Through(m, PurgePlan(Cleared(identity)), r => FirstPurge(d, identity, w, r))
  {
    hide Unflagged, Recoverable, SameOutside, Gone, PurgeRest, ReplacePlan;
    var now := Cleared(identity).(purging := true);
    var replace, rest := ReplacePlan(Installation, Record(now)), PurgeRest(now);
    PublishThrough(d, identity, w, m, now);
    var m1 := DoAll(m, replace);
    RestThrough(d, now, m1);
    ThroughMore(m1, rest, r => Purgeable(d, now, r), r => FirstPurge(d, identity, w, r));
    ThroughConcat(m, replace, rest, r => FirstPurge(d, identity, w, r));
  }

  lemma FirstThrough(d: Disk, identity: Identity, w: Work)
    requires Installed(d, identity)
    ensures Through(d, UninstallPlan(Pinned(identity, false), w), r => FirstPurge(d, identity, w, r))
  {
    hide Unflagged, Purgeable, Installed, FirstPurge, Through, ServicePlan, ClearPlan, PurgePlan;
    StartUnflagged(d, identity, w);
    var good := r => FirstPurge(d, identity, w, r);
    var service, clear, purge := ServicePlan(w), ClearPlan(identity), PurgePlan(Cleared(identity));
    ServiceThrough(d, identity, w);
    FlagThrough(d, identity, w, DoAll(DoAll(d, service), clear));
    ThroughConcat(d, service, clear, good);
    DoConcat(d, service, clear);
    ThroughConcat(d, service + clear, purge, good);
    assert UninstallPlan(Pinned(identity, false), w) == service + clear + purge;
  }

  lemma UnflaggedWithoutSiblings(d: Disk, identity: Identity, w: Work, r: Disk, gone: set<Path>)
    requires Unflagged(d, identity, w, r) && gone <= SIBLINGS
    ensures Unflagged(d, identity, w, r - gone)
  {
    assert Untouched(r - gone) == Untouched(r);
  }

  lemma FirstWithoutSiblings(d: Disk, identity: Identity, w: Work)
    ensures SiblingsDoNotMatter(r => FirstPurge(d, identity, w, r))
  {
    hide Unflagged, Purgeable;
    var now := Cleared(identity).(purging := true);
    RecoverableWithoutSiblings(d, now);
    forall r: Disk, gone | FirstPurge(d, identity, w, r) && gone <= SIBLINGS ensures FirstPurge(d, identity, w, r - gone) {
      if Unflagged(d, identity, w, r) {
        UnflaggedWithoutSiblings(d, identity, w, r, gone);
      } else {
        assert (r => Purgeable(d, now, r))(r - gone);
      }
    }
  }

  /** Stopping the first purge anywhere, by crash or by error, leaves an ordinary
      installation that lacks at most service and registration records, or it is past the
      durable flag and recoverable. */
  lemma FirstPurgeStoppedAnywhere(d: Disk, identity: Identity, w: Work, r: Disk)
    requires Installed(d, identity) && Stopped(d, UninstallPlan(Pinned(identity, false), w), r)
    ensures Unflagged(d, identity, w, r) || Purgeable(d, Cleared(identity).(purging := true), r)
  {
    hide Unflagged, Purgeable, Installed;
    FirstThrough(d, identity, w);
    FirstWithoutSiblings(d, identity, w);
    StoppedThrough(d, UninstallPlan(Pinned(identity, false), w), r => FirstPurge(d, identity, w, r), r);
  }

  /** While a purge can still be retried no ordinary open of existing state succeeds, no
      ordinary lease passes its check, and purge leases pass only for this installation. */
  lemma OrdinaryAccessRefused(d: Disk, identity: Identity, id: nat)
    requires Recoverable(d, identity)
    ensures OpenExisting(d, identity.root, false).Failed?
    ensures !Admits(VerifyIdentity(d, identity.root, id), false)
    ensures Admits(VerifyIdentity(d, identity.root, id), true) <==> id == identity.id
  {}

  lemma NothingLeftToOpen(d: Disk, executable: bool, root: nat, id: nat, purge: bool)
    requires Gone(d, executable)
    ensures OpenExisting(d, root, true) == Failed(Missing)
    ensures !Admits(VerifyIdentity(d, root, id), purge)
  {}

  /** The initializing open is refused in a purging directory unless the identity record
      is there, the receipt is not yet, and the state locks it insists on are present. */
  lemma OpenWhilePurging(d: Disk, identity: Identity, newId: nat)
    requires Recoverable(d, identity)
    ensures Open(d, identity.root, newId).verdict.Good? <==>
      Installation in d && Receipt !in d && (identity.established ==> GateLock in d && StateLock in d)
    ensures exists paths :: Open(d, identity.root, newId).ops == Touches(paths) && forall p <- paths :: IsLock(p)
  {
    var ops := Open(d, identity.root, newId).ops;
    var paths := if Installation !in d then [LifecycleLock] else if ops == [] then [] else [GateLock, StateLock];
    assert Touches([StateLock]) == [Touch(StateLock)];
    assert Touches([LifecycleLock]) == [Touch(LifecycleLock)];
    assert Touches([GateLock, StateLock]) == [Touch(GateLock), Touch(StateLock)];
    assert ops == Touches(paths);
    assert forall p <- paths :: IsLock(p);
  }

  /** So a purging identity alone does not make Open fail, only every lease after it. */
  lemma OpenAcceptsPurging(root: nat, id: nat, newId: nat) returns (d: Disk)
    ensures Recoverable(d, Identity(root, id, true, true, false, false))
    ensures Open(d, root, newId) == Plan([], Good)
    ensures OpenExisting(d, root, false) == Failed(Purging)
  {
    d := map[Installation := Record(Identity(root, id, true, true, false, false)),
      LifecycleLock := EMPTY, GateLock := EMPTY, StateLock := EMPTY];
  }

  // ---------------------------------------------------------------------
  // Runs: retries and other processes' opens, each stopped anywhere
  // ---------------------------------------------------------------------

  datatype Event = Retry(w: Work) | OrdinaryOpen(newId: nat)

  ghost predicate Step(identity: Identity, d: Disk, e: Event, r: Disk) {
    && Recoverable(d, identity)
    && match e {
      case Retry(w) => Stopped(d, UninstallPlan(OpenExisting(d, identity.root, true), w), r)
      case OrdinaryOpen(newId) => Stopped(d, Open(d, identity.root, newId).ops, r)
    }
  }

  lemma OpenKeeps(start: Disk, identity: Identity, d: Disk, newId: nat, r: Disk)
    requires Recoverable(d, identity) && SameOutside(start, d, identity.executable)
    requires Stopped(d, Open(d, identity.root, newId).ops, r)
    ensures Purgeable(start, identity, r)
  {
    OpenWhilePurging(d, identity, newId);
    var paths :| Open(d, identity.root, newId).ops == Touches(paths) && forall p <- paths :: IsLock(p);
    TouchesThrough(start, identity, d, paths);
    RecoverableWithoutSiblings(start, identity);
    StoppedThrough(d, Touches(paths), d => Purgeable(start, identity, d), r);
  }

  /** However often it is stopped and whatever opens come between, a purge stays
      retryable until nothing owned is left, and the retry that is not stopped leaves
      exactly what was never the installation's. */
  lemma PurgeConverges(start: Disk, identity: Identity, states: seq<Disk>, events: seq<Event>, i: nat, w: Work)
    requires Recoverable(start, identity) && i < |states|
    requires Runs.Run(start, (d, e, r) => Step(identity, d, e, r), states, events)
    ensures Purgeable(start, identity, states[i])
    ensures Recoverable(states[i], identity) ==>
      DoAll(states[i], UninstallPlan(OpenExisting(states[i], identity.root, true), w)) == Outside(start, identity.executable)
  {
    forall d, e, r | Purgeable(start, identity, d) && Step(identity, d, e, r) ensures Purgeable(start, identity, r) {
      match e {
        case Retry(w) => RetryStoppedAnywhere(d, identity, w, r);
        case OrdinaryOpen(newId) => OpenKeeps(start, identity, d, newId, r);
      }
    }
    Runs.Invariant(start, (d, e, r) => Step(identity, d, e, r), d => Purgeable(start, identity, d), states, events, i);
    if Recoverable(states[i], identity) {
      RetryFinishes(states[i], identity, w);
    }
  }
}
