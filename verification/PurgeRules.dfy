/**
 What opening and purging decide, stated exactly, and the order in which a first purge lets
 go of what it owns.
 */
module PurgeRules {
  import opened InstallationDisk
  import opened PurgeStore

  // ---------------------------------------------------------------------
  // Opening
  // ---------------------------------------------------------------------

  /** Open gives a store exactly when no receipt is there and either there is an identity
      record of this root with its lifecycle lock and, once established, the state locks and,
      unless purging, no journal without its database; or there is neither record nor
      database, so that nothing is taken over. */
  lemma OpenExactly(d: Disk, root: nat, newId: nat)
    ensures Open(d, root, newId).verdict.Good? <==>
      && Receipt !in d
      && if Installation in d then
           && LifecycleLock in d && d[Installation].Record? && d[Installation].identity.root == root
           && (d[Installation].identity.established ==>
                 && GateLock in d && StateLock in d
                 && (d[Installation].identity.purging || (Journal in d ==> Database in d)))
         else Database !in d
  {}

  /** Existing state is opened exactly when the identity record is one of this root, or it is
      gone and the receipt names a purge of this root; and only cleanup may open an
      installation that is purging or pending. */
  lemma OpenExistingExactly(d: Disk, root: nat, cleanup: bool, o: Opened)
    requires o.Pinned?
    ensures OpenExisting(d, root, cleanup) == o <==>
      && o.identity.root == root && (cleanup || (!o.identity.purging && !o.identity.pending))
      && if o.terminal then
           Installation !in d && Receipt in d && d[Receipt] == Record(o.identity) && o.identity.purging
         else Installation in d && d[Installation] == Record(o.identity)
  {}

  /** A lease passes exactly while the store's own identity is recorded, or for a purge its
      receipt, established and neither purging nor pending unless the lease is for a purge. */
  lemma LeaseExactly(d: Disk, root: nat, id: nat, purge: bool)
    ensures Admits(VerifyIdentity(d, root, id), purge) <==>
      exists identity: Identity ::
        && identity.root == root && identity.id == id
        && (if Installation in d then d[Installation] == Record(identity)
            else Receipt in d && d[Receipt] == Record(identity) && identity.purging)
        && if purge then identity.purging || identity.pending || identity.established
           else identity.established && !identity.purging && !identity.pending
  {
    if Installation in d && d[Installation].Record? {
      assert d[Installation] == Record(d[Installation].identity);
    }
    if Receipt in d && d[Receipt].Record? {
      assert d[Receipt] == Record(d[Receipt].identity);
    }
  }

  /** Every file is as it was, but for publication's sibling and the identity record, which
      may have become established. */
  predicate NothingLost(d: Disk, r: Disk) {
    && (forall p <- d :: p != InstallationTmp ==> p in r && (p == Installation || r[p] == d[p]))
    && (Installation in d && d[Installation].Record? ==>
          r[Installation] == d[Installation] || r[Installation] == Record(d[Installation].identity.(established := true)))
    && (Installation in d && !d[Installation].Record? ==> r[Installation] == d[Installation])
  }

  predicate Adds(d: Disk, op: Op) {
    || op.Touch?
    || ((op.Unlink? || op.Fill?) && op.path == InstallationTmp)
  }

  lemma AddsStep(d: Disk, m: Disk, op: Op)
    requires NothingLost(d, m) && Adds(d, op)
    ensures NothingLost(d, Do(m, op))
  {}

  lemma {:induction false} AddsThrough(d: Disk, m: Disk, ops: seq<Op>)
    requires NothingLost(d, m) && forall op <- ops :: Adds(d, op)
    ensures Through(m, ops, r => NothingLost(d, r)) && NothingLost(d, DoAll(m, ops))
    decreases |ops|
  {
    if ops != [] {
      AddsStep(d, m, ops[0]);
      AddsThrough(d, Do(m, ops[0]), ops[1..]);
    }
  }

  lemma PublishLosesNothing(d: Disk, m: Disk, identity: Identity)
    requires NothingLost(d, m)
    requires Installation in d ==> d[Installation].Record? && identity == d[Installation].identity.(established := true)
    ensures Through(m, ReplacePlan(Installation, Record(identity)), r => NothingLost(d, r))
    ensures NothingLost(d, DoAll(m, ReplacePlan(Installation, Record(identity))))
  {
    var plan := ReplacePlan(Installation, Record(identity));
    var m1 := Do(m, plan[0]);
    var m2 := Do(m1, plan[1]);
    var m3 := Do(m2, plan[2]);
    AddsStep(d, m, plan[0]);
    AddsStep(d, m1, plan[1]);
    AddsStep(d, m2, plan[2]);
    ReplaceAll(m, Installation, Record(identity));
    assert Do(m3, plan[3]) == (m - {InstallationTmp})[Installation := Record(identity)];
    ThroughFour(m, plan, r => NothingLost(d, r));
  }

  lemma LocksLoseNothing(d: Disk, m: Disk, identity: Identity)
    requires NothingLost(d, m)
    requires Installation in d ==> d[Installation] == Record(identity)
    ensures Through(m, OpenLocks(m, identity).ops, r => NothingLost(d, r))
  {
    var ops := OpenLocks(m, identity).ops;
    if !identity.established && !identity.purging {
      var touches, replace := [Touch(GateLock), Touch(StateLock)] + [Touch(Database)], ReplacePlan(Installation, Record(identity.(established := true)));
      AddsThrough(d, m, touches);
      PublishLosesNothing(d, DoAll(m, touches), identity.(established := true));
      ThroughConcat(m, touches, replace, r => NothingLost(d, r));
      assert ops == touches + replace;
    } else {
      AddsThrough(d, m, ops);
    }
  }

  lemma OpenKeepsThrough(d: Disk, root: nat, newId: nat)
    ensures Through(d, Open(d, root, newId).ops, r => NothingLost(d, r))
  {
    var ops := Open(d, root, newId).ops;
    if Installation in d {
      if LifecycleLock in d && Receipt !in d && Decodes(d[Installation], root) {
        LocksLoseNothing(d, d, d[Installation].identity);
      }
    } else if Receipt in d || Database in d {
      AddsThrough(d, d, ops);
    } else {
      var identity := Identity(root, newId, false, false, false, false);
      var touch, replace, rest := [Touch(LifecycleLock)], ReplacePlan(Installation, Record(identity)), OpenLocks(d, identity).ops;
      AddsThrough(d, d, touch);
      var d1 := DoAll(d, touch);
      PublishLosesNothing(d, d1, identity);
      var d2 := DoAll(d1, replace);
      LocksLoseNothing(d, d2, identity);
      assert OpenLocks(d2, identity) == OpenLocks(d, identity);
      ThroughConcat(d1, replace, rest, r => NothingLost(d, r));
      ThroughConcat(d, touch, replace + rest, r => NothingLost(d, r));
      assert ops == touch + (replace + rest);
    }
  }

  /** Opening, wherever it is stopped, loses no file and changes none that was there, except
      that an identity record may become established. */
  lemma OpenLosesNothing(d: Disk, root: nat, newId: nat, r: Disk)
    requires Stopped(d, Open(d, root, newId).ops, r)
    ensures forall p <- d :: p !in SIBLINGS ==> p in r && (p == Installation || r[p] == d[p])
    ensures Installation in d && r[Installation] != d[Installation] ==>
      d[Installation].Record? && r[Installation] == Record(d[Installation].identity.(established := true))
  {
    OpenKeepsThrough(d, root, newId);
    var plan := Open(d, root, newId).ops;
    var k, gone :| 0 <= k <= |plan| && gone <= SIBLINGS && r == DoAll(d, plan[..k]) - gone;
    ThroughAt(d, plan, r => NothingLost(d, r), k);
  }

  // ---------------------------------------------------------------------
  // A first purge
  // ---------------------------------------------------------------------

  lemma NotPurging(d: Disk, identity: Identity)
    requires Installed(d, identity)
    ensures !identity.purging
  {}

  /** The first purge that is not stopped removes every owned name and nothing else. */
  lemma FirstPurgeFinishes(d: Disk, identity: Identity, w: Work)
    requires Installed(d, identity)
    ensures DoAll(d, UninstallPlan(Pinned(identity, false), w)) == Outside(d, identity.executable)
  {
    NotPurging(d, identity);
    hide UninstallPlan, Unflagged, Purgeable, Installed, FirstPurge, Through, ServicePlan, ClearPlan, PurgePlan, PurgeRest, ReplacePlan, Outside, Gone;
    StartUnflagged(d, identity, w);
    var service, clear, now := ServicePlan(w), ClearPlan(identity), Cleared(identity).(purging := true);
    var replace, rest := ReplacePlan(Installation, Record(now)), PurgeRest(now);
    ServiceThrough(d, identity, w);
    var m := DoAll(DoAll(d, service), clear);
    PublishThrough(d, identity, w, m, now);
    RestThrough(d, now, DoAll(m, replace));
    DoConcat(m, replace, rest);
    PlanParts(identity, w);
    DoConcat(DoAll(d, service), clear, replace + rest);
    DoConcat(d, service, clear + (replace + rest));
    var end := DoAll(d, UninstallPlan(Pinned(identity, false), w));
    ThroughAt(DoAll(m, replace), rest, r => Purgeable(d, now, r), |rest|);
    assert rest[..|rest|] == rest;
    GoneOutside(d, now, end);
  }

  lemma PlanOf(identity: Identity, now: Identity)
    requires now == Cleared(identity).(purging := true)
    ensures PurgePlan(Cleared(identity)) == ReplacePlan(Installation, Record(now)) + PurgeRest(now)
  {}

  lemma GoneOutside(d: Disk, identity: Identity, r: Disk)
    requires Purgeable(d, identity, r) && Gone(r, identity.executable)
    ensures r == Outside(d, identity.executable)
  {
    assert Outside(r, identity.executable) == r;
  }

  predicate IsRecord(p: Path) {
    IsServiceFile(p) || p == Registrations || p == RegistrationsTmp
  }

  predicate NoRecords(d: Disk) {
    forall p <- d :: !IsRecord(p)
  }

  /** Nothing has been revoked yet. */
  predicate Unrevoked(d: Disk) {
    Installation in d && d[Installation].Record? && !d[Installation].identity.purging
  }

  /** The flag goes up only when no service and no registration is left, and a database goes
      only after its journal. */
  predicate InOrder(had: bool, d: Disk) {
    (Unrevoked(d) || NoRecords(d)) && (had && Journal in d ==> Database in d)
  }

  /** Mutations by which nothing comes back: no record and no journal. */
  predicate Final(op: Op) {
    match op {
      case Unlink(_) => true
      case Touch(p) => p != Journal && !IsRecord(p)
      case Fill(p, _) => p != Journal && !IsRecord(p)
      case Rename(_, to) => to != Journal && !IsRecord(to)
    }
  }

  lemma {:induction false} FinalThrough(had: bool, d: Disk, ops: seq<Op>)
    requires NoRecords(d) && Journal !in d && forall op <- ops :: Final(op)
    ensures Through(d, ops, r => InOrder(had, r))
    decreases |ops|
  {
    if ops != [] {
      assert Final(ops[0]);
      FinalThrough(had, Do(d, ops[0]), ops[1..]);
    }
  }

  lemma {:induction false} UnlinksFinal(paths: seq<Path>)
    ensures forall op <- Unlinks(paths) :: Final(op)
  {
    if paths != [] {
      UnlinksFinal(paths[1..]);
    }
  }

  predicate Spare(p: Path) {
    p != Database && p != Installation
  }

  /** While nothing is revoked yet, anything but the database may change. */
  predicate Early(op: Op) {
    match op {
      case Unlink(p) => Spare(p)
      case Touch(p) => p != Journal
      case Fill(p, _) => p != Journal && p != Installation
      case Rename(p, to) => Spare(p) && to != Journal && to != Installation
    }
  }

  lemma {:induction false} EarlyThrough(had: bool, d: Disk, ops: seq<Op>)
    requires Unrevoked(d) && InOrder(had, d) && forall op <- ops :: Early(op)
    ensures Through(d, ops, r => InOrder(had, r)) && Unrevoked(DoAll(d, ops)) && InOrder(had, DoAll(d, ops))
    decreases |ops|
  {
    if ops != [] {
      assert Early(ops[0]);
      EarlyThrough(had, Do(d, ops[0]), ops[1..]);
    }
  }

  lemma {:induction false} UnlinksEarly(paths: seq<Path>)
    requires forall p <- paths :: Spare(p)
    ensures forall op <- Unlinks(paths) :: Early(op)
  {
    if paths != [] {
      UnlinksEarly(paths[1..]);
    }
  }

  lemma {:induction false} SavesEarly(saves: seq<nat>)
    ensures forall op <- Saves(saves) :: Early(op)
  {
    if saves != [] {
      SavesEarly(saves[1..]);
    }
  }

  lemma {:induction false} SavesKeepServices(d: Disk, saves: seq<nat>)
    ensures ServiceRecord in DoAll(d, Saves(saves)) <==> ServiceRecord in d
    decreases |saves|
  {
    if saves != [] {
      var one := ReplacePlan(Registrations, Other(saves[0]));
      ReplaceAll(d, Registrations, Other(saves[0]));
      DoConcat(d, one, Saves(saves[1..]));
      SavesKeepServices(DoAll(d, one), saves[1..]);
    }
  }

  /** The service is stopped if it is recorded, and then no record of either kind is left. */
  lemma ServiceEmpties(d: Disk, w: Work)
    requires w.stopped <==> ServiceRecord in d
    ensures NoRecords(DoAll(d, ServicePlan(w)))
  {
    var stopping, saving, records := if w.stopped then Unlinks(STOPPING) else [], Saves(w.saves), Unlinks(RECORDS);
    DoConcat(d, stopping, saving);
    DoConcat(d, stopping + saving, records);
    UnlinkAll(d, STOPPING);
    var d1 := DoAll(d, stopping);
    assert ServiceRecord !in d1;
    SavesKeepServices(d1, w.saves);
    UnlinkAll(DoAll(d1, saving), RECORDS);
  }

  lemma ServiceInOrder(had: bool, d: Disk, w: Work)
    requires Unrevoked(d) && InOrder(had, d)
    ensures var m := DoAll(d, ServicePlan(w)); Through(d, ServicePlan(w), r => InOrder(had, r)) && Unrevoked(m) && InOrder(had, m)
  {
    UnlinksEarly(STOPPING);
    UnlinksEarly(RECORDS);
    SavesEarly(w.saves);
    EarlyThrough(had, d, ServicePlan(w));
  }

  lemma PublishInOrder(had: bool, d: Disk, identity: Identity)
    requires InOrder(had, d) && NoRecords(d)
    ensures var plan := ReplacePlan(Installation, Record(identity));
      Through(d, plan, r => InOrder(had, r)) && InOrder(had, DoAll(d, plan)) && NoRecords(DoAll(d, plan))
  {
    var plan := ReplacePlan(Installation, Record(identity));
    ReplaceAll(d, Installation, Record(identity));
    ThroughFour(d, plan, r => InOrder(had, r));
  }

  lemma RestInOrder(had: bool, d: Disk, identity: Identity)
    requires InOrder(had, d) && NoRecords(d)
    ensures Through(d, PurgeRest(identity), r => InOrder(had, r))
  {
    var journal, database, finish := Unlinks([Journal]), Unlinks([Database]), FinishPlan(identity);
    UnlinkAll(d, [Journal]);
    assert journal == [Unlink(Journal)] && |journal[1..]| == 0;
    assert Through(DoAll(d, journal), journal[1..], r => InOrder(had, r));
    UnlinksFinal([Database]);
    UnlinksFinal(First(identity.executable));
    UnlinksFinal(TERMINAL);
    FinalThrough(had, DoAll(d, journal), database + finish);
    ThroughConcat(d, journal, database + finish, r => InOrder(had, r));
    assert [Journal, Database][1..] == [Database];
    assert Unlinks(DATA) == journal + database;
    assert PurgeRest(identity) == journal + (database + finish);
  }

  lemma RevokeInOrder(had: bool, d: Disk, identity: Identity, now: Identity)
    requires InOrder(had, d) && NoRecords(d)
    ensures Through(d, ClearPlan(identity) + (ReplacePlan(Installation, Record(now)) + PurgeRest(now)), r => InOrder(had, r))
  {
    hide InOrder, NoRecords, PurgeRest, ReplacePlan;
    var good := r => InOrder(had, r);
    var clear, replace, rest := ClearPlan(identity), ReplacePlan(Installation, Record(now)), PurgeRest(now);
    PublishInOrder(had, d, Cleared(identity));
    var m := DoAll(d, clear);
    PublishInOrder(had, m, now);
    RestInOrder(had, DoAll(m, replace), now);
    ThroughConcat(m, replace, rest, good);
    assert Through(d, clear, good);
    ThroughConcat(d, clear, replace + rest, good);
  }

  lemma PlanParts(identity: Identity, w: Work)
    requires !identity.purging
    ensures var now := Cleared(identity).(purging := true);
      UninstallPlan(Pinned(identity, false), w) ==
        ServicePlan(w) + (ClearPlan(identity) + (ReplacePlan(Installation, Record(now)) + PurgeRest(now)))
  {
    hide ServicePlan, ClearPlan, ReplacePlan, PurgeRest;
    PlanOf(identity, Cleared(identity).(purging := true));
    assert Locks(Pinned(identity, false)) == [];
  }

  lemma FirstInOrder(d: Disk, identity: Identity, w: Work)
    requires Unrevoked(d) && !identity.purging && (w.stopped <==> ServiceRecord in d) && InOrder(Database in d, d)
    ensures Through(d, UninstallPlan(Pinned(identity, false), w), r => InOrder(Database in d, r))
  {
    hide InOrder, NoRecords, ServicePlan, PurgeRest, ReplacePlan, ClearPlan, PurgePlan, Through, UninstallPlan;
    var had, now := Database in d, Cleared(identity).(purging := true);
    ServiceInOrder(had, d, w);
    ServiceEmpties(d, w);
    PlanParts(identity, w);
    var service, purge := ServicePlan(w), ClearPlan(identity) + (ReplacePlan(Installation, Record(now)) + PurgeRest(now));
    RevokeInOrder(had, DoAll(d, service), identity, now);
    ThroughConcat(d, service, purge, r => InOrder(had, r));
  }

  /** Wherever the first purge is stopped: access is revoked only after every service and
      registration record has gone, and no journal outlives its database. */
  lemma RevokedLast(d: Disk, identity: Identity, w: Work, r: Disk)
    requires Installed(d, identity) && (w.stopped <==> ServiceRecord in d)
    requires Stopped(d, UninstallPlan(Pinned(identity, false), w), r)
    ensures !Unrevoked(r) ==> NoRecords(r)
    ensures Database in d && Journal in r ==> Database in r
  {
    assert InOrder(Database in d, d) && Unrevoked(d);
    FirstInOrder(d, identity, w);
    hide Installed, UninstallPlan;
    assert SiblingsDoNotMatter(r => InOrder(Database in d, r));
    StoppedThrough(d, UninstallPlan(Pinned(identity, false), w), r => InOrder(Database in d, r), r);
  }
}
