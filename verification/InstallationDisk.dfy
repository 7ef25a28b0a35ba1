/**
 The installation directory: the identity record that every open and lease checks, and
 the file-system steps of initialization and purge.

 A disk is a map from names to contents. Every operation has a plan, the list of its
 mutations; stopping it anywhere leaves a prefix of the plan, less the publication
 sibling that an error return still unlinks.
 */
module InstallationDisk {
  datatype Path =
    | Database | Journal
    | Installation | InstallationTmp
    | LifecycleLock | GateLock | StateLock
    | KnownHosts | KnownHostsTmp
    | ServiceRecord | ServiceRecordTmp
    | ServiceUnit | ServiceUnitTmp
    | Registrations | RegistrationsTmp
    | Receipt | ReceiptTmp
    | Executable
    | Foreign(name: nat)

  /** What the decoder authenticates; the derived members of the document are left out. */
  datatype Identity = Identity(
    root: nat, id: nat, established: bool, purging: bool, pending: bool, executable: bool)

  datatype Content = Record(identity: Identity) | Other(bytes: nat)

  type Disk = map<Path, Content>

  const EMPTY := Other(0)

  // ---------------------------------------------------------------------
  // Mutations
  // ---------------------------------------------------------------------

  datatype Op = Unlink(path: Path) | Touch(path: Path) | Fill(path: Path, content: Content) | Rename(path: Path, to: Path)

  function Do(d: Disk, op: Op): Disk {
    match op {
      case Unlink(p) => d - {p}
      case Touch(p) => if p in d then d else d[p := EMPTY]
      case Fill(p, content) => d[p := content]
      case Rename(p, to) => if p in d then d[to := d[p]] - {p} else d
    }
  }

  function DoAll(d: Disk, ops: seq<Op>): Disk
    decreases |ops|
  {
    if ops == [] then d else DoAll(Do(d, ops[0]), ops[1..])
  }

  const SIBLINGS: set<Path> := {InstallationTmp, ReceiptTmp, RegistrationsTmp}

  function Sibling(p: Path): Path {
    if p == Receipt then ReceiptTmp else if p == Registrations then RegistrationsTmp else InstallationTmp
  }

  /** Documents that are published through a sibling here. */
  predicate Published(p: Path) {
    p == Installation || p == Receipt || p == Registrations
  }

  /** Publication through a sibling: recover it, create it, fill it, rename it. */
  function ReplacePlan(p: Path, content: Content): seq<Op> {
    [Unlink(Sibling(p)), Touch(Sibling(p)), Fill(Sibling(p), content), Rename(Sibling(p), p)]
  }

  function Unlinks(paths: seq<Path>): (ops: seq<Op>)
    ensures |ops| == |paths|
  {
    if paths == [] then [] else [Unlink(paths[0])] + Unlinks(paths[1..])
  }

  function Touches(paths: seq<Path>): (ops: seq<Op>)
    ensures |ops| == |paths|
  {
    if paths == [] then [] else [Touch(paths[0])] + Touches(paths[1..])
  }

  /** A disk that stopping `plan` can leave: a prefix, with or without siblings. */
  ghost predicate Stopped(d: Disk, plan: seq<Op>, r: Disk) {
    exists k, gone :: 0 <= k <= |plan| && gone <= SIBLINGS && r == DoAll(d, plan[..k]) - gone
  }

  // ---------------------------------------------------------------------
  // Identity
  // ---------------------------------------------------------------------

  datatype Verdict = Good | Purging | Pending | Stale | Missing | Ownership | BadState

  datatype Reading = Found(content: Content, terminal: bool) | Unread(error: Verdict)

  predicate Decodes(c: Content, root: nat) {
    c.Record? && c.identity.root == root
  }

  /** The identity record, or else the terminal receipt if it names a purge. */
  function ReadIdentity(d: Disk, root: nat): Reading {
    if Installation in d then Found(d[Installation], false)
    else if Receipt !in d then Unread(Missing)
    else if Decodes(d[Receipt], root) && d[Receipt].identity.purging then Found(d[Receipt], true)
    else Unread(Ownership)
  }

  /** What a lease of a store opened as installation `id` finds. */
  function VerifyIdentity(d: Disk, root: nat, id: nat): Verdict {
    var reading := ReadIdentity(d, root);
    if reading.Unread? || !Decodes(reading.content, root) || reading.content.identity.id != id then Stale
    else if reading.content.identity.purging then Purging
    else if reading.content.identity.pending then Pending
    else if !reading.content.identity.established then Stale
    else Good
  }

  predicate Admits(v: Verdict, purge: bool) {
    v.Good? || (purge && (v.Purging? || v.Pending?))
  }

  datatype Opened = Pinned(identity: Identity, terminal: bool) | Failed(error: Verdict)

  function OpenExisting(d: Disk, root: nat, cleanup: bool): Opened {
    var reading := ReadIdentity(d, root);
    if reading.Unread? then Failed(reading.error)
    else if !Decodes(reading.content, root) then Failed(Ownership)
    else
      var identity := reading.content.identity;
      if identity.pending && !cleanup then Failed(Pending)
      else if identity.purging && !cleanup then Failed(Purging)
      else Pinned(identity, reading.terminal)
  }

  // ---------------------------------------------------------------------
  // Open
  // ---------------------------------------------------------------------

  datatype Plan = Plan(ops: seq<Op>, verdict: Verdict)

  function Then(ops: seq<Op>, rest: Plan): Plan {
    Plan(ops + rest.ops, rest.verdict)
  }

  /** The last part of Open: the two state locks, and then the database unless purging. */
  function OpenLocks(d: Disk, identity: Identity): Plan {
    if identity.established && (GateLock !in d || StateLock !in d) then Plan([], Missing)
    else
      var locks := if identity.established then [] else [Touch(GateLock), Touch(StateLock)];
      if identity.purging then Plan(locks, Good)
      else if identity.established then
        (if Journal in d && Database !in d then Plan([], BadState) else Plan([], Good))
      else
        Plan(locks + [Touch(Database)] + ReplacePlan(Installation, Record(identity.(established := true))), Good)
  }

  /** Everything Open does; `newId` is the ID it would generate. */
  function Open(d: Disk, root: nat, newId: nat): Plan {
    if Installation in d && LifecycleLock !in d then Plan([], Missing)
    else
      var lifecycle := if Installation in d then [] else [Touch(LifecycleLock)];
      if Receipt in d then Plan(lifecycle, Purging)
      else if Installation !in d then
        if Database in d then Plan(lifecycle, Ownership)
        else
          var identity := Identity(root, newId, false, false, false, false);
          Then(lifecycle + ReplacePlan(Installation, Record(identity)), OpenLocks(d, identity))
      else if !Decodes(d[Installation], root) then Plan([], Ownership)
      else OpenLocks(d, d[Installation].identity)
  }

  // ---------------------------------------------------------------------
  // Purge
  // ---------------------------------------------------------------------

  /** The inventory without identity, stable locks and receipt, in its own order. */
  const ORDINARY: seq<Path> := [
    Database, Journal, InstallationTmp, KnownHosts, KnownHostsTmp, ServiceRecord, ServiceRecordTmp,
    ServiceUnit, ServiceUnitTmp, Registrations, RegistrationsTmp]

  function First(executable: bool): seq<Path> {
    ORDINARY + if executable then [Executable] else []
  }

  /** Identity goes after the state locks and before its own lock. */
  const TERMINAL: seq<Path> := [StateLock, GateLock, Installation, LifecycleLock, ReceiptTmp]

  function FinishPlan(identity: Identity): seq<Op> {
    Unlinks(First(identity.executable)) +
    ReplacePlan(Receipt, Record(identity)) +
    Unlinks(TERMINAL) + [Unlink(Receipt)]
  }

  const DATA: seq<Path> := [Journal, Database]

  /** From the durable purge flag to the last unlink. */
  function PurgeRest(identity: Identity): seq<Op> {
    Unlinks(DATA) + FinishPlan(identity)
  }

  function PurgePlan(identity: Identity): seq<Op> {
    ReplacePlan(Installation, Record(identity.(purging := true))) + PurgeRest(identity.(purging := true))
  }

  /** What an uninstall finds outside the identity: whether there is a service record, and
      the registration documents that it publishes while removing agents one by one. */
  datatype Work = Work(stopped: bool, saves: seq<nat>)

  const STOPPING: seq<Path> := [ServiceUnitTmp, ServiceUnit, ServiceRecordTmp, ServiceRecord]

  const RECORDS: seq<Path> := [RegistrationsTmp, Registrations, ServiceRecordTmp, ServiceUnitTmp, ServiceUnit]

  function Saves(saves: seq<nat>): seq<Op> {
    if saves == [] then [] else ReplacePlan(Registrations, Other(saves[0])) + Saves(saves[1..])
  }

  /** Stopping the service and removing registrations, before anything is revoked. */
  function ServicePlan(w: Work): seq<Op> {
    (if w.stopped then Unlinks(STOPPING) else []) + Saves(w.saves) + Unlinks(RECORDS)
  }

  function Cleared(identity: Identity): Identity {
    identity.(pending := false)
  }

  function ClearPlan(identity: Identity): seq<Op> {
    if identity.pending then ReplacePlan(Installation, Record(Cleared(identity))) else []
  }

  /** Locks are recreated only when a purge may have removed them. */
  function Locks(o: Opened): seq<Path>
    requires o.Pinned?
  {
    (if o.terminal then [LifecycleLock] else []) + (if o.identity.purging then [GateLock, StateLock] else [])
  }

  /** A whole uninstall with purge: locks, service and registrations, a pending flag left
      by an older installer, and then the purge. */
  function UninstallPlan(o: Opened, w: Work): seq<Op>
    requires o.Pinned?
  {
    Touches(Locks(o)) + ServicePlan(w) + ClearPlan(o.identity) + PurgePlan(Cleared(o.identity))
  }

  /** Names a purge of this installation may remove: the inventory, and the executable
      once the identity records it. */
  predicate IsOwned(p: Path, executable: bool) {
    !p.Foreign? && (p.Executable? ==> executable)
  }

  predicate Gone(d: Disk, executable: bool) {
    forall p <- d :: !IsOwned(p, executable)
  }

  /** Everything on the disk that is not the installation's. */
  function Outside(d: Disk, executable: bool): Disk {
    map p | p in d && !IsOwned(p, executable) :: d[p]
  }

  /** A valid purging identity, whatever its pending flag: all that a retry needs. */
  predicate Recoverable(d: Disk, identity: Identity) {
    var o := OpenExisting(d, identity.root, true);
    && identity.purging
    && o.Pinned? && Cleared(o.identity) == Cleared(identity)
    && (Installation in d ==> LifecycleLock in d)
  }

  /** An established installation with its stable locks. */
  predicate Installed(d: Disk, identity: Identity) {
    && Installation in d && d[Installation] == Record(identity) && !identity.purging
    && LifecycleLock in d && GateLock in d && StateLock in d
  }

  // ---------------------------------------------------------------------
  // Plans
  // ---------------------------------------------------------------------

  lemma {:induction false} DoConcat(d: Disk, a: seq<Op>, b: seq<Op>)
    ensures DoAll(d, a + b) == DoAll(DoAll(d, a), b)
    decreases |a|
  {
    if a == [] {
      assert a + b == b;
    } else {
      assert (a + b)[1..] == a[1..] + b;
      DoConcat(Do(d, a[0]), a[1..], b);
    }
  }

  lemma {:induction false} UnlinkAll(d: Disk, paths: seq<Path>)
    ensures DoAll(d, Unlinks(paths)) == d - set p | p in paths
  {
    if paths != [] {
      UnlinkAll(d - {paths[0]}, paths[1..]);
      assert (set p | p in paths) == {paths[0]} + set p | p in paths[1..];
    }
  }

  lemma ReplaceAll(d: Disk, p: Path, content: Content)
    requires Published(p)
    ensures DoAll(d, ReplacePlan(p, content)) == (d - {Sibling(p)})[p := content]
  {
    var plan := ReplacePlan(p, content);
    var d3 := Do(Do(Do(d, plan[0]), plan[1]), plan[2]);
    assert plan[1..][0] == plan[1] && plan[1..][1..][0] == plan[2];
    var last := plan[1..][1..][1..];
    assert last[0] == plan[3] && |last[1..]| == 0;
    assert DoAll(d3, last) == Do(d3, plan[3]);
    assert DoAll(Do(d, plan[0]), plan[1..]) == DoAll(Do(Do(d, plan[0]), plan[1]), plan[1..][1..]);
  }

  /** Every moment of the plan, before its first step and after each one. */
  ghost predicate Through(d: Disk, ops: seq<Op>, good: Disk -> bool)
    decreases |ops|
  {
    good(d) && (ops != [] ==> Through(Do(d, ops[0]), ops[1..], good))
  }

  lemma {:induction false} ThroughAt(d: Disk, ops: seq<Op>, good: Disk -> bool, k: nat)
    requires Through(d, ops, good) && k <= |ops|
    ensures good(DoAll(d, ops[..k]))
    decreases k
  {
    if k > 0 {
      assert ops[..k][1..] == ops[1..][..k - 1];
      ThroughAt(Do(d, ops[0]), ops[1..], good, k - 1);
    }
  }

  lemma {:induction false} ThroughConcat(d: Disk, a: seq<Op>, b: seq<Op>, good: Disk -> bool)
    requires Through(d, a, good) && Through(DoAll(d, a), b, good)
    ensures Through(d, a + b, good)
    decreases |a|
  {
    if a == [] {
      assert a + b == b;
    } else {
      assert (a + b)[1..] == a[1..] + b;
      ThroughConcat(Do(d, a[0]), a[1..], b, good);
    }
  }

  ghost predicate SiblingsDoNotMatter(good: Disk -> bool) {
    forall d, gone :: good(d) && gone <= SIBLINGS ==> good(d - gone)
  }

  lemma StoppedThrough(d: Disk, plan: seq<Op>, good: Disk -> bool, r: Disk)
    requires Through(d, plan, good) && SiblingsDoNotMatter(good) && Stopped(d, plan, r)
    ensures good(r)
  {
    var k, gone :| 0 <= k <= |plan| && gone <= SIBLINGS && r == DoAll(d, plan[..k]) - gone;
    ThroughAt(d, plan, good, k);
  }

  lemma StoppedSplit(d: Disk, a: seq<Op>, b: seq<Op>, r: Disk)
    ensures Stopped(d, a + b, r) <==> Stopped(d, a, r) || Stopped(DoAll(d, a), b, r)
  {
    if Stopped(d, a + b, r) {
      var k, gone :| 0 <= k <= |a + b| && gone <= SIBLINGS && r == DoAll(d, (a + b)[..k]) - gone;
      if k <= |a| {
        assert (a + b)[..k] == a[..k];
      } else {
        assert (a + b)[..k] == a + b[..k - |a|];
        DoConcat(d, a, b[..k - |a|]);
      }
    }
    if Stopped(d, a, r) {
      var k, gone :| 0 <= k <= |a| && gone <= SIBLINGS && r == DoAll(d, a[..k]) - gone;
      assert (a + b)[..k] == a[..k];
    }
    if Stopped(DoAll(d, a), b, r) {
      var k, gone :| 0 <= k <= |b| && gone <= SIBLINGS && r == DoAll(DoAll(d, a), b[..k]) - gone;
      assert (a + b)[..|a| + k] == a + b[..k];
      DoConcat(d, a, b[..k]);
    }
  }
}
