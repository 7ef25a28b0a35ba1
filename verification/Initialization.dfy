/**
 First initialization: it can be retried after a stop between any two of its steps.
 */
module Initialization {
  import opened InstallationDisk
  import opened PurgeStore

  /** A directory in which only initializing opens have run. */
  predicate Initializing(d: Disk, root: nat) {
    && Receipt !in d
    && (Installation !in d ==> Database !in d)
    && (Installation in d ==>
          && Decodes(d[Installation], root) && LifecycleLock in d
          && !d[Installation].identity.purging && !d[Installation].identity.pending
          && (d[Installation].identity.established ==> GateLock in d && StateLock in d && Database in d))
  }

  predicate SameInstallation(d: Disk, r: Disk, root: nat) {
    Initializing(r, root) &&
    (Installation in d && d[Installation].Record? ==>
      Installation in r && r[Installation].identity.id == d[Installation].identity.id)
  }

  lemma InitializeStep(start: Disk, root: nat, d: Disk, op: Op)
    requires Initializing(start, root) && SameInstallation(start, d, root)
    requires
      || (op.Touch? && (IsLock(op.path) || op.path == InstallationTmp))
      || (op.Touch? && op.path == Database && Installation in d)
      || ((op.Unlink? || op.Fill?) && op.path == InstallationTmp)
    ensures SameInstallation(start, Do(d, op), root)
  {}

  lemma ReplaceInitializes(start: Disk, root: nat, d: Disk, identity: Identity)
    requires Initializing(start, root) && SameInstallation(start, d, root) && LifecycleLock in d
    requires identity.root == root && !identity.purging && !identity.pending
    requires identity.established ==> GateLock in d && StateLock in d && Database in d
    requires Installation in start ==> identity.id == start[Installation].identity.id
    ensures Through(d, ReplacePlan(Installation, Record(identity)), r => SameInstallation(start, r, root))
    ensures DoAll(d, ReplacePlan(Installation, Record(identity))) == (d - {InstallationTmp})[Installation := Record(identity)]
    ensures SameInstallation(start, DoAll(d, ReplacePlan(Installation, Record(identity))), root)
  {
    var plan, good := ReplacePlan(Installation, Record(identity)), r => SameInstallation(start, r, root);
    var d1 := Do(d, plan[0]);
    var d2 := Do(d1, plan[1]);
    var d3 := Do(d2, plan[2]);
    InitializeStep(start, root, d, plan[0]);
    InitializeStep(start, root, d1, plan[1]);
    InitializeStep(start, root, d2, plan[2]);
    ReplaceAll(d, Installation, Record(identity));
    assert Do(d3, plan[3]) == (d - {InstallationTmp})[Installation := Record(identity)];
    ThroughFour(d, plan, good);
  }

  lemma TouchesInitialize(start: Disk, root: nat, d: Disk, touches: seq<Op>)
    requires Initializing(start, root) && SameInstallation(start, d, root) && Installation in d
    requires touches == [Touch(GateLock), Touch(StateLock), Touch(Database)]
    ensures var d3 := DoAll(d, touches);
      && Through(d, touches, r => SameInstallation(start, r, root))
      && SameInstallation(start, d3, root) && GateLock in d3 && StateLock in d3 && Database in d3
      && Installation in d3 && d3[Installation] == d[Installation] && LifecycleLock in d3
  {
    hide Initializing;
    var d1 := Do(d, touches[0]);
    var d2 := Do(d1, touches[1]);
    InitializeStep(start, root, d, touches[0]);
    InitializeStep(start, root, d1, touches[1]);
    InitializeStep(start, root, d2, touches[2]);
    ThroughThree(d, touches, r => SameInstallation(start, r, root));
    Published(d, root);
  }

  lemma Published(d: Disk, root: nat)
    requires Initializing(d, root) && Installation in d
    ensures LifecycleLock in d
  {}

  /** The second half of Open, from any disk on which the identity is published. */
  lemma OpenLocksThrough(start: Disk, root: nat, d: Disk)
    requires Initializing(start, root) && SameInstallation(start, d, root) && Installation in d
    ensures var identity := d[Installation].identity;
      && OpenLocks(d, identity).verdict.Good?
      && Through(d, OpenLocks(d, identity).ops, r => SameInstallation(start, r, root))
      && VerifyIdentity(DoAll(d, OpenLocks(d, identity).ops), root, identity.id).Good?
  {
    var identity := d[Installation].identity;
    if !identity.established {
      var touches, now := [Touch(GateLock), Touch(StateLock), Touch(Database)], identity.(established := true);
      var replace := ReplacePlan(Installation, Record(now));
      TouchesInitialize(start, root, d, touches);
      ReplaceInitializes(start, root, DoAll(d, touches), now);
      ThroughConcat(d, touches, replace, r => SameInstallation(start, r, root));
      DoConcat(d, touches, replace);
      assert OpenLocks(d, identity).ops == touches + replace;
    }
  }

  lemma ThroughThree(d: Disk, ops: seq<Op>, good: Disk -> bool)
    requires |ops| == 3
    requires good(d) && good(Do(d, ops[0])) && good(Do(Do(d, ops[0]), ops[1])) && good(Do(Do(Do(d, ops[0]), ops[1]), ops[2]))
    ensures Through(d, ops, good)
    ensures DoAll(d, ops) == Do(Do(Do(d, ops[0]), ops[1]), ops[2])
  {
    var rest := ops[1..][1..];
    assert rest[0] == ops[2] && |rest[1..]| == 0;
    assert Through(Do(Do(d, ops[0]), ops[1]), rest, good) && DoAll(Do(Do(d, ops[0]), ops[1]), rest) == Do(Do(Do(d, ops[0]), ops[1]), ops[2]);
    assert ops[1..][0] == ops[1];
  }

  lemma OpenThrough(d: Disk, root: nat, newId: nat)
    requires Initializing(d, root)
    ensures var plan := Open(d, root, newId);
      && plan.verdict.Good? && Through(d, plan.ops, r => SameInstallation(d, r, root))
      && VerifyIdentity(DoAll(d, plan.ops), root, if Installation in d then d[Installation].identity.id else newId).Good?
  {
    var good := r => SameInstallation(d, r, root);
    if Installation in d {
      OpenLocksThrough(d, root, d);
    } else {
      var identity := Identity(root, newId, false, false, false, false);
      var touch, replace := [Touch(LifecycleLock)], ReplacePlan(Installation, Record(identity));
      var d1 := Do(d, touch[0]);
      InitializeStep(d, root, d, touch[0]);
      assert |touch[1..]| == 0 && Through(d1, touch[1..], good);
      assert DoAll(d, touch) == d1;
      ReplaceInitializes(d, root, d1, identity);
      var d2 := DoAll(d1, replace);
      OpenLocksThrough(d, root, d2);
      var rest := OpenLocks(d2, identity).ops;
      ThroughConcat(d1, replace, rest, good);
      DoConcat(d1, replace, rest);
      ThroughConcat(d, touch, replace + rest, good);
      DoConcat(d, touch, replace + rest);
      assert Open(d, root, newId).ops == touch + replace + rest == touch + (replace + rest);
    }
  }

  /** A failed initialization can be retried: stopping Open anywhere keeps the directory
      initializing and any published identity, and the Open that is not stopped gives a
      store that ordinary leases accept. */
  lemma InitializationRetryable(d: Disk, root: nat, newId: nat, r: Disk)
    requires Initializing(d, root)
    ensures Stopped(d, Open(d, root, newId).ops, r) ==> SameInstallation(d, r, root)
    ensures Open(d, root, newId).verdict.Good?
    ensures VerifyIdentity(DoAll(d, Open(d, root, newId).ops), root,
      if Installation in d then d[Installation].identity.id else newId).Good?
  {
    OpenThrough(d, root, newId);
    if Stopped(d, Open(d, root, newId).ops, r) {
      assert SiblingsDoNotMatter(r => SameInstallation(d, r, root));
      StoppedThrough(d, Open(d, root, newId).ops, r => SameInstallation(d, r, root), r);
    }
  }
}
