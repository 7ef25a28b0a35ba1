/**
 The last unlinks of a purge, one at a time, while other processes run the initializing
 open: how far such an open can get, and what it can leave behind.

 An opener looks for the identity record, opens or creates the lifecycle lock, and then
 looks for the receipt. These are three moments, and unlinks happen between them.
 */
module LateOpens {
  import Runs
  import opened InstallationDisk
  import opened PurgeStore
  import Initialization

  datatype Opener = Outside | Looked(create: bool) | Locked | Past

  /** `done` counts the unlinks so far, from the disk on which the last ones began. */
  datatype System = System(disk: Disk, done: nat, openers: seq<Opener>)

  datatype Event = Unlink | Look(i: nat) | OpenLock(i: nat) | Decide(i: nat) | GiveUp(i: nat)

  const LAST: seq<Path> := TERMINAL + [Receipt]

  predicate Enabled(s: System, e: Event) {
    match e {
      case Unlink => s.done < |LAST|
      case Look(i) => i < |s.openers| && s.openers[i].Outside?
      case OpenLock(i) => i < |s.openers| && s.openers[i].Looked?
      case Decide(i) => i < |s.openers| && s.openers[i].Locked?
      case GiveUp(i) => i < |s.openers| && !s.openers[i].Past?
    }
  }

  function After(s: System, e: Event): System
    requires Enabled(s, e)
  {
    match e {
      case Unlink => s.(disk := s.disk - {LAST[s.done]}, done := s.done + 1)
      case Look(i) => s.(openers := s.openers[i := Looked(Installation !in s.disk)])
      case OpenLock(i) =>
        if LifecycleLock in s.disk then s.(openers := s.openers[i := Locked])
        else if s.openers[i].create then s.(disk := s.disk[LifecycleLock := EMPTY], openers := s.openers[i := Locked])
        else s.(openers := s.openers[i := Outside])
      case Decide(i) => s.(openers := s.openers[i := if Receipt in s.disk then Outside else Past])
      case GiveUp(i) => s.(openers := s.openers[i := Outside])
    }
  }

  ghost predicate Step(s: System, e: Event, t: System) {
    Enabled(s, e) && t == After(s, e)
  }

  /** Where the purge begins its last unlinks: everything ordinary is gone, identity and
      receipt are both there. */
  predicate Begins(d: Disk, identity: Identity) {
    && Recoverable(d, identity) && Installation in d && LifecycleLock in d
    && Receipt in d && d[Receipt] == Record(identity)
    && forall p <- d :: IsOwned(p, identity.executable) ==> p in LAST
  }

  lemma LastUnlinksBegin(d: Disk, identity: Identity)
    requires Recoverable(d, identity) && Installation in d
    ensures Begins(DoAll(d, FinishHead(identity)), identity)
  {
    var r := DoAll(d, FinishHead(identity));
    var end := HeadThrough(d, identity, d);
    forall p | p in r && IsOwned(p, identity.executable) ensures p in LAST {
      assert p !in end;
    }
  }

  /** The disk after so many unlinks, if nobody else were there. */
  function Left(d: Disk, done: nat): Disk
    requires done <= |LAST|
  {
    d - set p | p in LAST[..done]
  }

  predicate Inv(d: Disk, s: System) {
    && s.done <= |LAST|
    && (s.disk == Left(d, s.done) || (s.done >= 4 && s.disk == Left(d, s.done)[LifecycleLock := EMPTY]))
    && (forall i :: 0 <= i < |s.openers| ==>
          && (s.openers[i].Looked? && s.openers[i].create ==> s.done >= 3)
          && (s.openers[i].Past? ==> s.done == |LAST|))
  }

  lemma LeftMore(d: Disk, done: nat)
    requires done < |LAST|
    ensures Left(d, done + 1) == Left(d, done) - {LAST[done]}
  {
    assert LAST[..done + 1] == LAST[..done] + [LAST[done]];
  }

  /** Which of the names that matter are still there. */
  lemma StillThere(d: Disk, identity: Identity, done: nat)
    requires Begins(d, identity) && done <= |LAST|
    ensures Installation in Left(d, done) <==> done < 3
    ensures LifecycleLock in Left(d, done) <==> done < 4
    ensures Receipt in Left(d, done) <==> done < 6
  {
    assert LAST[2] == Installation && LAST[3] == LifecycleLock && LAST[5] == Receipt;
    var gone := set p | p in LAST[..done];
    assert done >= 3 ==> LAST[..done][2] == Installation;
    assert done >= 4 ==> LAST[..done][3] == LifecycleLock;
    assert done >= 6 ==> LAST[..done][5] == Receipt;
    assert forall k :: 0 <= k < done ==> LAST[..done][k] == LAST[k];
  }

  lemma UnlinkKept(d: Disk, identity: Identity, s: System)
    requires Begins(d, identity) && Inv(d, s) && s.done < |LAST|
    ensures Inv(d, After(s, Event.Unlink))
  {
    LeftMore(d, s.done);
    if s.disk != Left(d, s.done) {
      assert LAST[s.done] != LifecycleLock;
      assert s.disk - {LAST[s.done]} == Left(d, s.done + 1)[LifecycleLock := EMPTY];
    }
  }

  lemma InvKept(d: Disk, identity: Identity, s: System, e: Event)
    requires Begins(d, identity) && Inv(d, s) && Enabled(s, e)
    ensures Inv(d, After(s, e))
  {
    StillThere(d, identity, s.done);
    if e.Unlink? {
      UnlinkKept(d, identity, s);
    }
  }

  /** At every moment an opener has added at most a fresh lifecycle lock, after the old one
      went; none gets past the receipt before the purge has done its last unlink, and then
      it finds a directory in which nothing has been initialized. */
  lemma OpensDuringLastUnlinks(
    d: Disk, identity: Identity, openers: nat, states: seq<System>, events: seq<Event>, i: nat, o: nat)
    requires Begins(d, identity) && i < |states|
    requires Runs.Run(System(d, 0, seq(openers, _ => Outside)), Step, states, events)
    ensures var s := states[i];
      && s.done <= |LAST|
      && (s.disk == Left(d, s.done) || (s.done >= 4 && s.disk == Left(d, s.done)[LifecycleLock := EMPTY]))
      && (s.done < |LAST| ==> Recoverable(s.disk, identity))
      && (o < |s.openers| && s.openers[o].Past? ==>
            && s.done == |LAST| && Initialization.Initializing(s.disk, identity.root)
            && forall p <- s.disk :: IsOwned(p, identity.executable) ==> p == LifecycleLock)
  {
    var start := System(d, 0, seq(openers, _ => Outside));
    assert Left(d, 0) == d;
    hide After, Enabled, Begins, Recoverable;
    forall s, e, t | Inv(d, s) && Step(s, e, t) ensures Inv(d, t) {
      InvKept(d, identity, s, e);
    }
    Runs.Invariant(start, Step, s => Inv(d, s), states, events, i);
    Remains(d, identity, states[i]);
  }

  lemma Remains(d: Disk, identity: Identity, s: System)
    requires Begins(d, identity) && Inv(d, s)
    ensures s.done < |LAST| ==> Recoverable(s.disk, identity)
    ensures s.done == |LAST| ==> forall p <- s.disk :: IsOwned(p, identity.executable) ==> p == LifecycleLock
    ensures s.done == |LAST| ==> Initialization.Initializing(s.disk, identity.root)
  {
    StillThere(d, identity, s.done);
    if s.done == |LAST| {
      assert LAST[..s.done] == LAST;
    }
  }

  /** Once the purge is through an opener gets past, and not before: it is refused as long as
      the receipt is there, and held up by nothing else. */
  lemma OpensAgain(d: Disk, identity: Identity, s: System, i: nat) returns (a: System, b: System, t: System)
    requires Begins(d, identity) && Inv(d, s) && i < |s.openers| && s.openers[i].Outside?
    ensures Step(s, Look(i), a) && Step(a, OpenLock(i), b) && Step(b, Decide(i), t)
    ensures i < |t.openers| && t.done == s.done
    ensures t.openers[i] == if s.done == |LAST| then Past else Outside
  {
    StillThere(d, identity, s.done);
    a := After(s, Look(i));
    b := After(a, OpenLock(i));
    t := After(b, Decide(i));
  }
}
