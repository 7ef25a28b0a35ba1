/**
 What the keyset's steps achieve when nothing fails: a key can always be had from where an
 earlier attempt was interrupted, and a secret can then be stored.
 */
module KeysetProgress {
  import Runs
  import opened ProfileDatabase
  import opened KeysetLifecycle

  const DONE := Write(true, true)

  predicate Free(s: System, p: nat) {
    p < |s.processes| && s.processes[p] == Process(Idle, None) && s.lifecycle.None? && s.writer.None?
  }

  /** Only this process, the row and the keychain have changed. */
  predicate Only(s: System, t: System, p: nat) {
    && |t.processes| == |s.processes| && p < |s.processes| && t.writer.None? && t.log == s.log
    && (forall q :: 0 <= q < |s.processes| && q != p ==> t.processes[q] == s.processes[q])
    && SameData(s.db, t.db)
  }

  predicate At(s: System, t: System, p: nat, stage: Stage) {
    Only(s, t, p) && t.processes[p] == Process(stage, None)
  }

  /** The process holds the key that the row records as ready. */
  predicate Holds(s: System, t: System, p: nat, fingerprint: nat) {
    && Only(s, t, p) && t.processes[p] == Process(Idle, Some(fingerprint)) && t.lifecycle.None?
    && ReadyAs(t.db, fingerprint) && t.keychain == Some(fingerprint)
  }

  lemma RowReads(s: System)
    requires Inv(s)
    ensures ReadKeyset(s.db) == Ok(s.db.keyset)
  {
    var _ := DistinctOwners(s.db.profiles, s.db.bundles);
  }

  lemma Go(s: System, m: System, e: KeysetLifecycle.Event)
    requires Runs.Reaches(s, KeysetLifecycle.Step, m) && Enabled(m, e)
    ensures Runs.Reaches(s, KeysetLifecycle.Step, After(m, e))
  {
    Runs.ReachesNext(s, KeysetLifecycle.Step, m, e, After(m, e));
  }

  lemma RowRead(s: System, p: nat) returns (t: System)
    requires Inv(s) && Free(s, p)
    ensures Runs.Reaches(s, KeysetLifecycle.Step, t) && At(s, t, p, Read(true, s.db.keyset))
    ensures t.lifecycle == Some(p) && t.db == s.db && t.keychain == s.keychain
  {
    RowReads(s);
    Runs.ReachesItself(s, KeysetLifecycle.Step);
    hide Inv;
    var a := After(s, Begin(p, true));
    Go(s, s, Begin(p, true));
    Go(s, a, ReadRow(p));
    t := After(a, ReadRow(p));
  }

  lemma Adopted(s: System, m: System, p: nat, k: Keyset) returns (t: System)
    requires Runs.Reaches(s, KeysetLifecycle.Step, m) && (At(s, m, p, Recorded(k, k.fingerprint)) || (At(s, m, p, Loaded(true, k, k.fingerprint)) && k.phase.Ready?))
    requires m.lifecycle == Some(p) && ReadyAs(m.db, k.fingerprint) && m.keychain == Some(k.fingerprint)
    ensures Runs.Reaches(s, KeysetLifecycle.Step, t) && Holds(s, t, p, k.fingerprint)
  {
    Go(s, m, Adopt(p));
    t := After(m, Adopt(p));
  }

  lemma FromLoaded(s: System, m: System, p: nat, k: Keyset) returns (t: System)
    requires Runs.Reaches(s, KeysetLifecycle.Step, m) && At(s, m, p, Loaded(true, k, k.fingerprint)) && k.phase.Intent?
    requires m.lifecycle == Some(p) && m.keychain == Some(k.fingerprint)
    ensures Runs.Reaches(s, KeysetLifecycle.Step, t) && Holds(s, t, p, k.fingerprint)
  {
    var a := After(m, SaveReady(p, DONE));
    Go(s, m, SaveReady(p, DONE));
    t := Adopted(s, a, p, k.(phase := Ready));
  }

  lemma FromNothing(s: System, m: System, p: nat, candidate: nat) returns (t: System)
    requires Runs.Reaches(s, KeysetLifecycle.Step, m) && (At(s, m, p, NeedsKey) || At(s, m, p, Read(true, None)))
    requires m.lifecycle == Some(p) && m.keychain.None?
    ensures Runs.Reaches(s, KeysetLifecycle.Step, t) && Holds(s, t, p, candidate)
  {
    var k := Keyset(Intent, candidate, 0);
    var a := After(m, Generate(p, candidate));
    var b := After(a, SaveIntent(p, DONE));
    Go(s, m, Generate(p, candidate));
    Go(s, a, SaveIntent(p, DONE));
    Go(s, b, CreateKey(p, DONE));
    t := FromLoaded(s, After(b, CreateKey(p, DONE)), p, k);
  }

  /** Whatever an earlier attempt left behind, a process that finds the leases free gets a key
      if nothing fails: the recorded one if it is there, and a new one as long as none was
      ever ready and none is there. Only a ready row whose key is lost is a dead end. */
  lemma KeyRecovered(s: System, p: nat, candidate: nat) returns (t: System, fingerprint: nat)
    requires Inv(s) && Free(s, p)
    requires match s.db.keyset
      case None => s.keychain.None?
      case Some(k) => s.keychain == Some(k.fingerprint) || (s.keychain.None? && k.phase.Intent?)
    ensures Runs.Reaches(s, KeysetLifecycle.Step, t) && Holds(s, t, p, fingerprint)
    ensures s.keychain.Some? ==> fingerprint == s.keychain.value
    ensures s.keychain.None? ==> fingerprint == candidate
  {
    var m := RowRead(s, p);
    fingerprint := if s.keychain.Some? then s.keychain.value else candidate;
    if s.db.keyset.None? {
      t := FromNothing(s, m, p, candidate);
    } else {
      var k := s.db.keyset.value;
      if k.phase.Intent? {
        NothingReserved(s);
      }
      hide Inv, Consistent;
      Go(s, m, Load(p));
      var a := After(m, Load(p));
      if s.keychain.None? {
        t := FromNothing(s, a, p, candidate);
      } else if k.phase.Intent? {
        t := FromLoaded(s, a, p, k);
      } else {
        t := Adopted(s, a, p, k);
      }
    }
  }

  lemma NothingReserved(s: System)
    requires Inv(s) && s.db.keyset.Some? && s.db.keyset.value.phase.Intent?
    ensures s.db.keyset.value.reserved == 0
  {}

  /** A process with a key stores a secret: one reservation, one encryption and one
      publication, if the row has a reservation left and the publication is acceptable. */
  lemma SecretStored(s: System, p: nat, c: Ciphertext, list: seq<Profile>, expected: Revision) returns (t: System)
    requires Inv(s) && p < |s.processes| && s.processes[p].stage.Idle? && s.processes[p].key.Some? && s.writer.None?
    requires c.data.Sealed? && c.data.key == s.processes[p].key.value
    requires s.db.keyset.Some? && s.db.keyset.value.reserved < 1_000_000
    requires Publication(s.db, list, expected, [c]).Ok?
    ensures Runs.Reaches(s, KeysetLifecycle.Step, t)
    ensures t.db == Publication(s.db, list, expected, [c]).value.(
      keyset := Some(s.db.keyset.value.(reserved := s.db.keyset.value.reserved + 1)))
    ensures t.log == s.log + [c.data.key] && t.writer.None? && t.keychain == s.keychain
  {
    SealedReached(s, p, c);
    SealingFacts(s, p, c);
    hide Inv, Publication, Sealing, KeysetLifecycle.Step;
    KeysetIgnored(s.db, OneMore(s.db), list, expected, [c]);
    t := StoredFrom(s, Sealing(s, p, c), p, list, expected, c);
  }

  lemma SealedReached(s: System, p: nat, c: Ciphertext)
    requires Inv(s) && p < |s.processes| && s.processes[p].stage.Idle? && s.processes[p].key.Some? && s.writer.None?
    requires c.data.Sealed? && c.data.key == s.processes[p].key.value
    requires s.db.keyset.Some? && s.db.keyset.value.reserved < 1_000_000
    ensures Runs.Reaches(s, KeysetLifecycle.Step, Sealing(s, p, c))
  {
    KeyUsable(s, p);
    hide Inv, Usable, Begun, Reserving, Sealing, KeysetLifecycle.Step;
    Reservation(s, p);
    Encryption(s, p, c);
    ThreeSteps(s, Lock(p), Begun(s, p, Writing([])), Reserve(p, DONE), Reserving(s, p), Encrypt(p, c), Sealing(s, p, c));
  }

  lemma StoredFrom(s: System, d: System, p: nat, list: seq<Profile>, expected: Revision, c: Ciphertext) returns (t: System)
    requires Runs.Reaches(s, KeysetLifecycle.Step, d)
    requires p < |d.processes| && d.processes[p].stage == Writing([c]) && d.writer == Some(p)
    requires Publication(d.db, list, expected, [c]).Ok?
    ensures Runs.Reaches(s, KeysetLifecycle.Step, t)
    ensures t.db == Publication(d.db, list, expected, [c]).value && t.log == d.log && t.writer.None? && t.keychain == d.keychain
  {
    hide Publication, KeysetLifecycle.Step;
    t := Stored(d, p, list, expected, c);
    Runs.ReachesNext(s, KeysetLifecycle.Step, d, KeysetLifecycle.Event.Publish(p, list, expected, DONE), t);
  }

  lemma SealingFacts(s: System, p: nat, c: Ciphertext)
    requires p < |s.processes| && s.db.keyset.Some? && c.data.Sealed?
    ensures var d := Sealing(s, p, c);
      && p < |d.processes| && d.processes[p].stage == Writing([c]) && d.writer == Some(p)
      && d.db == s.db.(keyset := Some(OneMore(s.db))) && d.log == s.log + [c.data.key] && d.keychain == s.keychain
  {}

  function OneMore(db: Database): Keyset
    requires db.keyset.Some?
  {
    db.keyset.value.(reserved := db.keyset.value.reserved + 1)
  }

  /** The process writes, at this stage. */
  function Begun(s: System, p: nat, stage: Stage): System
    requires p < |s.processes|
  {
    s.(writer := Some(p), processes := s.processes[p := Process(stage, s.processes[p].key)])
  }

  function Reserving(s: System, p: nat): System
    requires p < |s.processes| && s.db.keyset.Some?
  {
    Begun(s, p, Reserved([])).(db := s.db.(keyset := Some(OneMore(s.db))))
  }

  function Sealing(s: System, p: nat, c: Ciphertext): System
    requires p < |s.processes| && s.db.keyset.Some? && c.data.Sealed?
  {
    Begun(s, p, Writing([c])).(db := s.db.(keyset := Some(OneMore(s.db))), log := s.log + [c.data.key])
  }

  lemma ThreeSteps(
    s: System, e: KeysetLifecycle.Event, a: System, f: KeysetLifecycle.Event, b: System, g: KeysetLifecycle.Event, d: System)
    requires KeysetLifecycle.Step(s, e, a) && KeysetLifecycle.Step(a, f, b) && KeysetLifecycle.Step(b, g, d)
    ensures Runs.Reaches(s, KeysetLifecycle.Step, d)
  {
    hide KeysetLifecycle.Step;
    Runs.ReachesItself(s, KeysetLifecycle.Step);
    Runs.ReachesNext(s, KeysetLifecycle.Step, s, e, a);
    Runs.ReachesNext(s, KeysetLifecycle.Step, a, f, b);
    Runs.ReachesNext(s, KeysetLifecycle.Step, b, g, d);
  }

  lemma Stored(d: System, p: nat, list: seq<Profile>, expected: Revision, c: Ciphertext) returns (t: System)
    requires p < |d.processes| && d.processes[p].stage == Writing([c]) && d.writer == Some(p)
    requires Publication(d.db, list, expected, [c]).Ok?
    ensures KeysetLifecycle.Step(d, KeysetLifecycle.Event.Publish(p, list, expected, DONE), t)
    ensures t.db == Publication(d.db, list, expected, [c]).value && t.log == d.log && t.writer.None? && t.keychain == d.keychain
  {
    hide Publication;
    t := After(d, KeysetLifecycle.Event.Publish(p, list, expected, DONE));
  }

  lemma KeyUsable(s: System, p: nat)
    requires Inv(s) && p < |s.processes| && s.processes[p].key.Some?
    ensures Usable(s.db, s.processes[p].key)
  {
    RowReads(s);
    assert Relies(s, p);
  }

  lemma Reservation(s: System, p: nat)
    requires p < |s.processes| && s.processes[p].stage.Idle? && s.writer.None? && Usable(s.db, s.processes[p].key)
    requires s.db.keyset.Some? && s.db.keyset.value.reserved < MAX_RESERVATIONS
    ensures KeysetLifecycle.Step(s, Lock(p), Begun(s, p, Writing([])))
    ensures KeysetLifecycle.Step(Begun(s, p, Writing([])), Reserve(p, DONE), Reserving(s, p))
  {
    hide ReadKeyset;
    assert Begun(s, p, Writing([])).processes[p := Process(Reserved([]), s.processes[p].key)] == Reserving(s, p).processes;
  }

  lemma Encryption(s: System, p: nat, c: Ciphertext)
    requires p < |s.processes| && s.db.keyset.Some? && s.processes[p].key.Some?
    requires c.data.Sealed? && c.data.key == s.processes[p].key.value
    ensures KeysetLifecycle.Step(Reserving(s, p), Encrypt(p, c), Sealing(s, p, c))
  {
    assert [] + [c] == [c];
    assert Reserving(s, p).processes[p := Process(Writing([c]), s.processes[p].key)] == Sealing(s, p, c).processes;
  }

  /** Publication never looks at the keyset row. */
  lemma KeysetIgnored(db: Database, k: Keyset, list: seq<Profile>, expected: Revision, replacements: seq<Ciphertext>)
    requires Publication(db, list, expected, replacements).Ok?
    ensures Publication(db.(keyset := Some(k)), list, expected, replacements) ==
      Ok(Publication(db, list, expected, replacements).value.(keyset := Some(k)))
  {}
}
