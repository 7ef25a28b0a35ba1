/**
 The keyset row across processes and faults: absent, then an intent before the key
 exists, then ready, with one durable reservation before every encryption.

 Each event is one durable write, one call of the key provider or one step under a
 lease. A failing write may or may not have happened, and a process may return early
 or die between any two events.
 */
module KeysetLifecycle {
  import Runs
  import opened ProfileDatabase

  datatype Stage =
    | Idle
    | Begun(create: bool)
    | Read(create: bool, seen: Option<Keyset>)
    | NeedsKey
    | Generated(k: Keyset)
    | Intended(k: Keyset)
    | Loaded(create: bool, k: Keyset, raw: nat)
    | Recorded(k: Keyset, raw: nat)
    | Writing(pending: seq<Ciphertext>)
    | Reserved(pending: seq<Ciphertext>)

  /** `key` is the primitive that a process holds in memory, made of the raw key that it loaded
      or generated. */
  datatype Process = Process(stage: Stage, key: Option<nat>)

  /** `log` remembers the key of every encryption ever made. */
  datatype System = System(
    db: Database, keychain: Option<nat>, lifecycle: Option<nat>, writer: Option<nat>, processes: seq<Process>, log: seq<nat>)

  /** How a durable write ends: whether it happened, and whether it says so. */
  datatype Write = Write(happened: bool, ok: bool)

  datatype Event =
    | Begin(p: nat, create: bool)
    | ReadRow(p: nat)
    | Load(p: nat)
    | Generate(p: nat, candidate: nat)
    | SaveIntent(p: nat, write: Write)
    | CreateKey(p: nat, write: Write)
    | SaveReady(p: nat, write: Write)
    | Adopt(p: nat)
    | Lock(p: nat)
    | Reserve(p: nat, write: Write)
    | Encrypt(p: nat, c: Ciphertext)
    | Publish(p: nat, list: seq<Profile>, expected: Revision, write: Write)
    | Return(p: nat)
    | Die(p: nat)
    | LoseKey(p: nat)

  predicate Enabled(s: System, e: Event) {
    && e.p < |s.processes|
    && (e.SaveIntent? || e.CreateKey? || e.SaveReady? || e.Reserve? || e.Publish? ==> e.write.ok ==> e.write.happened)
    && var stage := s.processes[e.p].stage;
      match e {
        case Begin(p, create) => stage.Idle? && s.processes[p].key.None? && (create ==> s.lifecycle.None?)
        case ReadRow(_) => stage.Begun? && s.writer.None?
        case Load(_) => stage.Read? && stage.seen.Some?
        case Generate(_, _) => stage.NeedsKey? || (stage.Read? && stage.seen.None? && stage.create)
        case SaveIntent(_, _) => stage.Generated? && s.writer.None?
        case CreateKey(_, _) => stage.Intended?
        case SaveReady(_, _) => stage.Loaded? && stage.create && stage.k.phase.Intent? && s.writer.None?
        case Adopt(_) => stage.Recorded? || (stage.Loaded? && stage.k.phase.Ready?)
        case Lock(_) => stage.Idle? && s.writer.None?
        case Reserve(p, _) => stage.Writing? && Usable(s.db, s.processes[p].key) && s.db.keyset.value.reserved < MAX_RESERVATIONS
        case Encrypt(p, c) => stage.Reserved? && s.processes[p].key.Some? && c.data.Sealed? && c.data.key == s.processes[p].key.value
        case Publish(_, _, _, _) => stage.Writing?
        case Return(_) => true
        case Die(_) => true
        case LoseKey(_) => true
      }
  }

  /** The check before a key is used. */
  predicate Usable(db: Database, key: Option<nat>) {
    var row := ReadKeyset(db);
    row.Ok? && row.value.Some? && row.value.value.phase.Ready? && key == Some(row.value.value.fingerprint)
  }

  function Put(s: System, p: nat, stage: Stage): System
    requires p < |s.processes|
  {
    s.(processes := s.processes[p := s.processes[p].(stage := stage)])
  }

  /** Back to idle, giving up whatever leases the call held. */
  function Leave(s: System, p: nat): System
    requires p < |s.processes|
  {
    Put(s.(lifecycle := if s.lifecycle == Some(p) then None else s.lifecycle,
           writer := if s.writer == Some(p) then None else s.writer), p, Idle)
  }

  function Wrote(db: Database, k: Keyset, write: Write): Database {
    if write.happened then db.(keyset := Some(k)) else db
  }

  function Next(s: System, p: nat, write: Write, stage: Stage): System
    requires p < |s.processes|
  {
    if write.ok then Put(s, p, stage) else Leave(s, p)
  }

  function After(s: System, e: Event): System
    requires Enabled(s, e)
  {
    var process := s.processes[e.p];
    match e {
      case Begin(p, create) => Put(if create then s.(lifecycle := Some(p)) else s, p, Begun(create))
      case ReadRow(p) =>
        if ReadKeyset(s.db).Err? || (s.db.keyset.None? && !process.stage.create) then Leave(s, p)
        else Put(s, p, Read(process.stage.create, s.db.keyset))
      case Load(p) =>
        var k := process.stage.seen.value;
        if s.keychain.None? then
          (if k.phase.Intent? && process.stage.create && k.reserved == 0 then Put(s, p, NeedsKey) else Leave(s, p))
        else if s.keychain.value != k.fingerprint || (k.phase.Intent? && !process.stage.create) then Leave(s, p)
        else Put(s, p, Loaded(process.stage.create, k, s.keychain.value))
      case Generate(p, candidate) => Put(s, p, Generated(Keyset(Intent, candidate, 0)))
      case SaveIntent(p, write) =>
        var k := process.stage.k;
        Next(s.(db := Wrote(s.db, k, write)), p, write, Intended(k))
      case CreateKey(p, write) =>
        var k := process.stage.k;
        var keychain := if s.keychain.None? && write.happened then Some(k.fingerprint) else s.keychain;
        if write.ok && keychain == Some(k.fingerprint) then Put(s.(keychain := keychain), p, Loaded(true, k, process.stage.k.fingerprint))
        else Leave(s.(keychain := keychain), p)
      case SaveReady(p, write) =>
        var k := process.stage.k.(phase := Ready);
        Next(s.(db := Wrote(s.db, k, write)), p, write, Recorded(k, process.stage.raw))
      case Adopt(p) =>
        var r := Leave(s, p);
        r.(processes := r.processes[p := Process(Idle, Some(process.stage.raw))])
      case Lock(p) => Put(s.(writer := Some(p)), p, Writing([]))
      case Reserve(p, write) =>
        var k := s.db.keyset.value;
        Next(s.(db := Wrote(s.db, k.(reserved := k.reserved + 1), write)), p, write, Reserved(process.stage.pending))
      case Encrypt(p, c) =>
        Put(s.(log := s.log + [process.key.value]), p, Writing(process.stage.pending + [c]))
      case Publish(p, list, expected, write) =>
        var r := Publication(s.db, list, expected, process.stage.pending);
        Leave(if r.Ok? && write.happened then s.(db := r.value) else s, p)
      case Return(p) => Leave(s, p)
      case Die(p) => var r := Leave(s, p); r.(processes := r.processes[p := Process(Idle, None)])
      case LoseKey(_) => s.(keychain := None)
    }
  }

  ghost predicate Step(s: System, e: Event, t: System) {
    Enabled(s, e) && t == After(s, e)
  }

  function Start(db: Database, keychain: Option<nat>, count: nat): System {
    System(db, keychain, None, None, seq(count, _ => Process(Idle, None)), [])
  }

  // ---------------------------------------------------------------------
  // Invariant
  // ---------------------------------------------------------------------

  predicate ReadyAs(db: Database, fingerprint: nat) {
    db.keyset.Some? && db.keyset.value.phase.Ready? && db.keyset.value.fingerprint == fingerprint
  }

  /** No key is ready: nothing was reserved, encrypted or stored. */
  predicate Unready(db: Database) {
    && (db.keyset.Some? ==> db.keyset.value.phase.Intent? && db.keyset.value.reserved == 0)
    && db.bundles == []
  }

  predicate SealedUnder(bundles: seq<Ciphertext>, fingerprint: nat) {
    forall c <- bundles :: c.data.Sealed? && c.data.key == fingerprint
  }

  function InFlight(s: System): nat {
    if s.writer.Some? && s.writer.value < |s.processes| && s.processes[s.writer.value].stage.Reserved? then 1 else 0
  }

  function Pending(s: System): seq<Ciphertext> {
    if s.writer.Some? && s.writer.value < |s.processes| then
      var stage := s.processes[s.writer.value].stage;
      if stage.Writing? || stage.Reserved? then stage.pending else []
    else []
  }

  predicate Accounted(s: System) {
    if Unready(s.db) then s.log == [] && Pending(s) == [] && InFlight(s) == 0
    else
      && s.db.keyset.Some? && s.db.keyset.value.phase.Ready?
      && var k := s.db.keyset.value;
        && |s.log| + InFlight(s) <= k.reserved <= MAX_RESERVATIONS
        && |s.db.bundles| + |Pending(s)| <= |s.log|
        && (forall f <- s.log :: f == k.fingerprint)
        && SealedUnder(s.db.bundles, k.fingerprint) && SealedUnder(Pending(s), k.fingerprint)
  }

  /** What a process may rely on at its stage. */
  predicate Relies(s: System, p: nat)
    requires p < |s.processes|
  {
    var held := s.lifecycle == Some(p);
    && (s.processes[p].key.Some? ==> ReadyAs(s.db, s.processes[p].key.value))
    && match s.processes[p].stage {
      case Idle => true
      case Begun(create) => create ==> held
      case Read(create, seen) =>
        && (create ==> held)
        && (seen.Some? && seen.value.phase.Ready? ==> ReadyAs(s.db, seen.value.fingerprint))
        && (create && (seen.None? || seen.value.phase.Intent?) ==> s.db.keyset == seen && Unready(s.db))
      case NeedsKey => held && Unready(s.db)
      case Generated(k) => held && Unready(s.db) && k.phase.Intent? && k.reserved == 0
      case Intended(k) => held && Unready(s.db) && s.db.keyset == Some(k)
      case Loaded(create, k, raw) =>
        && (create ==> held) && raw == k.fingerprint
        && (k.phase.Ready? ==> ReadyAs(s.db, k.fingerprint))
        && (k.phase.Intent? ==> create && Unready(s.db) && s.db.keyset == Some(k))
      case Recorded(k, raw) => held && ReadyAs(s.db, k.fingerprint) && raw == k.fingerprint
      case Writing(_) => s.writer == Some(p)
      case Reserved(_) => s.writer == Some(p) && s.processes[p].key.Some?
    }
  }

  predicate Inv(s: System) {
    && Consistent(s.db) && Accounted(s)
    && (forall p :: 0 <= p < |s.processes| ==> Relies(s, p))
  }

  /** What a step by another process keeps for `q`. */
  predicate KeptFor(s: System, t: System, q: nat) {
    && q < |s.processes| == |t.processes| && t.processes[q] == s.processes[q]
    && (s.lifecycle == Some(q) ==> t.lifecycle == Some(q))
    && (s.writer == Some(q) ==> t.writer == Some(q))
    && (s.db.keyset.Some? && s.db.keyset.value.phase.Ready? ==> ReadyAs(t.db, s.db.keyset.value.fingerprint))
    && (s.lifecycle == Some(q) && Unready(s.db) ==> t.db.keyset == s.db.keyset && Unready(t.db))
  }

  lemma ReliesFrame(s: System, t: System, q: nat)
    requires KeptFor(s, t, q) && Relies(s, q)
    ensures Relies(t, q)
  {}

  lemma InvFrom(s: System, t: System, p: nat)
    requires Inv(s) && p < |s.processes| == |t.processes|
    requires Consistent(t.db) && Accounted(t) && Relies(t, p)
    requires forall q :: 0 <= q < |s.processes| && q != p ==> KeptFor(s, t, q)
    ensures Inv(t)
  {
    forall q | 0 <= q < |t.processes| ensures Relies(t, q) {
      if q != p {
        ReliesFrame(s, t, q);
      }
    }
  }

  lemma LeaveKeeps(s: System, p: nat)
    requires Inv(s) && p < |s.processes|
    ensures Inv(Leave(s, p))
  {
    assert Relies(s, p);
    InvFrom(s, Leave(s, p), p);
  }

  /** Events that write nothing durable. */
  lemma QuietKept(s: System, e: Event)
    requires Inv(s) && Enabled(s, e) && (e.Begin? || e.Generate?)
    ensures Inv(After(s, e))
  {
    hide Consistent;
    assert Relies(s, e.p);
    InvFrom(s, After(s, e), e.p);
  }

  lemma LeaseKept(s: System, e: Event)
    requires Inv(s) && Enabled(s, e) && (e.Lock? || e.LoseKey?)
    ensures Inv(After(s, e))
  {
    hide Consistent;
    assert Relies(s, e.p);
    InvFrom(s, After(s, e), e.p);
  }

  lemma ReadKept(s: System, e: Event)
    requires Inv(s) && Enabled(s, e) && (e.ReadRow? || e.Load?)
    ensures Inv(After(s, e))
  {
    hide Consistent;
    assert Relies(s, e.p);
    LeaveKeeps(s, e.p);
    if After(s, e) != Leave(s, e.p) {
      InvFrom(s, After(s, e), e.p);
    }
  }

  lemma ReturnKept(s: System, e: Event)
    requires Inv(s) && Enabled(s, e) && (e.Adopt? || e.Return? || e.Die?)
    ensures Inv(After(s, e))
  {
    hide Consistent;
    assert Relies(s, e.p);
    LeaveKeeps(s, e.p);
    var t := Leave(s, e.p);
    InvFrom(t, After(s, e), e.p);
  }

  lemma IntentKept(s: System, e: Event)
    requires Inv(s) && Enabled(s, e) && e.SaveIntent?
    ensures Inv(After(s, e))
  {
    assert Relies(s, e.p);
    InvFrom(s, After(s, e), e.p);
  }

  lemma CreateKept(s: System, e: Event)
    requires Inv(s) && Enabled(s, e) && e.CreateKey?
    ensures Inv(After(s, e))
  {
    hide Consistent;
    assert Relies(s, e.p);
    InvFrom(s, After(s, e), e.p);
  }

  lemma ReadyKept(s: System, e: Event)
    requires Inv(s) && Enabled(s, e) && e.SaveReady?
    ensures Inv(After(s, e))
  {
    assert Relies(s, e.p);
    InvFrom(s, After(s, e), e.p);
  }

  lemma ReserveKept(s: System, e: Event)
    requires Inv(s) && Enabled(s, e) && e.Reserve?
    ensures Inv(After(s, e))
  {
    assert Relies(s, e.p);
    InvFrom(s, After(s, e), e.p);
  }

  lemma EncryptKept(s: System, e: Event)
    requires Inv(s) && Enabled(s, e) && e.Encrypt?
    ensures Inv(After(s, e))
  {
    assert Relies(s, e.p);
    InvFrom(s, After(s, e), e.p);
  }

  lemma CommitKeeps(s: System, p: nat, db: Database)
    requires Inv(s) && p < |s.processes| && s.processes[p].stage.Writing? && Consistent(db)
    requires db.keyset == s.db.keyset && |db.bundles| <= |s.db.bundles| + |s.processes[p].stage.pending|
    requires forall c <- db.bundles :: c in s.processes[p].stage.pending || c in s.db.bundles
    ensures Inv(Leave(s.(db := db), p))
  {
    hide Consistent;
    assert Relies(s, p);
    assert Pending(s) == s.processes[p].stage.pending;
    InvFrom(s, Leave(s.(db := db), p), p);
  }

  /** Committing pending ciphertext keeps every bundle sealed under the one key. */
  lemma PublishKept(s: System, e: Event)
    requires Inv(s) && Enabled(s, e) && e.Publish?
    ensures Inv(After(s, e))
  {
    var pending := s.processes[e.p].stage.pending;
    var r := Publication(s.db, e.list, e.expected, pending);
    LeaveKeeps(s, e.p);
    if r.Ok? && e.write.happened {
      PublishedConsistent(s.db, e.list, e.expected, pending);
      StagedCount(s.db.bundles, pending);
      assert |r.value.bundles| <= |s.db.bundles| + |pending|;
      hide Publication, Inv, Consistent, Leave;
      forall c | c in r.value.bundles ensures c in pending || c in s.db.bundles {
        PublishedCiphertext(s.db, e.list, e.expected, pending, c);
      }
      CommitKeeps(s, e.p, r.value);
    }
  }

  lemma InvKept(s: System, e: Event)
    requires Inv(s) && Enabled(s, e)
    ensures Inv(After(s, e))
  {
    hide Inv, After, Enabled;
    if e.SaveIntent? {
      IntentKept(s, e);
    } else if e.CreateKey? {
      CreateKept(s, e);
    } else if e.Lock? || e.LoseKey? {
      LeaseKept(s, e);
    } else if e.SaveReady? {
      ReadyKept(s, e);
    } else if e.Reserve? {
      ReserveKept(s, e);
    } else if e.Encrypt? {
      EncryptKept(s, e);
    } else if e.Publish? {
      PublishKept(s, e);
    } else if e.ReadRow? || e.Load? {
      ReadKept(s, e);
    } else if e.Adopt? || e.Return? || e.Die? {
      ReturnKept(s, e);
    } else {
      QuietKept(s, e);
    }
  }

  // ---------------------------------------------------------------------
  // Every run
  // ---------------------------------------------------------------------

  ghost predicate Run(db: Database, keychain: Option<nat>, count: nat, states: seq<System>, events: seq<Event>) {
    Consistent(db) && Unready(db) && Runs.Run(Start(db, keychain, count), Step, states, events)
  }

  lemma InvAlways(db: Database, keychain: Option<nat>, count: nat, states: seq<System>, events: seq<Event>, i: nat)
    requires Run(db, keychain, count, states, events) && i < |states|
    ensures Inv(states[i])
  {
    hide Inv, After, Enabled;
    forall s, e, t | Inv(s) && Step(s, e, t) ensures Inv(t) {
      InvKept(s, e);
    }
    StartInv(db, keychain, count);
    Runs.Invariant(Start(db, keychain, count), Step, Inv, states, events, i);
  }

  lemma StartInv(db: Database, keychain: Option<nat>, count: nat)
    requires Consistent(db) && Unready(db)
    ensures Inv(Start(db, keychain, count))
  {}

  /** Every encryption was made under the recorded key after its own durable
      reservation, and reservations never exceed a million. */
  lemma EncryptionsReserved(db: Database, keychain: Option<nat>, count: nat, states: seq<System>, events: seq<Event>, i: nat)
    requires Run(db, keychain, count, states, events) && i < |states| && states[i].log != []
    ensures var s := states[i];
      && s.db.keyset.Some? && s.db.keyset.value.phase.Ready?
      && |s.log| <= s.db.keyset.value.reserved <= 1_000_000
      && forall f <- s.log :: f == s.db.keyset.value.fingerprint
  {
    InvAlways(db, keychain, count, states, events, i);
  }

  /** Every stored bundle opens under the recorded key, and an intent has none, no
      reservations and no encryptions. */
  lemma BundlesUnderRecordedKey(
    db: Database, keychain: Option<nat>, count: nat, states: seq<System>, events: seq<Event>, i: nat)
    requires Run(db, keychain, count, states, events) && i < |states|
    ensures var s := states[i];
      if s.db.keyset.Some? && s.db.keyset.value.phase.Ready? then SealedUnder(s.db.bundles, s.db.keyset.value.fingerprint)
      else s.db.bundles == [] && s.log == [] && (s.db.keyset.Some? ==> s.db.keyset.value.reserved == 0)
  {
    InvAlways(db, keychain, count, states, events, i);
  }

  /** The keyset row's consistency check never rejects a state these steps produce. */
  lemma KeysetNeverRejected(
    db: Database, keychain: Option<nat>, count: nat, states: seq<System>, events: seq<Event>, i: nat)
    requires Run(db, keychain, count, states, events) && i < |states|
    ensures ReadKeyset(states[i].db).Ok?
  {
    InvAlways(db, keychain, count, states, events, i);
    var _ := DistinctOwners(states[i].db.profiles, states[i].db.bundles);
  }

  /** The recorded key and what it was reserved for only move forward. */
  predicate Forward(s: System, t: System) {
    s.db.keyset.Some? && s.db.keyset.value.phase.Ready? ==>
      ReadyAs(t.db, s.db.keyset.value.fingerprint) && s.db.keyset.value.reserved <= t.db.keyset.value.reserved
  }

  lemma ForwardStep(s: System, e: Event)
    requires Inv(s) && Enabled(s, e)
    ensures Forward(s, After(s, e)) && |s.log| <= |After(s, e).log|
  {
    hide Consistent, Accounted, Usable, ReadKeyset;
    assert Relies(s, e.p);
  }

  /** A ready fingerprint never changes and reservations never decrease. */
  lemma ReadyForGood(
    db: Database, keychain: Option<nat>, count: nat, states: seq<System>, events: seq<Event>, i: nat, j: nat)
    requires Run(db, keychain, count, states, events) && i <= j < |states|
    ensures Forward(states[i], states[j])
  {
    if i < j {
      ReadyForGood(db, keychain, count, states, events, i, j - 1);
      InvAlways(db, keychain, count, states, events, j - 1);
      hide Inv, After, Enabled;
      assert Step(states[j - 1], events[j - 1], states[j]);
      ForwardStep(states[j - 1], events[j - 1]);
    }
  }

  /** A key that is in the keychain stays there until it is lost: none of these steps ever
      overwrites it. */
  lemma {:induction false} KeyNeverOverwritten(
    db: Database, keychain: Option<nat>, count: nat, states: seq<System>, events: seq<Event>, i: nat, j: nat)
    requires Run(db, keychain, count, states, events) && i <= j < |states| && states[i].keychain.Some?
    ensures states[j].keychain == states[i].keychain || exists k :: i <= k < j && events[k].LoseKey?
    decreases j
  {
    if i < j {
      KeyNeverOverwritten(db, keychain, count, states, events, i, j - 1);
      hide Inv, Wrote, ReadKeyset, Publication, Usable;
      assert Step(states[j - 1], events[j - 1], states[j]);
    }
  }

  /** A process that holds a key holds the recorded one. */
  lemma HeldKeyRecorded(
    db: Database, keychain: Option<nat>, count: nat, states: seq<System>, events: seq<Event>, i: nat, p: nat)
    requires Run(db, keychain, count, states, events) && i < |states| && p < |states[i].processes|
    requires states[i].processes[p].key.Some?
    ensures ReadyAs(states[i].db, states[i].processes[p].key.value)
  {
    InvAlways(db, keychain, count, states, events, i);
    assert Relies(states[i], p);
  }
}
