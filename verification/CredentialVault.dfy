/**
 The vault repository: unlocking the keyset, reading one connection's credential, and
 applying a mutation of profiles and credentials under one write lease.

 Faults at named points, random IDs and the size of an encoded bundle are inputs.
 */
module CredentialVault {
  import opened Credentials
  import opened ProfileDatabase

  const MAX_PLAINTEXT := 4 * 1024 * 1024

  datatype Failure =
    | Unavailable | Cancelled | Repair | Missing | Locked | Provider | Limit | CredentialMissing | BadBinding
    | Lease | Database(error: Error)

  datatype Reading = Found(secrets: Secrets) | Failed(failure: Failure)

  /** What a repository holds in memory. A fingerprint identifies its key. */
  datatype Vault = Vault(installation: nat, key: Option<nat>, fingerprint: nat, closed: bool)

  function Find(bundles: seq<Ciphertext>, ref: nat): (r: Option<Ciphertext>)
    ensures r.Some? ==> r.value in bundles && r.value.ref == ref
    ensures r.None? ==> forall c <- bundles :: c.ref != ref
  {
    if bundles == [] then None
    else if bundles[|bundles| - 1].ref == ref then Some(bundles[|bundles| - 1])
    else Find(bundles[..|bundles| - 1], ref)
  }

  /** Whether the keyset row lets this repository's key be used. */
  function Cipher(db: Database, v: Vault): Option<Failure> {
    var k := ReadKeyset(db);
    if k.Err? || k.value.None? || !k.value.value.phase.Ready? then Some(Repair)
    else if v.key.None? then Some(Locked)
    else if v.closed || v.fingerprint != k.value.value.fingerprint then Some(Repair)
    else None
  }

  /** A profile's secrets as its bundle seals them, whatever the keyset row says. */
  function Reads(bundles: seq<Ciphertext>, v: Vault, p: Profile): Reading {
    if p.ref.None? then Found(EMPTY)
    else
      match Find(bundles, p.ref.value)
      case None => Failed(CredentialMissing)
      case Some(b) =>
        if b.owner != p.id || b.version != 1 || b.size > MAX_PLAINTEXT + 33 then Failed(BadBinding)
        else if v.key.None? then Failed(Locked)
        else
          match Open(v.key.value, b.data, Binding(b.version, v.installation, p.id, p.ref.value))
          case Plain(s) => Found(s)
          case Rejected => Failed(Repair)
  }

  /** The credential of a profile; a bundle is opened only under a usable keyset. */
  function Read(db: Database, v: Vault, p: Profile): Reading {
    var reading := Reads(db.bundles, v, p);
    if p.ref.None? || (reading.Failed? && (reading.failure.CredentialMissing? || reading.failure.BadBinding?)) then reading
    else if Cipher(db, v).Some? then Failed(Cipher(db, v).value)
    else reading
  }

  function Credential(db: Database, v: Vault, id: nat): Reading {
    if id in db.profiles then Read(db, v, db.profiles[id]) else Failed(CredentialMissing)
  }

  // ---------------------------------------------------------------------
  // Mutations
  // ---------------------------------------------------------------------

  datatype Mutation = Mutation(
    expected: Revision, profiles: seq<Profile>, patches: map<nat, Patch>, replacements: map<nat, Secrets>)

  /** Whether a patch supplies every secret that the profile's transport asks for. */
  predicate Complete(patch: Patch, p: Profile) {
    && Password in patch
    && (p.ssh.ByPassword? ==> SshPassword in patch)
    && (p.ssh.ByKey? ==> SshPrivateKey in patch)
    && (p.proxyUser ==> Field.ProxyPassword in patch)
  }

  /** A profile that is not in the database yet has no reference. */
  function Before(profiles: Profiles, p: Profile): Profile {
    if p.id in profiles then profiles[p.id] else p.(ref := None)
  }

  datatype Wish = Keep | Write(secrets: Secrets) | Refuse(failure: Failure)

  /** What a mutation wants a profile's secrets to be, given how they read before. */
  function Wanted(m: Mutation, p: Profile, prior: Reading): Wish {
    if p.id in m.patches && m.patches[p.id] != map[] then
      var patch := m.patches[p.id];
      if !Applies(patch) then Refuse(Repair)
      else if prior.Found? then Write(Overlay(patch, prior.secrets))
      else if prior.failure.CredentialMissing? && Complete(patch, p) then Write(Overlay(patch, EMPTY))
      else Refuse(prior.failure)
    else if p.id in m.replacements then Write(m.replacements[p.id])
    else Keep
  }

  // ---------------------------------------------------------------------
  // Rows
  // ---------------------------------------------------------------------

  lemma FindUnique(bundles: seq<Ciphertext>, c: Ciphertext)
    requires UniqueRows(bundles) && c in bundles
    ensures Find(bundles, c.ref) == Some(c)
  {
    var b := Find(bundles, c.ref);
    assert b.Some?;
    var i :| 0 <= i < |bundles| && bundles[i] == c;
    var j :| 0 <= j < |bundles| && bundles[j] == b.value;
    assert i == j;
  }

  lemma FindSame(a: seq<Ciphertext>, b: seq<Ciphertext>, c: Ciphertext)
    requires UniqueRows(a) && UniqueRows(b) && c in a && c in b
    ensures Find(a, c.ref) == Find(b, c.ref)
  {
    FindUnique(a, c);
    FindUnique(b, c);
  }

  // ---------------------------------------------------------------------
  // What a mutation prepares, and what reads after it is published
  // ---------------------------------------------------------------------

  function Seal(v: Vault, p: Profile, secrets: Secrets, size: nat): Ciphertext
    requires v.key.Some? && p.ref.Some?
  {
    Ciphertext(p.ref.value, p.id, 1, size, Sealed(v.key.value, Binding(1, v.installation, p.id, p.ref.value), secrets))
  }

  function PriorWish(db: Database, v: Vault, m: Mutation, p: Profile): Wish {
    Wanted(m, p, Reads(db.bundles, v, Before(db.profiles, p)))
  }

  /** One profile of the list as the mutation leaves it. */
  ghost predicate PreparedOne(db: Database, v: Vault, m: Mutation, p: Profile, q: Profile, replacements: seq<Ciphertext>) {
    && p.ref == Before(db.profiles, p).ref
    && q == p.(ref := q.ref)
    && match PriorWish(db, v, m, p) {
      case Keep => q == p && !Replaces(replacements, p.id) && (p.ref.Some? ==> Find(db.bundles, p.ref.value).Some?)
      case Write(s) =>
        && Valid(s)
        && if s == EMPTY then q.ref == None && !Replaces(replacements, p.id)
           else v.key.Some? && q.ref.Some? && exists size: nat :: size <= MAX_PLAINTEXT + 33 && Seal(v, q, s, size) in replacements
      case Refuse(_) => false
    }
  }

  ghost predicate Prepared(
    db: Database, v: Vault, m: Mutation, list: seq<Profile>, replacements: seq<Ciphertext>, n: nat)
  {
    && |list| == |m.profiles| && n <= |list|
    && (forall j :: 0 <= j < n ==> PreparedOne(db, v, m, m.profiles[j], list[j], replacements))
    && (forall j :: n <= j < |list| ==> list[j] == m.profiles[j])
    && (forall r <- replacements :: exists j :: 0 <= j < n && m.profiles[j].id == r.owner)
    && DistinctOwnersOf(replacements)
  }

  predicate DistinctOwnersOf(replacements: seq<Ciphertext>) {
    forall i, j :: 0 <= i < j < |replacements| ==> replacements[i].owner != replacements[j].owner
  }

  lemma SameOwner(replacements: seq<Ciphertext>, a: Ciphertext, b: Ciphertext)
    requires DistinctOwnersOf(replacements) && a in replacements && b in replacements && a.owner == b.owner
    ensures a == b
  {
    var i :| 0 <= i < |replacements| && replacements[i] == a;
    var j :| 0 <= j < |replacements| && replacements[j] == b;
    assert i == j;
  }

  /** The row a published reference names. */
  lemma PublishedRow(db: Database, list: seq<Profile>, expected: Revision, replacements: seq<Ciphertext>, q: Profile, r: Database)
    returns (c: Ciphertext)
    requires Tables(db) && Publication(db, list, expected, replacements) == Ok(r) && q in list && q.ref.Some?
    ensures q.id in r.profiles && r.profiles[q.id] == q && UniqueRows(r.bundles)
    ensures c in r.bundles && c.ref == q.ref.value && c.owner == q.id
    ensures c in replacements || (c in db.bundles && !Replaces(replacements, c.owner))
  {
    PublishedConsistent(db, list, expected, replacements);
    hide Publication;
    assert r.profiles[q.id] == q;
    c :| c in r.bundles && c.ref == r.profiles[q.id].ref.value && c.owner == q.id;
    PublishedCiphertext(db, list, expected, replacements, c);
  }

  lemma KeptReads(db: Database, v: Vault, q: Profile, r: seq<Ciphertext>, c: Ciphertext)
    requires UniqueRows(db.bundles) && UniqueRows(r) && c in r && c in db.bundles && q.ref == Some(c.ref)
    ensures Reads(r, v, q) == Reads(db.bundles, v, q)
  {
    FindSame(r, db.bundles, c);
  }

  lemma SealedReads(v: Vault, q: Profile, s: Secrets, size: nat, r: seq<Ciphertext>)
    requires v.key.Some? && q.ref.Some? && UniqueRows(r) && Seal(v, q, s, size) in r
    requires Valid(s) && size <= MAX_PLAINTEXT + 33
    ensures Reads(r, v, q) == Found(s)
  {
    FindUnique(r, Seal(v, q, s, size));
  }

  /** The secrets a published profile holds, and those of a kept one, read back. */
  lemma WishGranted(
    db: Database, v: Vault, m: Mutation, list: seq<Profile>, replacements: seq<Ciphertext>, j: nat, r: Database)
    requires Tables(db) && Prepared(db, v, m, list, replacements, |list|) && j < |list|
    requires Publication(db, list, m.expected, replacements) == Ok(r)
    ensures var p := m.profiles[j];
      && p.id in r.profiles && r.profiles[p.id] == list[j]
      && match PriorWish(db, v, m, p) {
        case Write(s) => Reads(r.bundles, v, r.profiles[p.id]) == Found(s)
        case Keep => Reads(r.bundles, v, r.profiles[p.id]) == Reads(db.bundles, v, Before(db.profiles, p))
        case Refuse(_) => false
      }
  {
    var p, q := m.profiles[j], list[j];
    assert q in list;
    if q.ref.None? {
      PublishedConsistent(db, list, m.expected, replacements);
      assert r.profiles[p.id] == q;
    } else {
      var c := PublishedRow(db, list, m.expected, replacements, q, r);
      hide Publication, Reads, Wanted, UniqueRows;
      if PriorWish(db, v, m, p).Keep? {
        assert c in replacements ==> Replaces(replacements, c.owner);
        KeptReads(db, v, q, r.bundles, c);
        BeforeReads(db, v, p);
      } else {
        var s := PriorWish(db, v, m, p).secrets;
        var size: nat :| size <= MAX_PLAINTEXT + 33 && Seal(v, q, s, size) in replacements;
        assert Replaces(replacements, q.id);
        SameOwner(replacements, c, Seal(v, q, s, size));
        SealedReads(v, q, s, size, r.bundles);
      }
    }
  }

  lemma BeforeReads(db: Database, v: Vault, p: Profile)
    requires p.ref == Before(db.profiles, p).ref && Tables(db)
    ensures Reads(db.bundles, v, Before(db.profiles, p)) == Reads(db.bundles, v, p)
  {}

  /** A profile that is not listed any more leaves no bundle. */
  lemma RemovedGone(db: Database, list: seq<Profile>, expected: Revision, replacements: seq<Ciphertext>, id: nat)
    requires Tables(db) && Publication(db, list, expected, replacements).Ok?
    requires forall p <- list :: p.id != id
    ensures var r := Publication(db, list, expected, replacements).value;
      id !in r.profiles && forall c <- r.bundles :: c.owner != id
  {
    PublishedConsistent(db, list, expected, replacements);
  }

  lemma PreparedGrows(
    db: Database, v: Vault, m: Mutation, list: seq<Profile>, replacements: seq<Ciphertext>, i: nat, q: Profile,
    added: seq<Ciphertext>)
    requires Decodes(m.profiles) && Prepared(db, v, m, list, replacements, i) && i < |list|
    requires |added| <= 1 && forall c <- added :: c.owner == m.profiles[i].id
    requires PreparedOne(db, v, m, m.profiles[i], q, replacements + added)
    ensures Prepared(db, v, m, list[i := q], replacements + added, i + 1)
  {
    var grown := replacements + added;
    forall j | 0 <= j < i ensures PreparedOne(db, v, m, m.profiles[j], list[j], grown) {
      assert PreparedOne(db, v, m, m.profiles[j], list[j], replacements);
      assert !Clash(m.profiles[j], m.profiles[i]);
      assert Replaces(grown, m.profiles[j].id) ==> Replaces(replacements, m.profiles[j].id);
    }
    forall r | r in grown ensures exists j :: 0 <= j < i + 1 && m.profiles[j].id == r.owner {
      if r in added {
        assert m.profiles[i].id == r.owner;
      }
    }
    NoOwnerYet(db, v, m, list, replacements, i);
  }

  lemma NoOwnerYet(db: Database, v: Vault, m: Mutation, list: seq<Profile>, replacements: seq<Ciphertext>, i: nat)
    requires Decodes(m.profiles) && Prepared(db, v, m, list, replacements, i) && i < |list|
    ensures !Replaces(replacements, m.profiles[i].id)
  {
    forall r | r in replacements ensures r.owner != m.profiles[i].id {
      var j :| 0 <= j < i && m.profiles[j].id == r.owner;
      assert !Clash(m.profiles[j], m.profiles[i]);
    }
  }

  /** What a profile's credential reads as once a mutation took effect. */
  ghost predicate Granted(db: Database, v: Vault, m: Mutation, p: Profile, r: Database) {
    match PriorWish(db, v, m, p) {
      case Write(s) => Credential(r, v, p.id) == Found(s)
      case Keep => Read(db, v, Before(db.profiles, p)).Found? ==> Credential(r, v, p.id) == Read(db, v, Before(db.profiles, p))
      case Refuse(_) => false
    }
  }

  /** The whole effect of a mutation: the listed profiles and no others, every credential
      as wanted, no bundle of a removed connection, and a consistent database. */
  ghost predicate Applied(db: Database, v: Vault, m: Mutation, r: Database) {
    && Consistent(r) && r.generation == db.generation + 1
    && (forall p <- m.profiles :: p.id in r.profiles && r.profiles[p.id] == p.(ref := r.profiles[p.id].ref))
    && (forall id <- r.profiles :: Named(m, id)) && (forall c <- r.bundles :: Named(m, c.owner))
    && (forall p <- m.profiles :: Granted(db, v, m, p, r))
  }

  /** Secrets are read from a bundle only if it was sealed under this key for this
      installation, this connection and this very reference. */
  lemma CredentialBound(db: Database, v: Vault, p: Profile) returns (c: Ciphertext)
    requires p.ref.Some? && Read(db, v, p).Found?
    ensures c in db.bundles && c.ref == p.ref.value && c.owner == p.id && v.key.Some?
    ensures c.data == Sealed(v.key.value, Binding(1, v.installation, p.id, p.ref.value), Read(db, v, p).secrets)
    ensures Cipher(db, v).None?
  {
    c := Find(db.bundles, p.ref.value).value;
  }

  /** Reading a credential, case by case: nothing for a connection without one; the reason why
      there is none, or why it is not bound to its connection, before any key is asked for;
      then the reason why the key cannot be used; and then what the bundle opens to. */
  lemma CredentialExactly(db: Database, v: Vault, id: nat)
    requires UniqueRows(db.bundles)
    ensures id !in db.profiles ==> Credential(db, v, id) == Failed(CredentialMissing)
    ensures id in db.profiles && db.profiles[id].ref.None? ==> Credential(db, v, id) == Found(EMPTY)
    ensures id in db.profiles && db.profiles[id].ref.Some? ==>
      var p := db.profiles[id];
      && ((forall c <- db.bundles :: c.ref != p.ref.value) ==> Credential(db, v, id) == Failed(CredentialMissing))
      && forall c <- db.bundles :: c.ref == p.ref.value ==>
           Credential(db, v, id) ==
             if c.owner != p.id || c.version != 1 || c.size > 4 * 1024 * 1024 + 33 then Failed(BadBinding)
             else if ReadKeyset(db).Err? || db.keyset.None? || !db.keyset.value.phase.Ready? then Failed(Repair)
             else if v.key.None? then Failed(Locked)
             else if v.closed || v.fingerprint != db.keyset.value.fingerprint then Failed(Repair)
             else if c.data.Sealed? && c.data.key == v.key.value && Valid(c.data.plain)
                     && c.data.binding == Binding(1, v.installation, p.id, p.ref.value) then Found(c.data.plain)
             else Failed(Repair)
  {
    if id in db.profiles && db.profiles[id].ref.Some? {
      forall c <- db.bundles | c.ref == db.profiles[id].ref.value ensures Find(db.bundles, c.ref) == Some(c) {
        FindUnique(db.bundles, c);
      }
      hide UniqueRows, Valid, Find, ReadKeyset;
      KeysetAcceptedExactly(db);
    }
  }

  /** A mutation's wish for a profile is refused exactly if its patch is not one, or the
      credential cannot be read and is not just missing, or it is missing and the patch lacks
      a secret that the transport asks for. */
  lemma RefusedExactly(db: Database, v: Vault, m: Mutation, p: Profile)
    ensures PriorWish(db, v, m, p).Refuse? <==>
      var prior := Reads(db.bundles, v, Before(db.profiles, p));
      && p.id in m.patches && m.patches[p.id] != map[]
      && var patch := m.patches[p.id];
         || (exists f <- patch :: f.Unknown? || !ValidText(patch[f]))
         || (prior.Failed? && prior != Failed(CredentialMissing))
         || (prior.Failed? &&
             !(Password in patch && (p.ssh == ByPassword ==> SshPassword in patch)
               && (p.ssh == ByKey ==> SshPrivateKey in patch) && (p.proxyUser ==> Field.ProxyPassword in patch)))
  {
    hide Reads;
  }

  /** What a mutation that took effect means for one listed profile, field by field: its
      patch over what read before, or over nothing if the bundle was missing and the patch
      has every secret that the transport asks for; its replacement; or the old secrets. */
  lemma AppliedMeans(db: Database, v: Vault, m: Mutation, r: Database, p: Profile)
    requires Applied(db, v, m, r) && p in m.profiles
    ensures var prior, now := Reads(db.bundles, v, Before(db.profiles, p)), Credential(r, v, p.id);
      if p.id in m.patches && m.patches[p.id] != map[] then
        var patch := m.patches[p.id];
        && now.Found? && (prior.Found? || prior == Failed(CredentialMissing))
        && (forall f: Field :: !f.Unknown? ==>
              Get(now.secrets, f) == if f in patch then patch[f] else if prior.Found? then Get(prior.secrets, f) else NONE)
        && (prior.Failed? ==>
              && Password in patch
              && (p.ssh == ByPassword ==> SshPassword in patch)
              && (p.ssh == ByKey ==> SshPrivateKey in patch)
              && (p.proxyUser ==> Field.ProxyPassword in patch))
      else if p.id in m.replacements then now == Found(m.replacements[p.id])
      else Read(db, v, Before(db.profiles, p)).Found? ==> now == Read(db, v, Before(db.profiles, p))
  {
    hide Reads, Read, Consistent, Cipher;
    assert Granted(db, v, m, p, r);
  }

  lemma CipherKept(db: Database, v: Vault, list: seq<Profile>, expected: Revision, replacements: seq<Ciphertext>, r: Database)
    requires Tables(db) && Publication(db, list, expected, replacements) == Ok(r)
    requires Cipher(db, v).None? && |db.bundles| + |replacements| <= db.keyset.value.reserved
    ensures Cipher(r, v).None?
  {
    KeysetStillRead(db, list, expected, replacements);
    PublishedConsistent(db, list, expected, replacements);
  }

  lemma GrantedOne(
    base: Database, db: Database, v: Vault, m: Mutation, list: seq<Profile>, replacements: seq<Ciphertext>, j: nat, r: Database)
    requires Tables(base) && SameData(base, db) && Prepared(base, v, m, list, replacements, |list|) && j < |list|
    requires Publication(db, list, m.expected, replacements) == Ok(r)
    requires Cipher(base, v).None? || replacements != [] ==> Cipher(r, v).None?
    ensures Granted(base, v, m, m.profiles[j], r)
    ensures m.profiles[j].id in r.profiles && r.profiles[m.profiles[j].id] == list[j]
    ensures list[j] == m.profiles[j].(ref := list[j].ref)
  {
    hide Publication, Reads, Wanted, Valid;
    var p := m.profiles[j];
    Rekeyed(base, db, list, m.expected, replacements, r);
    WishGranted(base, v, m, list, replacements, j, r.(keyset := base.keyset));
    assert PreparedOne(base, v, m, p, list[j], replacements);
    CredentialOf(base, v, p, r, list[j]);
  }

  /** Publication never looks at the keyset row. */
  lemma Rekeyed(
    base: Database, db: Database, list: seq<Profile>, expected: Revision, replacements: seq<Ciphertext>, r: Database)
    requires SameData(base, db) && Publication(db, list, expected, replacements) == Ok(r)
    ensures Publication(base, list, expected, replacements) == Ok(r.(keyset := base.keyset))
  {}

  /** A sealed or kept credential is found under a keyset that is still usable. */
  lemma CredentialOf(base: Database, v: Vault, p: Profile, r: Database, q: Profile)
    requires p.id in r.profiles && r.profiles[p.id] == q
    ensures q.ref.None? || Cipher(r, v).None? ==> Credential(r, v, p.id) == Reads(r.bundles, v, q)
    ensures Read(base, v, Before(base.profiles, p)).Found? ==>
      && Read(base, v, Before(base.profiles, p)) == Reads(base.bundles, v, Before(base.profiles, p))
      && (Before(base.profiles, p).ref.None? || Cipher(base, v).None?)
  {}

  lemma NamedRows(
    base: Database, v: Vault, m: Mutation, list: seq<Profile>, replacements: seq<Ciphertext>, r: Database)
    requires Prepared(base, v, m, list, replacements, |list|) && Tabled(list, r.profiles) && ForeignKeys(r.profiles, r.bundles)
    ensures (forall id <- r.profiles :: Named(m, id)) && (forall c <- r.bundles :: Named(m, c.owner))
  {
    hide Wanted, Reads, Valid;
    forall id | id in r.profiles ensures Named(m, id) {
      var j :| 0 <= j < |list| && list[j] == r.profiles[id];
      assert PreparedOne(base, v, m, m.profiles[j], list[j], replacements);
      assert m.profiles[j] in m.profiles;
    }
  }

  lemma AllGranted(
    base: Database, db: Database, v: Vault, m: Mutation, list: seq<Profile>, replacements: seq<Ciphertext>, r: Database)
    requires Tables(base) && SameData(base, db) && Prepared(base, v, m, list, replacements, |list|)
    requires Publication(db, list, m.expected, replacements) == Ok(r)
    requires Cipher(base, v).None? || replacements != [] ==> Cipher(r, v).None?
    ensures forall p <- m.profiles ::
      Granted(base, v, m, p, r) && p.id in r.profiles && r.profiles[p.id] == p.(ref := r.profiles[p.id].ref)
  {
    hide Publication, Granted, Cipher, PreparedOne, Tables;
    forall p | p in m.profiles
      ensures Granted(base, v, m, p, r) && p.id in r.profiles && r.profiles[p.id] == p.(ref := r.profiles[p.id].ref)
    {
      var j :| 0 <= j < |list| && m.profiles[j] == p;
      GrantedOne(base, db, v, m, list, replacements, j, r);
    }
  }

  lemma AppliedBy(
    base: Database, db: Database, v: Vault, m: Mutation, list: seq<Profile>, replacements: seq<Ciphertext>, r: Database)
    requires Tables(base) && SameData(base, db) && Prepared(base, v, m, list, replacements, |list|)
    requires Publication(db, list, m.expected, replacements) == Ok(r)
    requires Cipher(base, v).None? || replacements != [] ==> Cipher(r, v).None?
    ensures Applied(base, v, m, r)
  {
    AllGranted(base, db, v, m, list, replacements, r);
    PublishedConsistent(db, list, m.expected, replacements);
    NamedRows(base, v, m, list, replacements, r);
  }

  lemma Rebase(a: Database, b: Database, v: Vault, m: Mutation, r: Database)
    requires SameData(a, b) && (a.keyset.Some? && a.keyset.value.phase.Ready? ==> a == b)
    requires Applied(b, v, m, r)
    ensures Applied(a, v, m, r)
  {
    forall p | p in m.profiles ensures Granted(a, v, m, p, r) {
      assert Granted(b, v, m, p, r);
    }
  }

  /** What one turn of the loop over the profiles leaves. */
  ghost predicate TurnDone(db: Database, v: Vault, m: Mutation, p: Profile, q: Profile, added: seq<Ciphertext>) {
    && p.ref == Before(db.profiles, p).ref
    && match PriorWish(db, v, m, p) {
      case Keep => q == p && added == [] && (p.ref.Some? ==> Find(db.bundles, p.ref.value).Some?)
      case Write(s) =>
        && Valid(s)
        && if s == EMPTY then q == p.(ref := None) && added == []
           else
             && q.ref.Some? && q == p.(ref := q.ref) && v.key.Some?
             && |added| == 1 && added[0] == Seal(v, q, s, added[0].size) && added[0].size <= MAX_PLAINTEXT + 33
      case Refuse(_) => false
    }
  }

  lemma PreparedFrom(
    base: Database, db: Database, v: Vault, m: Mutation, p: Profile, q: Profile, replacements: seq<Ciphertext>,
    added: seq<Ciphertext>)
    requires SameData(base, db) && TurnDone(db, v, m, p, q, added) && !Replaces(replacements, p.id)
    ensures PreparedOne(base, v, m, p, q, replacements + added)
    ensures |added| <= 1 && forall c <- added :: c.owner == p.id
  {
    if added != [] {
      assert added[0] in replacements + added;
    } else {
      assert replacements + added == replacements;
    }
  }

  /** The database with `n` more encryptions reserved, under a keyset usable throughout. */
  ghost predicate ReservedFor(base: Database, db: Database, v: Vault, n: nat) {
    if n == 0 then db == base
    else
      && Cipher(base, v).None? && Cipher(db, v).None?
      && db == base.(keyset := Some(base.keyset.value.(reserved := base.keyset.value.reserved + n)))
  }

  lemma ReservedMore(base: Database, mid: Database, db: Database, v: Vault, n: nat, k: nat)
    requires ReservedFor(base, mid, v, n) && ReservedFor(mid, db, v, k)
    ensures ReservedFor(base, db, v, n + k)
  {}

  lemma ReservedCount(base: Database, db: Database, v: Vault, n: nat)
    requires ReservedFor(base, db, v, n) && Cipher(base, v).None?
    ensures Cipher(db, v).None? && |db.bundles| + n <= db.keyset.value.reserved
  {}

  /** Two mutations in a row that patch the same connection leave the credential that one
      mutation with both patches, the later one winning, would have left. */
  lemma PatchesCompose(
    before: Database, v: Vault, first: Mutation, mid: Database, second: Mutation, after: Database,
    p: Profile, q: Profile, secrets: Secrets)
    requires Applied(before, v, first, mid) && Applied(mid, v, second, after)
    requires p in first.profiles && q in second.profiles && p.id == q.id
    requires p.id in first.patches && first.patches[p.id] != map[] && q.id in second.patches && second.patches[q.id] != map[]
    requires Reads(before.bundles, v, Before(before.profiles, p)) == Found(secrets)
    ensures Credential(after, v, p.id) == Found(Overlay(first.patches[p.id] + second.patches[p.id], secrets))
  {
    assert Granted(before, v, first, p, mid) && Granted(mid, v, second, q, after);
    OverlayTwice(first.patches[p.id], second.patches[p.id], secrets);
    hide Consistent, Cipher;
    assert Reads(mid.bundles, v, mid.profiles[p.id]) == Found(Overlay(first.patches[p.id], secrets));
  }

  // ---------------------------------------------------------------------
  // The repository
  // ---------------------------------------------------------------------

  datatype Point =
    | Cancel | Lifecycle | ReadLease | LoadKey | GenerateKey | IntentLease | SaveIntent | BeforeCreate | CreateKey
    | AfterCreate | ParseKey | CancelLate | ReadyLease | SaveReady | CancelReady
    | WriteLease | NewReference | SaveReservation | AfterReservation | CancelSealing | Encrypt | AfterEncryption
    | HostKey | CancelPublish | AfterPublication

  /** What the world does: the order in which a map is iterated, where operations fail
      and whether a failing one took effect first, the IDs and keys it generates, and the
      size of an encoded bundle. */
  datatype World = World(
    order: Patch -> seq<Field>, fails: (Point, nat) -> bool, applied: Point -> bool, generated: nat, references: nat -> nat,
    weigh: Secrets -> nat, statements: nat, ending: Ending)

  datatype Outcome = Outcome(profilesSaved: bool, publicationUncertain: bool, failure: Option<Failure>)

  predicate Named(m: Mutation, id: nat) {
    exists p <- m.profiles :: p.id == id
  }

  /** Whether a mutation needs the key; none if a patch is invalid or names no profile. */
  function NeedsKey(m: Mutation): Option<bool> {
    if exists id <- m.patches :: !Applies(m.patches[id]) || !Named(m, id) then None
    else Some(m.replacements != map[] ||
      exists id <- m.patches :: Overlay(m.patches[id], EMPTY) != EMPTY ||
        exists p <- m.profiles :: p.id == id && p.ref.Some?)
  }

  /** No new secret is to be sealed for this profile: there is no replacement, and a patch
      only clears what is empty anyway. */
  predicate SealsNothing(m: Mutation, p: Profile) {
    && p.id !in m.replacements
    && (p.id in m.patches ==> p.ref.None? && forall f <- m.patches[p.id] :: m.patches[p.id][f] == NONE)
  }

  predicate NothingToSeal(m: Mutation) {
    m.replacements == map[] && forall p <- m.profiles :: SealsNothing(m, p)
  }

  ghost predicate NoFaults(w: World) {
    w.ending.Clean? && forall p, i :: !w.fails(p, i)
  }

  /** Whether the key can be had: the recorded one is there, or none is recorded as ready
      and none is there either. */
  predicate CanUnlock(db: Database, keychain: Option<nat>, create: bool, generated: nat) {
    var row := ReadKeyset(db);
    && row.Ok?
    && match row.value
      case None => create ==> keychain.None? || keychain == Some(generated)
      case Some(k) =>
        if k.phase.Ready? then keychain == Some(k.fingerprint)
        else create && (keychain == Some(k.fingerprint) || (keychain.None? && k.reserved == 0))
  }

  /** What a mutation needs to go through when nothing outside fails: wishes that can be
      met, new references, reservations left, and room for what is added. */
  ghost predicate Feasible(db: Database, v: Vault, m: Mutation, w: World, bound: nat) {
    && NoFaults(w) && w.statements >= 3 * |m.profiles| + 4
    && (Cipher(db, v).None? || NothingToSeal(m))
    && (forall id <- m.replacements :: Named(m, id))
    && (forall p <- m.profiles :: FeasibleWish(db, v, m, p))
    && (db.keyset.Some? ==> db.keyset.value.reserved + |m.profiles| <= MAX_RESERVATIONS)
    && NewReferences(db, m, w)
    && (forall s :: w.weigh(s) <= bound) && bound <= MAX_PLAINTEXT
    && Total(db.bundles) + |m.profiles| * (bound + 33) <= MAX_TOTAL
  }

  predicate FeasibleWish(db: Database, v: Vault, m: Mutation, p: Profile) {
    && p.ref == Before(db.profiles, p).ref
    && match PriorWish(db, v, m, p) {
      case Keep => p.ref.Some? ==> exists c <- db.bundles :: c.owner == p.id && c.ref == p.ref.value
      case Write(s) => Patches(m, p) || Valid(s)
      case Refuse(_) => false
    }
  }

  predicate Patches(m: Mutation, p: Profile) {
    p.id in m.patches && m.patches[p.id] != map[]
  }

  /** What a patch makes of secrets that were read is valid, so only a replacement can
      bring invalid ones. */
  lemma PatchedValid(db: Database, v: Vault, m: Mutation, p: Profile)
    requires Patches(m, p) && PriorWish(db, v, m, p).Write?
    ensures Valid(PriorWish(db, v, m, p).secrets)
  {
    var prior := Reads(db.bundles, v, Before(db.profiles, p));
    OverlayValid(m.patches[p.id], if prior.Found? then prior.secrets else EMPTY);
  }

  predicate NewReferences(db: Database, m: Mutation, w: World) {
    forall i :: 0 <= i < |m.profiles| ==>
      && (forall j :: 0 <= j < |m.profiles| ==>
            (i != j ==> w.references(i) != w.references(j)) && m.profiles[j].ref != Some(w.references(i)))
      && (forall c <- db.bundles :: c.ref != w.references(i))
  }

  /** Where the references and sizes of a prepared mutation come from. */
  ghost predicate Drawn(m: Mutation, w: World, list: seq<Profile>, replacements: seq<Ciphertext>, n: nat, bound: nat) {
    && |list| == |m.profiles| && n <= |list| && |replacements| <= n
    && (forall r <- replacements :: 1 <= r.size <= bound + 33 && r.version == 1)
    && (forall r <- replacements :: exists j :: 0 <= j < n && r.ref == w.references(j) && r.owner == m.profiles[j].id)
    && (forall j :: 0 <= j < |list| ==>
          list[j].ref == None || list[j].ref == m.profiles[j].ref || list[j].ref == Some(w.references(j)))
  }

  lemma DrawnDecodes(
    db: Database, v: Vault, m: Mutation, w: World, list: seq<Profile>, replacements: seq<Ciphertext>, bound: nat)
    requires Decodes(m.profiles) && NewReferences(db, m, w)
    requires Prepared(db, v, m, list, replacements, |list|) && Drawn(m, w, list, replacements, |list|, bound)
    ensures Decodes(list)
  {
    forall i, j | 0 <= i < j < |list| ensures !Clash(list[i], list[j]) {
      assert PreparedOne(db, v, m, m.profiles[i], list[i], replacements);
      assert PreparedOne(db, v, m, m.profiles[j], list[j], replacements);
      assert !Clash(m.profiles[i], m.profiles[j]);
    }
  }

  lemma DrawnNew(
    db: Database, m: Mutation, w: World, list: seq<Profile>, replacements: seq<Ciphertext>, bound: nat)
    requires NewReferences(db, m, w) && Drawn(m, w, list, replacements, |list|, bound) && DistinctOwnersOf(replacements)
    requires bound <= MAX_PLAINTEXT
    ensures New(db.bundles, replacements)
  {
    forall i, j | 0 <= i < j < |replacements| ensures replacements[i].ref != replacements[j].ref {
      assert replacements[i] in replacements && replacements[j] in replacements;
      var a :| 0 <= a < |list| && replacements[i].ref == w.references(a) && replacements[i].owner == m.profiles[a].id;
      var b :| 0 <= b < |list| && replacements[j].ref == w.references(b) && replacements[j].owner == m.profiles[b].id;
    }
  }

  lemma {:induction false} DrawnTotal(replacements: seq<Ciphertext>, each: nat)
    requires forall r <- replacements :: r.size <= each
    ensures Total(replacements) <= |replacements| * each
  {
    if replacements != [] {
      DrawnTotal(replacements[..|replacements| - 1], each);
    }
  }

  lemma DrawnBacked(db: Database, v: Vault, m: Mutation, list: seq<Profile>, replacements: seq<Ciphertext>, j: nat)
    requires Prepared(db, v, m, list, replacements, |list|) && j < |list| && FeasibleWish(db, v, m, m.profiles[j])
    ensures Backed(db, replacements, list[j])
  {
    hide Reads, Wanted, Valid, Find;
    var p, q := m.profiles[j], list[j];
    assert PreparedOne(db, v, m, p, q, replacements);
    if PriorWish(db, v, m, p).Write? && q.ref.Some? {
      var s := PriorWish(db, v, m, p).secrets;
      var size: nat :| size <= MAX_PLAINTEXT + 33 && Seal(v, q, s, size) in replacements;
      assert Seal(v, q, s, size).owner == q.id && Seal(v, q, s, size).ref == q.ref.value;
    }
  }

  /** A feasible mutation, once prepared, is one that publication accepts. */
  lemma FeasiblePublishes(
    base: Database, db: Database, v: Vault, m: Mutation, w: World, list: seq<Profile>, replacements: seq<Ciphertext>, bound: nat)
    requires Tables(base) && SameData(base, db) && Decodes(m.profiles) && RevisionOf(base) == m.expected
    requires Feasible(base, v, m, w, bound)
    requires Prepared(base, v, m, list, replacements, |list|) && Drawn(m, w, list, replacements, |list|, bound)
    ensures Publication(db, list, m.expected, replacements).Ok?
  {
    DrawnDecodes(base, v, m, w, list, replacements, bound);
    DrawnNew(base, m, w, list, replacements, bound);
    DrawnTotal(replacements, bound + 33);
    RemainingTotal(db, list, replacements);
    Scaled(|replacements|, |m.profiles|, bound + 33);
    forall p | p in list ensures Backed(db, replacements, p) {
      var j :| 0 <= j < |list| && list[j] == p;
      assert m.profiles[j] in m.profiles;
      DrawnBacked(base, v, m, list, replacements, j);
      assert Backed(base, replacements, p);
    }
    PublicationAccepts(db, list, m.expected, replacements);
  }

  lemma Scaled(a: nat, b: nat, each: nat)
    requires a <= b
    ensures a * each <= b * each
  {}

  /** When one turn of the loop cannot fail. */
  ghost predicate FeasibleTurn(db: Database, v: Vault, m: Mutation, p: Profile, w: World) {
    && NoFaults(w) && FeasibleWish(db, v, m, p) && (forall s :: w.weigh(s) <= MAX_PLAINTEXT)
    && (SealsNothing(m, p) || CanReserve(db, v))
  }

  predicate CanReserve(db: Database, v: Vault) {
    Cipher(db, v).None? && db.keyset.value.reserved < MAX_RESERVATIONS
  }

  /** What a caller of Apply can see to beforehand. */
  predicate Prompt(db: Database, v: Vault, m: Mutation) {
    Decodes(m.profiles) && WellPatched(m) && RevisionOf(db) == m.expected && !v.closed
  }

  /** Every patch can be applied and names a listed connection. */
  predicate WellPatched(m: Mutation) {
    forall id <- m.patches :: Applies(m.patches[id]) && Named(m, id)
  }

  lemma NoSeal(db: Database, v: Vault, m: Mutation, p: Profile)
    requires SealsNothing(m, p) && FeasibleWish(db, v, m, p)
    ensures Before(db.profiles, p).ref.None? || p.id !in m.patches
    ensures PriorWish(db, v, m, p) == Keep || PriorWish(db, v, m, p) == Write(EMPTY)
  {
    if Patches(m, p) {
      Clears(m.patches[p.id]);
    }
  }

  /** What a patch is laid over can be read: the key is usable, or there is nothing to read. */
  predicate Choosable(db: Database, v: Vault, m: Mutation, p: Profile) {
    Cipher(db, v).None? || p.id !in m.patches || Before(db.profiles, p).ref.None?
  }

  /** A patch that only clears leaves nothing of nothing. */
  lemma Clears(patch: Patch)
    ensures (forall f <- patch :: patch[f] == NONE) ==> Overlay(patch, EMPTY) == EMPTY
    ensures Applies(patch) && Overlay(patch, EMPTY) == EMPTY ==> forall f <- patch :: patch[f] == NONE
  {
    if forall f <- patch :: patch[f] == NONE {
      SameFields(Overlay(patch, EMPTY), EMPTY);
    }
    if Applies(patch) && Overlay(patch, EMPTY) == EMPTY {
      forall f | f in patch ensures patch[f] == NONE {
        assert Get(Overlay(patch, EMPTY), f) == Patched(patch, EMPTY, f);
      }
    }
  }

  /** The key is asked for unless the mutation seals nothing, and an invalid patch is
      refused before that. */
  lemma KeyAskedFor(m: Mutation)
    ensures NeedsKey(m).Some? <==> WellPatched(m)
    ensures NeedsKey(m).Some? ==> (NeedsKey(m) == Some(false) <==> NothingToSeal(m))
  {
    if NeedsKey(m) == Some(false) {
      forall p | p in m.profiles ensures SealsNothing(m, p) {
        if p.id in m.patches {
          assert Overlay(m.patches[p.id], EMPTY) == EMPTY;
          Clears(m.patches[p.id]);
        }
      }
    }
    if NothingToSeal(m) && WellPatched(m) {
      forall id | id in m.patches ensures Overlay(m.patches[id], EMPTY) == EMPTY && forall p <- m.profiles :: p.id == id ==> p.ref.None? {
        var p :| p in m.profiles && p.id == id;
        assert SealsNothing(m, p);
        Clears(m.patches[id]);
        assert forall q <- m.profiles :: SealsNothing(m, q);
      }
    }
  }

  // ---------------------------------------------------------------------
  // What unlocking leaves
  // ---------------------------------------------------------------------

  /** The keyset row after the key was had: as it was if it was ready, the one that was
      intended if its key is there, and otherwise a new one without reservations. */
  function UnlockedKeyset(db: Database, keychain: Option<nat>, generated: nat): Keyset {
    if db.keyset.Some? && (db.keyset.value.phase.Ready? || keychain.Some?) then db.keyset.value.(phase := Ready)
    else Keyset(Ready, generated, 0)
  }

  function WithKey(db: Database, keychain: Option<nat>, generated: nat): Database {
    db.(keyset := Some(UnlockedKeyset(db, keychain, generated)))
  }

  function KeyedVault(v: Vault, k: Keyset): Vault {
    v.(key := Some(k.fingerprint), fingerprint := k.fingerprint)
  }

  /** A mutation that can be met with the key at hand, which a locked repository first has to
      get. */
  ghost predicate FeasibleUnlocked(db: Database, v: Vault, keychain: Option<nat>, m: Mutation, w: World, bound: nat) {
    if v.key.Some? then Feasible(db, v, m, w, bound)
    else
      && CanUnlock(db, keychain, true, w.generated)
      && Feasible(WithKey(db, keychain, w.generated), KeyedVault(v, UnlockedKeyset(db, keychain, w.generated)), m, w, bound)
  }

  /** A mutation that can be met once unlocked, and that needs no key, can be met locked. */
  lemma FeasibleLocked(db: Database, v: Vault, keychain: Option<nat>, m: Mutation, w: World, bound: nat)
    requires NothingToSeal(m) && FeasibleUnlocked(db, v, keychain, m, w, bound)
    ensures Feasible(db, v, m, w, bound)
  {
    if v.key.Some? {
      return;
    }
    var r, u := WithKey(db, keychain, w.generated), KeyedVault(v, UnlockedKeyset(db, keychain, w.generated));
    forall p | p in m.profiles ensures FeasibleWish(db, v, m, p) {
      assert SealsNothing(m, p) && FeasibleWish(r, u, m, p);
      NoSeal(r, u, m, p);
    }
  }

  lemma FeasibleHere(
    base: Database, db: Database, v: Vault, m: Mutation, w: World, list: seq<Profile>, replacements: seq<Ciphertext>,
    i: nat, bound: nat)
    requires SameData(base, db) && ReservedFor(base, db, v, |replacements|)
    requires Prepared(base, v, m, list, replacements, i) && i < |list|
    requires Feasible(base, v, m, w, bound) ==> Drawn(m, w, list, replacements, i, bound)
    ensures Feasible(base, v, m, w, bound) ==> FeasibleTurn(db, v, m, list[i], w) && forall s :: w.weigh(s) <= bound
  {
    if Feasible(base, v, m, w, bound) {
      assert m.profiles[i] in m.profiles && list[i] == m.profiles[i];
      assert FeasibleWish(base, v, m, m.profiles[i]);
      assert SameData(base, db);
    }
  }

  lemma DrawnMore(
    m: Mutation, w: World, list: seq<Profile>, replacements: seq<Ciphertext>, i: nat, bound: nat, q: Profile,
    added: seq<Ciphertext>)
    requires Drawn(m, w, list, replacements, i, bound) && i < |list|
    requires |added| <= 1 && forall c <- added ::
      c.owner == m.profiles[i].id && 1 <= c.size <= bound + 33 && c.version == 1 && c.ref == w.references(i)
    requires q.ref == None || q.ref == m.profiles[i].ref || q.ref == Some(w.references(i))
    ensures Drawn(m, w, list[i := q], replacements + added, i + 1, bound)
  {
    forall r | r in replacements + added
      ensures exists j :: 0 <= j < i + 1 && r.ref == w.references(j) && r.owner == m.profiles[j].id
    {
      if r in replacements {
        var j :| 0 <= j < i && r.ref == w.references(j) && r.owner == m.profiles[j].id;
      } else {
        assert r in added;
        assert r.ref == w.references(i) && r.owner == m.profiles[i].id;
      }
    }
  }

  lemma FaultFree(db: Database, v: Vault, m: Mutation, w: World, bound: nat)
    ensures Feasible(db, v, m, w, bound) ==> NoFaults(w)
  {}

  lemma NothingPrepared(db: Database, v: Vault, m: Mutation, w: World, bound: nat)
    ensures Prepared(db, v, m, m.profiles, [], 0) && Drawn(m, w, m.profiles, [], 0, bound) && ReservedFor(db, db, v, 0)
  {}

  lemma Unchanged(db: Database, v: Vault, m: Mutation, list: seq<Profile>, replacements: seq<Ciphertext>, i: nat)
    requires Prepared(db, v, m, list, replacements, i) && i < |list|
    ensures |list| == |m.profiles| && list[i] == m.profiles[i]
  {}

  class Repository {
    const store: ProfileStore
    const installation: nat
    var keychain: Option<nat>
    var key: Option<nat>
    var fingerprint: nat
    var closed: bool

    constructor (store: ProfileStore, installation: nat, keychain: Option<nat>)
      ensures this.store == store && this.installation == installation && this.keychain == keychain
      ensures key.None? && !closed
    {
      this.store, this.installation, this.keychain := store, installation, keychain;
      key, fingerprint, closed := None, 0, false;
    }

    function Held(): Vault
      reads this
    {
      Vault(installation, key, fingerprint, closed)
    }

    /** One keyset row written on its own; a failing write may still have happened. */
    method SaveKeyset(k: Keyset, fails: bool, applied: bool) returns (ok: bool)
      modifies store
      ensures ok <==> !fails
      ensures store.db == if ok || applied then old(store.db).(keyset := Some(k)) else old(store.db)
    {
      if !fails || applied {
        store.db := store.db.(keyset := Some(k));
      }
      ok := !fails;
    }

    /** The key that the operating system holds for the account afterwards; an existing
        one is never overwritten. */
    method CreateIfAbsent(candidate: nat, fails: bool, applied: bool) returns (loaded: Option<nat>)
      modifies this`keychain
      ensures old(keychain).Some? ==> keychain == old(keychain)
      ensures old(keychain).None? ==> keychain == None || keychain == Some(candidate)
      ensures loaded.Some? ==> loaded == keychain
      ensures loaded.Some? <==> !fails
    {
      if keychain.None? && (!fails || applied) {
        keychain := Some(candidate);
      }
      loaded := if fails then None else keychain;
    }

    /** Loads or creates the key. Profiles and ciphertext are never touched, a ready
        keyset row never changes, and the key held afterwards is the recorded one. */
    method Unlock(create: bool, expected: Option<Revision>, w: World) returns (failure: Option<Failure>)
      modifies this`keychain, this`key, this`fingerprint, store
      ensures SameData(store.db, old(store.db))
      ensures old(store.db).keyset.Some? && old(store.db).keyset.value.phase.Ready? ==> store.db == old(store.db)
      ensures ReadKeyset(old(store.db)).Err? ==> store.db == old(store.db)
      ensures ReadKeyset(old(store.db)).Ok? ==> ReadKeyset(store.db).Ok?
      ensures old(keychain).Some? ==> keychain == old(keychain)
      ensures (key, fingerprint) == old((key, fingerprint)) ||
        (failure.None? && old(key).None? && key == keychain == Some(fingerprint) && store.db.keyset.Some? &&
         store.db.keyset.value.phase.Ready? && store.db.keyset.value.fingerprint == fingerprint)
      ensures failure.None? && create ==> key.Some?
      ensures failure.None? && create && old(key).None? ==>
        var k := UnlockedKeyset(old(store.db), old(keychain), w.generated);
        store.db == old(store.db).(keyset := Some(k)) && key == Some(k.fingerprint) && fingerprint == k.fingerprint
      ensures NoFaults(w) && !closed && old(key).None? && (expected.None? || expected.value == RevisionOf(old(store.db))) ==>
        (failure.None? <==> CanUnlock(old(store.db), old(keychain), create, w.generated))
      ensures old(key).Some? && !closed && !w.fails(Cancel, 0) ==> failure.None? && store.db == old(store.db)
    {
      if closed {
        return Some(Unavailable);
      }
      if key.Some? {
        return if w.fails(Cancel, 0) then Some(Cancelled) else None;
      }
      if (create && w.fails(Lifecycle, 0)) || w.fails(ReadLease, 0) {
        return Some(Lease);
      }
      var row := ReadKeyset(store.db);
      if row.Err? {
        return Some(Repair);
      }
      if expected.Some? && expected.value != RevisionOf(store.db) {
        return Some(Failure.Database(Stale));
      }
      if row.value.None? && !create {
        return None;
      }
      var raw: Option<nat> := None;
      if row.value.Some? {
        var recorded := row.value.value;
        if w.fails(LoadKey, 0) {
          return Some(Provider);
        }
        raw := keychain;
        if raw.None? && !(recorded.phase.Intent? && create && recorded.reserved == 0) {
          return Some(Missing);
        }
        if raw.Some? && raw.value != recorded.fingerprint {
          return Some(Repair);
        }
      }
      var k: Keyset;
      if raw.None? {
        if w.fails(GenerateKey, 0) {
          return Some(Unavailable);
        }
        k := Keyset(Intent, w.generated, 0);
        if w.fails(IntentLease, 0) {
          return Some(Lease);
        }
        var saved := SaveKeyset(k, w.fails(SaveIntent, 0), w.applied(SaveIntent));
        if !saved {
          return Some(Failure.Database(State));
        }
        if w.fails(BeforeCreate, 0) {
          return Some(Provider);
        }
        var loaded := CreateIfAbsent(w.generated, w.fails(CreateKey, 0), w.applied(CreateKey));
        if loaded.None? {
          return Some(Provider);
        }
        if loaded.value != k.fingerprint {
          return Some(Repair);
        }
        if w.fails(AfterCreate, 0) {
          return Some(Provider);
        }
        raw := Some(w.generated);
      } else {
        k := row.value.value;
      }
      if w.fails(ParseKey, 0) {
        return Some(Repair);
      }
      if w.fails(CancelLate, 0) {
        return Some(Cancelled);
      }
      if k.phase.Intent? {
        if !create {
          return Some(Repair);
        }
        if w.fails(ReadyLease, 0) {
          return Some(Lease);
        }
        k := k.(phase := Ready);
        var saved := SaveKeyset(k, w.fails(SaveReady, 0), w.applied(SaveReady));
        if !saved {
          return Some(Failure.Database(State));
        }
      }
      if w.fails(CancelReady, 0) {
        return Some(Cancelled);
      }
      key, fingerprint := raw, k.fingerprint;
      failure := None;
    }

    /** Reads a credential before anything is published. */
    method PriorCredential(p: Profile) returns (reading: Reading)
      ensures reading == Read(store.db, Held(), Before(store.db.profiles, p))
      ensures reading.Found? || reading.failure.CredentialMissing? ==>
        reading == Reads(store.db.bundles, Held(), Before(store.db.profiles, p))
    {
      reading := Read(store.db, Held(), Before(store.db.profiles, p));
    }

    /** Reserves one encryption durably, then encrypts. */
    method Encrypt(p: Profile, secrets: Secrets, i: nat, w: World) returns (r: Option<Ciphertext>, failure: Option<Failure>)
      modifies store
      ensures store.db == old(store.db) ||
        (old(store.db).keyset.Some? && old(store.db).keyset.value.reserved < MAX_RESERVATIONS &&
         store.db == Reserved(old(store.db)))
      ensures r.Some? <==> failure.None?
      ensures r.Some? ==>
        && ReservedFor(old(store.db), store.db, Held(), 1) && key.Some?
        && r.value.version == 1 && r.value.size <= MAX_PLAINTEXT + 33
        && r.value == Seal(Held(), p.(ref := Some(w.references(i))), secrets, r.value.size)
        && r.value.size == w.weigh(secrets) + 33
      ensures NoFaults(w) && CanReserve(old(store.db), Held()) && w.weigh(secrets) <= MAX_PLAINTEXT ==> r.Some?
    {
      var refused := Cipher(store.db, Held());
      if refused.Some? {
        return None, refused;
      }
      if w.fails(NewReference, i) {
        return None, Some(Unavailable);
      }
      if w.weigh(secrets) > MAX_PLAINTEXT {
        return None, Some(Repair);
      }
      var k := store.db.keyset.value;
      if k.reserved >= MAX_RESERVATIONS {
        return None, Some(Limit);
      }
      k := k.(reserved := k.reserved + 1);
      var saved := SaveKeyset(k, w.fails(SaveReservation, i), w.applied(SaveReservation));
      if !saved {
        return None, Some(Failure.Database(State));
      }
      if w.fails(AfterReservation, i) || w.fails(CancelSealing, i) || w.fails(Point.Encrypt, i) || w.fails(AfterEncryption, i) {
        return None, Some(Repair);
      }
      r, failure := Some(Seal(Held(), p.(ref := Some(w.references(i))), secrets, w.weigh(secrets) + 33)), None;
    }

    /** Checks a mutation, prepares new ciphertext and publishes everything at once. */
    method Apply(m: Mutation, w: World, ghost bound: nat) returns (out: Outcome)
      requires Tables(store.db)
      requires forall patch, f :: f in w.order(patch) <==> f in patch
      modifies this`keychain, this`key, this`fingerprint, store
      ensures Tables(store.db)
      ensures out.profilesSaved || !SameData(store.db, old(store.db)) ==> Applied(old(store.db), Held(), m, store.db)
      ensures out.profilesSaved ==> RevisionOf(old(store.db)) == m.expected && !out.publicationUncertain
      ensures !out.profilesSaved && !out.publicationUncertain ==> SameData(store.db, old(store.db))
      ensures out.failure.None? ==> out.profilesSaved
      ensures Prompt(old(store.db), old(Held()), m) && NothingToSeal(m) && Feasible(old(store.db), old(Held()), m, w, bound) ==>
        out.failure.None?
      ensures Prompt(old(store.db), old(Held()), m) && FeasibleUnlocked(old(store.db), old(Held()), old(keychain), m, w, bound) ==>
        out.failure.None?
      ensures NothingToSeal(m) ==> key == old(key) && keychain == old(keychain)
    {
      hide Applied, Feasible, Decodes, NeedsKey, WellPatched, NothingToSeal, CanUnlock;
      KeyAskedFor(m);
      if NothingToSeal(m) && FeasibleUnlocked(store.db, Held(), keychain, m, w, bound) {
        FeasibleLocked(store.db, Held(), keychain, m, w, bound);
      }
      FaultFree(WithKey(store.db, keychain, w.generated), KeyedVault(Held(), UnlockedKeyset(store.db, keychain, w.generated)), m, w, bound);
      FaultFree(store.db, Held(), m, w, bound);
      if !Decodes(m.profiles) {
        return Outcome(false, false, Some(Failure.Database(Invalid)));
      }
      var needs := NeedsKey(m);
      if needs.None? {
        return Outcome(false, false, Some(Repair));
      }
      if needs.value {
        var failure := Unlock(true, Some(m.expected), w);
        if failure.Some? {
          return Outcome(false, false, failure);
        }
      }
      if w.fails(WriteLease, 0) {
        return Outcome(false, false, Some(Lease));
      }
      if RevisionOf(store.db) != m.expected {
        return Outcome(false, false, Some(Failure.Database(Stale)));
      }
      ghost var mid := store.db;
      out := ApplyLocked(m, w, bound);
      if Applied(mid, Held(), m, store.db) {
        Rebase(old(store.db), mid, Held(), m, store.db);
      }
    }

    /** The part under the write lease, with the expected revision current. */
    method ApplyLocked(m: Mutation, w: World, ghost bound: nat) returns (out: Outcome)
      requires Tables(store.db) && Decodes(m.profiles) && RevisionOf(store.db) == m.expected
      requires forall patch, f :: f in w.order(patch) <==> f in patch
      modifies store
      ensures Tables(store.db)
      ensures out.profilesSaved || !SameData(store.db, old(store.db)) ==> Applied(old(store.db), Held(), m, store.db)
      ensures out.profilesSaved ==> !out.publicationUncertain
      ensures !out.profilesSaved && !out.publicationUncertain ==> SameData(store.db, old(store.db))
      ensures out.failure.None? ==> out.profilesSaved
      ensures Feasible(old(store.db), Held(), m, w, bound) ==> out.failure.None?
    {
      hide Applied, Prepared, Publication, NeedsKey;
      ghost var base := store.db;
      var list, replacements, failure := Prepare(m, w, bound);
      if failure.Some? {
        return Outcome(false, false, failure);
      }
      if exists id <- m.replacements :: !Named(m, id) {
        return Outcome(false, false, Some(Repair));
      }
      if w.fails(HostKey, 0) || w.fails(CancelPublish, 0) {
        return Outcome(false, false, Some(Cancelled));
      }
      ghost var db := store.db;
      if Feasible(base, Held(), m, w, bound) {
        FeasiblePublishes(base, db, Held(), m, w, list, replacements, bound);
      }
      var r := store.Publish(list, m.expected, replacements, w.statements, w.ending);
      if Publication(db, list, m.expected, replacements) == Ok(store.db) {
        PublishedConsistent(db, list, m.expected, replacements);
        if Cipher(base, Held()).None? {
          ReservedCount(base, db, Held(), |replacements|);
          CipherKept(db, Held(), list, m.expected, replacements, store.db);
        }
        AppliedBy(base, db, Held(), m, list, replacements, store.db);
      }
      if r.Err? {
        return Outcome(false, r.error.CommitUnknown?, Some(Failure.Database(r.error)));
      }
      out := Outcome(true, false, if w.fails(AfterPublication, 0) then Some(Provider) else None);
    }

    /** The loop over the profiles. */
    method Prepare(m: Mutation, w: World, ghost bound: nat)
      returns (list: seq<Profile>, replacements: seq<Ciphertext>, failure: Option<Failure>)
      requires Decodes(m.profiles)
      requires forall patch, f :: f in w.order(patch) <==> f in patch
      modifies store
      ensures SameData(old(store.db), store.db)
      ensures failure.None? ==>
        && Prepared(old(store.db), Held(), m, list, replacements, |list|)
        && ReservedFor(old(store.db), store.db, Held(), |replacements|)
      ensures Feasible(old(store.db), Held(), m, w, bound) ==>
        failure.None? && Drawn(m, w, list, replacements, |list|, bound)
    {
      hide Prepared, Drawn, Feasible, FeasibleTurn, ReservedFor, TurnDone, PreparedOne;
      list, replacements := m.profiles, [];
      NothingPrepared(store.db, Held(), m, w, bound);
      for i := 0 to |list|
        invariant |list| == |m.profiles| && SameData(old(store.db), store.db)
        invariant Prepared(old(store.db), Held(), m, list, replacements, i)
        invariant ReservedFor(old(store.db), store.db, Held(), |replacements|)
        invariant Feasible(old(store.db), Held(), m, w, bound) ==> Drawn(m, w, list, replacements, i, bound)
      {
        ghost var db := store.db;
        FeasibleHere(old(store.db), db, Held(), m, w, list, replacements, i, bound);
        var q, added;
        q, added, failure := PrepareOne(m, list[i], i, w, bound);
        if failure.Some? {
          return;
        }
        Unchanged(old(store.db), Held(), m, list, replacements, i);
        NoOwnerYet(old(store.db), Held(), m, list, replacements, i);
        PreparedFrom(old(store.db), db, Held(), m, list[i], q, replacements, added);
        PreparedGrows(old(store.db), Held(), m, list, replacements, i, q, added);
        ReservedMore(old(store.db), db, store.db, Held(), |replacements|, |added|);
        if Feasible(old(store.db), Held(), m, w, bound) {
          DrawnMore(m, w, list, replacements, i, bound, q, added);
        }
        list, replacements := list[i := q], replacements + added;
      }
      failure := None;
    }

    /** One turn of it: the profile with its new reference, and its new ciphertext. */
    method PrepareOne(m: Mutation, p: Profile, i: nat, w: World, ghost bound: nat)
      returns (q: Profile, added: seq<Ciphertext>, failure: Option<Failure>)
      requires forall patch, f :: f in w.order(patch) <==> f in patch
      modifies store
      ensures SameData(old(store.db), store.db)
      ensures failure.None? ==>
        TurnDone(old(store.db), Held(), m, p, q, added) && ReservedFor(old(store.db), store.db, Held(), |added|)
      ensures failure.None? ==> q.ref == None || q.ref == p.ref || q.ref == Some(w.references(i))
      ensures (forall s :: w.weigh(s) <= bound) ==>
        forall c <- added :: 1 <= c.size <= bound + 33 && c.version == 1 && c.ref == w.references(i)
      ensures FeasibleTurn(old(store.db), Held(), m, p, w) ==> failure.None?
    {
      if Patches(m, p) && PriorWish(store.db, Held(), m, p).Write? {
        PatchedValid(store.db, Held(), m, p);
      }
      hide PriorWish, Cipher, Valid;
      if SealsNothing(m, p) && FeasibleWish(store.db, Held(), m, p) {
        NoSeal(store.db, Held(), m, p);
      }
      q, added := p, [];
      if p.ref != Before(store.db.profiles, p).ref {
        return q, added, Some(BadBinding);
      }
      var wish := Choose(m, p, w);
      match wish {
        case Refuse(e) => return q, added, Some(e);
        case Keep =>
          failure := if p.ref.Some? && Find(store.db.bundles, p.ref.value).None? then Some(CredentialMissing) else None;
        case Write(secrets) =>
          if !Valid(secrets) {
            return q, added, Some(Repair);
          }
          if secrets == EMPTY {
            return p.(ref := None), [], None;
          }
          var sealed;
          sealed, failure := Encrypt(p, secrets, i, w);
          if sealed.Some? {
            q, added := p.(ref := Some(sealed.value.ref)), [sealed.value];
          }
      }
    }

    /** The secrets to write: a patch over what reads now, or a replacement. */
    method Choose(m: Mutation, p: Profile, w: World) returns (wish: Wish)
      requires forall patch, f :: f in w.order(patch) <==> f in patch
      ensures wish.Refuse? || wish == PriorWish(store.db, Held(), m, p)
      ensures !PriorWish(store.db, Held(), m, p).Refuse? && Choosable(store.db, Held(), m, p) ==>
        wish == PriorWish(store.db, Held(), m, p)
    {
      if p.id in m.patches && m.patches[p.id] != map[] {
        var patch := m.patches[p.id];
        var prior := PriorCredential(p);
        if prior.Failed? && !(prior.failure.CredentialMissing? && Complete(patch, p)) {
          return Refuse(prior.failure);
        }
        var ok, secrets := Credentials.Apply(patch, w.order(patch), if prior.Found? then prior.secrets else EMPTY);
        return if ok then Write(secrets) else Refuse(Repair);
      }
      wish := if p.id in m.replacements then Write(m.replacements[p.id]) else Keep;
    }
  }

  /** The same database with one more encryption reserved. */
  function Reserved(db: Database): Database
    requires db.keyset.Some?
  {
    db.(keyset := Some(db.keyset.value.(reserved := db.keyset.value.reserved + 1)))
  }
}
