/**
 The profile database: one transaction publishes profiles, ciphertext and the
 generation together, under the revision that the caller last saw.

 Tables are rows without order of their own, and ciphertext is opaque here. The transaction's constraints are those of the schema, the foreign keys deferred to
 the commit.
 */
module ProfileDatabase {
  import Runs
  import Credentials

  datatype Option<+T> = None | Some(value: T)

  datatype Error = Stale | Invalid | State | CommitUnknown

  datatype Result<+T> = Ok(value: T) | Err(error: Error)

  datatype Ssh = NoSsh | ByPassword | ByKey

  /** `settings` stands for the members no property here depends on. */
  datatype Profile = Profile(id: nat, alias: nat, ref: Option<nat>, ssh: Ssh, proxyUser: bool, settings: nat)

  type Profiles = map<nat, Profile>

  datatype Ciphertext = Ciphertext(ref: nat, owner: nat, version: nat, size: nat, data: Credentials.Sealed)

  datatype Phase = Intent | Ready

  datatype Keyset = Keyset(phase: Phase, fingerprint: nat, reserved: nat)

  datatype Database = Database(
    generation: nat, profiles: Profiles, bundles: seq<Ciphertext>, keyset: Option<Keyset>)

  /** The digest of canonical profiles is taken to be free of collisions. */
  datatype Revision = Revision(digest: Profiles, generation: nat)

  const MAX_PROFILES := 128
  const MAX_CIPHERTEXT := 4_194_337
  const MAX_TOTAL := 8 * 1024 * 1024

  function RevisionOf(db: Database): Revision {
    Revision(db.profiles, db.generation)
  }

  // ---------------------------------------------------------------------
  // Profile documents
  // ---------------------------------------------------------------------

  predicate Clash(a: Profile, b: Profile) {
    a.id == b.id || a.alias == b.alias || (a.ref.Some? && a.ref == b.ref)
  }

  predicate Decodes(list: seq<Profile>) {
    |list| <= MAX_PROFILES && forall i, j :: 0 <= i < j < |list| ==> !Clash(list[i], list[j])
  }

  // ---------------------------------------------------------------------
  // Statements
  // ---------------------------------------------------------------------

  function Filter(rows: seq<Ciphertext>, keep: Ciphertext -> bool): (kept: seq<Ciphertext>)
    ensures forall c :: c in kept <==> c in rows && keep(c)
    ensures |kept| <= |rows|
  {
    if rows == [] then []
    else
      var rest := Filter(rows[..|rows| - 1], keep);
      assert forall c :: c in rows <==> c in rows[..|rows| - 1] || c == rows[|rows| - 1];
      if keep(rows[|rows| - 1]) then rest + [rows[|rows| - 1]] else rest
  }

  function Total(bundles: seq<Ciphertext>): nat {
    if bundles == [] then 0 else Total(bundles[..|bundles| - 1]) + bundles[|bundles| - 1].size
  }

  function DeleteOwned(bundles: seq<Ciphertext>, owner: nat): seq<Ciphertext> {
    Filter(bundles, (c: Ciphertext) => c.owner != owner)
  }

  function InsertBundle(bundles: seq<Ciphertext>, c: Ciphertext): Option<seq<Ciphertext>> {
    if c.version != 1 || !(1 <= c.size <= MAX_CIPHERTEXT) then None
    else if exists b <- bundles :: b.ref == c.ref || b.owner == c.owner then None
    else Some(bundles + [c])
  }

  function InsertProfile(profiles: Profiles, p: Profile): Option<Profiles> {
    if exists id <- profiles :: Clash(profiles[id], p) then None else Some(profiles[p.id := p])
  }

  predicate Refers(profiles: Profiles, ref: nat) {
    exists id <- profiles :: profiles[id].ref == Some(ref)
  }

  /** Both deferred foreign keys. */
  predicate ForeignKeys(profiles: Profiles, bundles: seq<Ciphertext>) {
    && (forall id <- profiles :: profiles[id].ref.Some? ==>
          exists c <- bundles :: c.ref == profiles[id].ref.value && c.owner == id)
    && (forall c <- bundles :: c.owner in profiles && profiles[c.owner].ref == Some(c.ref))
  }

  function StageBundles(bundles: seq<Ciphertext>, replacements: seq<Ciphertext>): Option<seq<Ciphertext>> {
    if replacements == [] then Some(bundles)
    else
      var last := replacements[|replacements| - 1];
      match StageBundles(bundles, replacements[..|replacements| - 1])
      case None => None
      case Some(staged) => InsertBundle(DeleteOwned(staged, last.owner), last)
  }

  function StageProfiles(list: seq<Profile>): Option<Profiles> {
    if list == [] then Some(map[])
    else
      match StageProfiles(list[..|list| - 1])
      case None => None
      case Some(staged) => InsertProfile(staged, list[|list| - 1])
  }

  function DropUnreferenced(profiles: Profiles, bundles: seq<Ciphertext>): seq<Ciphertext> {
    Filter(bundles, (c: Ciphertext) => Refers(profiles, c.ref))
  }

  /** What a publication commits, if nothing outside the database fails. */
  function Publication(
    db: Database, list: seq<Profile>, expected: Revision, replacements: seq<Ciphertext>): Result<Database>
  {
    if !Decodes(list) then Err(Invalid)
    else if RevisionOf(db) != expected then Err(Stale)
    else
      match StageBundles(db.bundles, replacements)
      case None => Err(State)
      case Some(staged) =>
        match StageProfiles(list)
        case None => Err(State)
        case Some(profiles) =>
          var bundles := DropUnreferenced(profiles, staged);
          if Total(bundles) > MAX_TOTAL then Err(State)
          else if !ForeignKeys(profiles, bundles) then Err(CommitUnknown)
          else Ok(Database(db.generation + 1, profiles, bundles, db.keyset))
  }

  // ---------------------------------------------------------------------
  // What a database keeps
  // ---------------------------------------------------------------------

  predicate UniqueRows(bundles: seq<Ciphertext>) {
    forall i, j :: 0 <= i < j < |bundles| ==> bundles[i].ref != bundles[j].ref && bundles[i].owner != bundles[j].owner
  }

  predicate ProfileTable(profiles: Profiles) {
    && (forall id <- profiles :: profiles[id].id == id)
    && (forall a, b :: a in profiles && b in profiles && a != b ==> !Clash(profiles[a], profiles[b]))
  }

  /** What the tables' own constraints keep at any time. */
  predicate Tables(db: Database) {
    ProfileTable(db.profiles) && UniqueRows(db.bundles) && forall c <- db.bundles :: Sound(c)
  }

  /** Exactly the referenced bundles, each bound to its own connection, within bounds. */
  predicate Consistent(db: Database) {
    && Tables(db) && |db.profiles| <= MAX_PROFILES
    && ForeignKeys(db.profiles, db.bundles) && Total(db.bundles) <= MAX_TOTAL
  }

  /** In a consistent database no two connections share an ID, an alias or a credential, and
      each credential has one row, bound to its own connection. */
  lemma ConsistentMeans(db: Database, a: nat, b: nat)
    requires Consistent(db) && a in db.profiles && b in db.profiles && a != b
    ensures db.profiles[a].id == a && db.profiles[a].alias != db.profiles[b].alias
    ensures db.profiles[a].ref.Some? ==>
      && db.profiles[a].ref != db.profiles[b].ref
      && exists i :: 0 <= i < |db.bundles| && db.bundles[i].ref == db.profiles[a].ref.value && db.bundles[i].owner == a
           && forall j :: 0 <= j < |db.bundles| && j != i ==> db.bundles[j].ref != db.profiles[a].ref.value
  {
    assert !Clash(db.profiles[a], db.profiles[b]);
    if db.profiles[a].ref.Some? {
      var c :| c in db.bundles && c.ref == db.profiles[a].ref.value && c.owner == a;
      var i :| 0 <= i < |db.bundles| && db.bundles[i] == c;
      assert forall j :: 0 <= j < |db.bundles| && j != i ==> db.bundles[j].ref != c.ref;
    }
  }

  // ---------------------------------------------------------------------
  // The statements, row by row
  // ---------------------------------------------------------------------

  predicate Distinct(list: seq<Profile>) {
    forall i, j :: 0 <= i < j < |list| ==> !Clash(list[i], list[j])
  }

  /** The table holds exactly the listed profiles, under their own IDs. */
  predicate Tabled(list: seq<Profile>, m: Profiles) {
    && |m| == |list|
    && (forall id <- m :: m[id] in list && m[id].id == id)
    && (forall p <- list :: p.id in m && m[p.id] == p)
  }

  lemma Inserted(front: seq<Profile>, m: Profiles, last: Profile)
    requires Tabled(front, m) && ProfileTable(m) && forall id <- m :: !Clash(m[id], last)
    ensures Tabled(front + [last], m[last.id := last]) && ProfileTable(m[last.id := last])
  {
    hide Clash;
    var staged := m[last.id := last];
    if last.id in m {
      ClashFacts(m[last.id], last);
      assert false;
    }
    assert staged.Keys == m.Keys + {last.id};
    forall a, b | a in staged && b in staged && a != b ensures !Clash(staged[a], staged[b]) {
      ClashFacts(staged[a], staged[b]);
      if a == last.id {
        assert !Clash(m[b], last);
      } else if b == last.id {
        assert !Clash(m[a], last);
      }
    }
  }

  lemma ClashFacts(a: Profile, b: Profile)
    ensures Clash(a, b) == Clash(b, a) && (a.id == b.id ==> Clash(a, b))
  {}

  lemma DistinctLonger(front: seq<Profile>, last: Profile)
    ensures Distinct(front + [last]) <==> Distinct(front) && forall p <- front :: !Clash(p, last)
  {
    var list := front + [last];
    if Distinct(list) {
      forall i, j | 0 <= i < j < |front| ensures !Clash(front[i], front[j]) {
        assert !Clash(list[i], list[j]);
      }
      forall p | p in front ensures !Clash(p, last) {
        var i :| 0 <= i < |front| && front[i] == p;
        assert !Clash(list[i], list[|front|]);
      }
    }
  }

  lemma TabledClash(front: seq<Profile>, m: Profiles, last: Profile)
    requires Tabled(front, m)
    ensures InsertProfile(m, last).Some? <==> forall p <- front :: !Clash(p, last)
    ensures InsertProfile(m, last).Some? ==> forall id <- m :: !Clash(m[id], last)
  {
    hide Clash;
    if InsertProfile(m, last).Some? {
      forall p | p in front ensures !Clash(p, last) {
        assert m[p.id] == p;
      }
    }
  }

  /** The inserts into an empty profile table succeed exactly on distinct profiles. */
  lemma {:induction false} ProfilesStaged(list: seq<Profile>)
    ensures StageProfiles(list).Some? <==> Distinct(list)
    ensures Distinct(list) ==> Tabled(list, StageProfiles(list).value) && ProfileTable(StageProfiles(list).value)
  {
    hide Clash;
    if list != [] {
      var front, last := list[..|list| - 1], list[|list| - 1];
      assert list == front + [last];
      ProfilesStaged(front);
      DistinctLonger(front, last);
      hide Distinct, Tabled, ProfileTable;
      if StageProfiles(front).Some? {
        var m := StageProfiles(front).value;
        TabledClash(front, m, last);
        if InsertProfile(m, last).Some? {
          Inserted(front, m, last);
        }
      }
    }
  }

  predicate Replaces(replacements: seq<Ciphertext>, owner: nat) {
    exists r <- replacements :: r.owner == owner
  }

  lemma ReplacesLonger(front: seq<Ciphertext>, last: Ciphertext, owner: nat)
    ensures Replaces(front + [last], owner) <==> Replaces(front, owner) || owner == last.owner
  {
    if owner == last.owner {
      assert last in front + [last];
    }
    if Replaces(front, owner) {
      var r :| r in front && r.owner == owner;
      assert r in front + [last];
    }
  }

  /** Every row after the replacements is one of them, or a row of an owner that none
      of them replaces. */
  lemma {:induction false} StagedFrom(bundles: seq<Ciphertext>, replacements: seq<Ciphertext>, c: Ciphertext)
    requires StageBundles(bundles, replacements).Some? && c in StageBundles(bundles, replacements).value
    ensures c in replacements || (c in bundles && !Replaces(replacements, c.owner))
  {
    if replacements != [] {
      var front, last := replacements[..|replacements| - 1], replacements[|replacements| - 1];
      assert replacements == front + [last];
      if c != last {
        StagedFrom(bundles, front, c);
        ReplacesLonger(front, last, c.owner);
      }
    }
  }

  /** A row of an owner that is not replaced stays. */
  lemma {:induction false} StagedKeeps(bundles: seq<Ciphertext>, replacements: seq<Ciphertext>, c: Ciphertext)
    requires StageBundles(bundles, replacements).Some? && c in bundles && !Replaces(replacements, c.owner)
    ensures c in StageBundles(bundles, replacements).value
  {
    if replacements != [] {
      var front, last := replacements[..|replacements| - 1], replacements[|replacements| - 1];
      assert replacements == front + [last];
      ReplacesLonger(front, last, c.owner);
      StagedKeeps(bundles, front, c);
    }
  }

  /** The last replacement of an owner is its row. */
  lemma {:induction false} StagedReplaces(bundles: seq<Ciphertext>, replacements: seq<Ciphertext>, k: nat)
    requires StageBundles(bundles, replacements).Some? && k < |replacements|
    requires forall j :: k < j < |replacements| ==> replacements[j].owner != replacements[k].owner
    ensures replacements[k] in StageBundles(bundles, replacements).value
  {
    var front := replacements[..|replacements| - 1];
    if k < |front| {
      StagedReplaces(bundles, front, k);
      assert replacements[|front|].owner != replacements[k].owner;
    }
  }

  lemma {:induction false} FilterUnique(rows: seq<Ciphertext>, keep: Ciphertext -> bool)
    requires UniqueRows(rows)
    ensures UniqueRows(Filter(rows, keep))
  {
    if rows != [] {
      var front, last := rows[..|rows| - 1], rows[|rows| - 1];
      FilterUnique(front, keep);
      var rest := Filter(front, keep);
      forall i | 0 <= i < |rest| ensures rest[i].ref != last.ref && rest[i].owner != last.owner {
        assert rest[i] in front;
        var k :| 0 <= k < |front| && front[k] == rest[i];
        assert rows[k] == rest[i];
      }
    }
  }

  predicate Sound(c: Ciphertext) {
    c.version == 1 && 1 <= c.size <= MAX_CIPHERTEXT
  }

  lemma {:induction false} StagedUnique(bundles: seq<Ciphertext>, replacements: seq<Ciphertext>)
    requires UniqueRows(bundles)
    ensures var staged := StageBundles(bundles, replacements); staged.Some? ==>
      && UniqueRows(staged.value)
      && forall c <- staged.value :: c in bundles || Sound(c)
  {
    if replacements != [] {
      var front, last := replacements[..|replacements| - 1], replacements[|replacements| - 1];
      StagedUnique(bundles, front);
      if StageBundles(bundles, replacements).Some? {
        FilterUnique(StageBundles(bundles, front).value, (c: Ciphertext) => c.owner != last.owner);
      }
    }
  }

  // ---------------------------------------------------------------------
  // Publication
  // ---------------------------------------------------------------------

  /** A committed publication holds exactly the listed profiles and exactly the bundles
      they refer to, one each and bound to its own connection, within the total bound. */
  lemma PublishedConsistent(db: Database, list: seq<Profile>, expected: Revision, replacements: seq<Ciphertext>)
    requires Tables(db) && Publication(db, list, expected, replacements).Ok?
    ensures var r := Publication(db, list, expected, replacements).value;
      && Consistent(r) && Tabled(list, r.profiles)
      && r.generation == db.generation + 1 && r.keyset == db.keyset && RevisionOf(r) != expected
  {
    ProfilesStaged(list);
    StagedUnique(db.bundles, replacements);
    var profiles, staged := StageProfiles(list).value, StageBundles(db.bundles, replacements).value;
    FilterUnique(staged, (c: Ciphertext) => Refers(profiles, c.ref));
  }

  /** No bundle appears from nowhere, and ciphertext that is kept is kept as it was. */
  lemma PublishedCiphertext(
    db: Database, list: seq<Profile>, expected: Revision, replacements: seq<Ciphertext>, c: Ciphertext)
    requires Publication(db, list, expected, replacements).Ok?
    ensures var r := Publication(db, list, expected, replacements).value;
      && (c in r.bundles ==> c in replacements || (c in db.bundles && !Replaces(replacements, c.owner)))
      && (c in db.bundles && !Replaces(replacements, c.owner) && Refers(r.profiles, c.ref) ==> c in r.bundles)
  {
    if c in Publication(db, list, expected, replacements).value.bundles {
      StagedFrom(db.bundles, replacements, c);
    }
    if c in db.bundles && !Replaces(replacements, c.owner) {
      StagedKeeps(db.bundles, replacements, c);
    }
  }

  /** Replacements as encryption makes them: one for each connection, under new
      references, within bounds. */
  predicate New(bundles: seq<Ciphertext>, replacements: seq<Ciphertext>) {
    && UniqueRows(replacements)
    && (forall r <- replacements :: Sound(r))
    && (forall r, c :: r in replacements && c in bundles ==> r.ref != c.ref)
  }

  lemma {:induction false} NewStaged(bundles: seq<Ciphertext>, replacements: seq<Ciphertext>)
    requires New(bundles, replacements)
    ensures StageBundles(bundles, replacements).Some?
  {
    if replacements != [] {
      var front, last := replacements[..|replacements| - 1], replacements[|replacements| - 1];
      assert forall r <- front :: r in replacements;
      NewStaged(bundles, front);
      var rows := DeleteOwned(StageBundles(bundles, front).value, last.owner);
      forall b | b in rows ensures b.ref != last.ref && b.owner != last.owner {
        StagedFrom(bundles, front, b);
        assert last in replacements;
        if b in front {
          var k :| 0 <= k < |front| && front[k] == b;
          assert replacements[k].ref != replacements[|front|].ref;
        }
      }
      assert Sound(last);
    }
  }

  /** The row a profile's reference will name: its replacement, or the kept one. */
  predicate Backed(db: Database, replacements: seq<Ciphertext>, p: Profile) {
    p.ref.Some? ==>
      || (exists c <- replacements :: c.owner == p.id && c.ref == p.ref.value)
      || (!Replaces(replacements, p.id) && exists c <- db.bundles :: c.owner == p.id && c.ref == p.ref.value)
  }

  /** Publication succeeds exactly when the caller saw the current revision, the
      document is valid, every reference has its own connection's bundle, and the
      bundles that remain fit. */
  lemma PublicationAccepts(db: Database, list: seq<Profile>, expected: Revision, replacements: seq<Ciphertext>)
    requires Tables(db) && New(db.bundles, replacements)
    ensures Publication(db, list, expected, replacements).Ok? <==>
      && Decodes(list) && RevisionOf(db) == expected
      && (forall p <- list :: Backed(db, replacements, p))
      && Total(Remaining(db, list, replacements)) <= MAX_TOTAL
  {
    NewStaged(db.bundles, replacements);
    if Decodes(list) {
      ProfilesStaged(list);
      var profiles, staged := StageProfiles(list).value, StageBundles(db.bundles, replacements).value;
      var bundles := DropUnreferenced(profiles, staged);
      forall p | p in list && p.ref.Some?
        ensures Backed(db, replacements, p) <==> exists c <- bundles :: c.ref == p.ref.value && c.owner == p.id
      {
        BackedStaged(db, profiles, replacements, p);
      }
      if forall p <- list :: Backed(db, replacements, p) {
        forall c | c in bundles ensures c.owner in profiles && profiles[c.owner].ref == Some(c.ref) {
          BundleReferred(db, profiles, replacements, c);
        }
        assert ForeignKeys(profiles, bundles);
      } else {
        var p :| p in list && !Backed(db, replacements, p);
        assert profiles[p.id] == p;
        assert !ForeignKeys(profiles, bundles);
      }
    }
  }

  /** Why a publication of new ciphertext is refused: a document of too many profiles or with
      two that share an ID, an alias or a credential, a revision that is not current any more,
      bundles that would be too large together, or, only found at the commit, a reference that
      has no bundle of its own connection. */
  lemma PublicationRefused(db: Database, list: seq<Profile>, expected: Revision, replacements: seq<Ciphertext>)
    requires Tables(db) && New(db.bundles, replacements)
    ensures var r := Publication(db, list, expected, replacements);
      var valid := |list| <= 128 && forall i, j :: 0 <= i < j < |list| ==>
        list[i].id != list[j].id && list[i].alias != list[j].alias && (list[i].ref.Some? ==> list[i].ref != list[j].ref);
      if !valid then r == Err(Invalid)
      else if RevisionOf(db) != expected then r == Err(Stale)
      else if Total(Remaining(db, list, replacements)) > MAX_TOTAL then r == Err(State)
      else if exists p <- list :: !Backed(db, replacements, p) then r == Err(CommitUnknown)
      else r.Ok?
  {
    PublicationAccepts(db, list, expected, replacements);
    NewStaged(db.bundles, replacements);
    ProfilesStaged(list);
    hide Backed, ForeignKeys, StageBundles, StageProfiles, DropUnreferenced, New;
  }

  function Remaining(db: Database, list: seq<Profile>, replacements: seq<Ciphertext>): seq<Ciphertext> {
    if StageBundles(db.bundles, replacements).None? || StageProfiles(list).None? then []
    else DropUnreferenced(StageProfiles(list).value, StageBundles(db.bundles, replacements).value)
  }

  lemma {:induction false} FilterTotal(rows: seq<Ciphertext>, keep: Ciphertext -> bool)
    ensures Total(Filter(rows, keep)) <= Total(rows)
  {
    if rows != [] {
      var front, last := rows[..|rows| - 1], rows[|rows| - 1];
      FilterTotal(front, keep);
      assert (Filter(front, keep) + [last])[..|Filter(front, keep)|] == Filter(front, keep);
    }
  }

  lemma {:induction false} StagedTotal(bundles: seq<Ciphertext>, replacements: seq<Ciphertext>)
    requires StageBundles(bundles, replacements).Some?
    ensures Total(StageBundles(bundles, replacements).value) <= Total(bundles) + Total(replacements)
  {
    if replacements != [] {
      var front, last := replacements[..|replacements| - 1], replacements[|replacements| - 1];
      StagedTotal(bundles, front);
      var rows := StageBundles(bundles, front).value;
      FilterTotal(rows, (c: Ciphertext) => c.owner != last.owner);
      assert (DeleteOwned(rows, last.owner) + [last])[..|DeleteOwned(rows, last.owner)|] == DeleteOwned(rows, last.owner);
    }
  }

  /** What a publication keeps is never larger than what there was and what it adds. */
  lemma RemainingTotal(db: Database, list: seq<Profile>, replacements: seq<Ciphertext>)
    ensures Total(Remaining(db, list, replacements)) <= Total(db.bundles) + Total(replacements)
  {
    if StageBundles(db.bundles, replacements).Some? && StageProfiles(list).Some? {
      var profiles := StageProfiles(list).value;
      StagedTotal(db.bundles, replacements);
      FilterTotal(StageBundles(db.bundles, replacements).value, (c: Ciphertext) => Refers(profiles, c.ref));
    }
  }

  lemma BackedStaged(db: Database, profiles: Profiles, replacements: seq<Ciphertext>, p: Profile)
    requires New(db.bundles, replacements) && StageBundles(db.bundles, replacements).Some?
    requires p.id in profiles && profiles[p.id] == p && p.ref.Some?
    ensures var bundles := DropUnreferenced(profiles, StageBundles(db.bundles, replacements).value);
      Backed(db, replacements, p) <==> exists c <- bundles :: c.ref == p.ref.value && c.owner == p.id
  {
    var staged := StageBundles(db.bundles, replacements).value;
    assert Refers(profiles, p.ref.value);
    if Backed(db, replacements, p) {
      if c :| c in replacements && c.owner == p.id && c.ref == p.ref.value {
        var k :| 0 <= k < |replacements| && replacements[k] == c;
        StagedReplaces(db.bundles, replacements, k);
      } else {
        var c :| c in db.bundles && c.owner == p.id && c.ref == p.ref.value;
        StagedKeeps(db.bundles, replacements, c);
      }
    }
    if c :| c in DropUnreferenced(profiles, staged) && c.ref == p.ref.value && c.owner == p.id {
      StagedFrom(db.bundles, replacements, c);
    }
  }

  lemma BundleReferred(db: Database, profiles: Profiles, replacements: seq<Ciphertext>, c: Ciphertext)
    requires UniqueRows(db.bundles) && New(db.bundles, replacements) && StageBundles(db.bundles, replacements).Some?
    requires ProfileTable(profiles) && forall id <- profiles :: Backed(db, replacements, profiles[id])
    requires c in DropUnreferenced(profiles, StageBundles(db.bundles, replacements).value)
    ensures c.owner in profiles && profiles[c.owner].ref == Some(c.ref)
  {
    var staged := StageBundles(db.bundles, replacements).value;
    var id :| id in profiles && profiles[id].ref == Some(c.ref);
    BackedStaged(db, profiles, replacements, profiles[id]);
    var b :| b in staged && b.ref == c.ref && b.owner == id;
    StagedUnique(db.bundles, replacements);
    var i :| 0 <= i < |staged| && staged[i] == b;
    var j :| 0 <= j < |staged| && staged[j] == c;
    assert i == j;
  }

  // ---------------------------------------------------------------------
  // The keyset row
  // ---------------------------------------------------------------------

  const MAX_RESERVATIONS := 1_000_000

  /** The keyset row with its consistency check; no row at all is fine without bundles. */
  function ReadKeyset(db: Database): Result<Option<Keyset>> {
    var count := |db.bundles|;
    match db.keyset
    case None => if count == 0 then Ok(None) else Err(State)
    case Some(k) =>
      if k.reserved > MAX_RESERVATIONS then Err(State)
      else if count > 128 || Total(db.bundles) > MAX_TOTAL then Err(State)
      else if count > 0 && (k.phase != Ready || k.reserved < count) then Err(State)
      else Ok(Some(k))
  }

  /** The row is accepted exactly when its reservations are within bounds and cover every
      bundle, of which there are none before a key is ready, few and small enough; without a
      row there may be no bundle. */
  lemma KeysetAcceptedExactly(db: Database)
    ensures ReadKeyset(db) == Ok(db.keyset) <==>
      if db.keyset.None? then db.bundles == []
      else
        && |db.bundles| <= db.keyset.value.reserved <= 1_000_000
        && |db.bundles| <= 128 && Total(db.bundles) <= 8 * 1024 * 1024
        && (db.keyset.value.phase == Intent ==> db.bundles == [])
    ensures ReadKeyset(db).Ok? ==> ReadKeyset(db) == Ok(db.keyset)
  {}

  lemma {:induction false} DistinctOwners(profiles: Profiles, bundles: seq<Ciphertext>) returns (owners: set<nat>)
    requires UniqueRows(bundles) && forall c <- bundles :: c.owner in profiles
    ensures |bundles| == |owners| <= |profiles|
    ensures owners <= profiles.Keys && forall o <- owners :: exists c <- bundles :: c.owner == o
  {
    if bundles == [] {
      owners := {};
    } else {
      var front, last := bundles[..|bundles| - 1], bundles[|bundles| - 1];
      var rest := DistinctOwners(profiles, front);
      assert forall k :: 0 <= k < |front| ==> bundles[k].owner != bundles[|front|].owner && front[k] == bundles[k];
      assert last.owner !in rest;
      owners := rest + {last.owner};
      forall o | o in owners ensures exists c <- bundles :: c.owner == o {
        if o == last.owner {
          assert last in bundles;
        } else {
          var c :| c in front && c.owner == o;
          assert c in bundles;
        }
      }
    }
    Cardinality(owners, profiles.Keys);
  }

  lemma {:induction false} Cardinality(a: set<nat>, b: set<nat>)
    requires a <= b
    ensures |a| <= |b|
  {
    assert b == a + (b - a);
  }

  lemma {:induction false} StagedCount(bundles: seq<Ciphertext>, replacements: seq<Ciphertext>)
    requires StageBundles(bundles, replacements).Some?
    ensures |StageBundles(bundles, replacements).value| <= |bundles| + |replacements|
  {
    if replacements != [] {
      StagedCount(bundles, replacements[..|replacements| - 1]);
    }
  }

  /** If every replacement had its own reservation, the check that passed before the
      publication passes after it. */
  lemma KeysetStillRead(db: Database, list: seq<Profile>, expected: Revision, replacements: seq<Ciphertext>)
    requires Tables(db) && Publication(db, list, expected, replacements).Ok?
    requires db.keyset.Some? && ReadKeyset(db).Ok? && |db.bundles| + |replacements| <= db.keyset.value.reserved
    requires db.keyset.value.phase.Ready? || replacements == []
    ensures ReadKeyset(Publication(db, list, expected, replacements).value).Ok?
  {
    var r := Publication(db, list, expected, replacements).value;
    PublishedConsistent(db, list, expected, replacements);
    StagedCount(db.bundles, replacements);
    var owners := DistinctOwners(r.profiles, r.bundles);
  }

  // ---------------------------------------------------------------------
  // Runs: revisions
  // ---------------------------------------------------------------------

  datatype Event =
    | Publish(list: seq<Profile>, expected: Revision, replacements: seq<Ciphertext>)
    | SaveKeyset(keyset: Keyset)

  /** An event takes effect or, refused or failed, does nothing. */
  ghost predicate Step(s: Database, e: Event, t: Database) {
    t == s ||
    match e {
      case Publish(list, expected, replacements) => Publication(s, list, expected, replacements) == Ok(t)
      case SaveKeyset(keyset) => t == s.(keyset := Some(keyset))
    }
  }

  predicate SameData(a: Database, b: Database) {
    a.profiles == b.profiles && a.bundles == b.bundles && a.generation == b.generation
  }

  ghost predicate Since(s: Database, t: Database) {
    t.generation > s.generation || SameData(s, t)
  }

  lemma StepGrows(s: Database, e: Event, t: Database)
    requires Step(s, e, t)
    ensures Since(s, t)
  {
    hide StageBundles, StageProfiles, DropUnreferenced, ForeignKeys, Total, Decodes;
  }

  lemma SinceThen(s: Database, t: Database, u: Database)
    ensures Since(s, s)
    ensures Since(s, t) && Since(t, u) ==> Since(s, u)
  {}

  lemma {:induction false} GenerationsGrow(start: Database, states: seq<Database>, events: seq<Event>, i: nat, j: nat)
    requires Runs.Run(start, Step, states, events) && i <= j < |states|
    ensures Since(states[i], states[j])
  {
    if i < j {
      hide Step, Since;
      GenerationsGrow(start, states, events, i, j - 1);
      assert Step(states[j - 1], events[j - 1], states[j]);
      StepGrows(states[j - 1], events[j - 1], states[j]);
      SinceThen(states[i], states[j - 1], states[j]);
    } else {
      SinceThen(states[i], states[i], states[i]);
    }
  }

  /** A revision seen twice means that profiles and ciphertext never changed between, so
      content that returns to an old value does not bring its revision back. */
  lemma RevisionsNeverReturn(start: Database, states: seq<Database>, events: seq<Event>, i: nat, k: nat, j: nat)
    requires Runs.Run(start, Step, states, events) && i <= k <= j < |states|
    requires RevisionOf(states[i]) == RevisionOf(states[j])
    ensures SameData(states[i], states[k])
  {
    GenerationsGrow(start, states, events, i, k);
    GenerationsGrow(start, states, events, k, j);
  }

  /** Once anything has been published after it was seen, a revision can never win. */
  lemma StaleNeverWins(
    start: Database, states: seq<Database>, events: seq<Event>, i: nat, k: nat, j: nat, list: seq<Profile>, replacements: seq<Ciphertext>)
    requires Runs.Run(start, Step, states, events) && i <= k < j < |states|
    requires !SameData(states[k], states[k + 1])
    ensures !Publication(states[j], list, RevisionOf(states[i]), replacements).Ok?
  {
    hide StageBundles, StageProfiles, DropUnreferenced, ForeignKeys, Total, Decodes, Step;
    GenerationsGrow(start, states, events, i, k);
    GenerationsGrow(start, states, events, k, k + 1);
    GenerationsGrow(start, states, events, k + 1, j);
  }

  lemma ConsistentAlways(start: Database, states: seq<Database>, events: seq<Event>, i: nat)
    requires Consistent(start) && Runs.Run(start, Step, states, events) && i < |states|
    ensures Consistent(states[i])
  {
    forall s, e, t | Consistent(s) && Step(s, e, t) ensures Consistent(t) {
      if e.Publish? && t != s {
        PublishedConsistent(s, e.list, e.expected, e.replacements);
      }
    }
    Runs.Invariant(start, Step, Consistent, states, events, i);
  }

  // ---------------------------------------------------------------------
  // The store
  // ---------------------------------------------------------------------

  lemma {:induction false} RefusedBundle(bundles: seq<Ciphertext>, replacements: seq<Ciphertext>, k: nat)
    requires k <= |replacements| && StageBundles(bundles, replacements[..k]).None?
    ensures StageBundles(bundles, replacements).None?
    decreases |replacements| - k
  {
    if k == |replacements| {
      assert replacements[..k] == replacements;
    } else {
      assert replacements[..k + 1][..k] == replacements[..k];
      RefusedBundle(bundles, replacements, k + 1);
    }
  }

  lemma {:induction false} RefusedProfile(list: seq<Profile>, k: nat)
    requires k <= |list| && StageProfiles(list[..k]).None?
    ensures StageProfiles(list).None?
    decreases |list| - k
  {
    if k == |list| {
      assert list[..k] == list;
    } else {
      assert list[..k + 1][..k] == list[..k];
      RefusedProfile(list, k + 1);
    }
  }

  /** How a transaction that reached its end goes on. */
  datatype Ending = Clean | FailsBefore | CommitFails(applied: bool) | FailsAfter

  class ProfileStore {
    var db: Database

    constructor (db: Database)
      ensures this.db == db
    {
      this.db := db;
    }

    /** `statements` is how many statements succeed before the database itself fails. */
    method Publish(
      list: seq<Profile>, expected: Revision, replacements: seq<Ciphertext>, statements: nat, ending: Ending)
      returns (r: Result<Revision>)
      modifies this
      ensures db == old(db) || Publication(old(db), list, expected, replacements) == Ok(db)
      ensures r.Ok? ==> Publication(old(db), list, expected, replacements) == Ok(db) && r.value == RevisionOf(db)
      ensures r.Err? && r.error != CommitUnknown ==> db == old(db)
      ensures statements >= 2 * |replacements| + |list| + 4 && ending.Clean? ==>
        match Publication(old(db), list, expected, replacements) {
          case Ok(_) => r.Ok?
          case Err(e) => r == Err(e)
        }
    {
      if !Decodes(list) {
        return Err(Invalid);
      }
      if RevisionOf(db) != expected {
        return Err(Stale);
      }
      var left := statements;
      if left == 0 {
        return Err(State);
      }
      left := left - 1;
      var profiles: Profiles, bundles := map[], db.bundles;
      for i := 0 to |replacements|
        invariant StageBundles(db.bundles, replacements[..i]) == Some(bundles)
        invariant db == old(db) && left >= statements - 1 - 2 * i
      {
        if left < 2 {
          return Err(State);
        }
        left := left - 2;
        assert replacements[..i + 1][..i] == replacements[..i];
        var inserted := InsertBundle(DeleteOwned(bundles, replacements[i].owner), replacements[i]);
        if inserted.None? {
          RefusedBundle(db.bundles, replacements, i + 1);
          return Err(State);
        }
        bundles := inserted.value;
      }
      assert replacements[..|replacements|] == replacements;
      for i := 0 to |list|
        invariant StageProfiles(list[..i]) == Some(profiles)
        invariant db == old(db) && left >= statements - 1 - 2 * |replacements| - i
      {
        if left < 1 {
          return Err(State);
        }
        left := left - 1;
        assert list[..i + 1][..i] == list[..i];
        var inserted := InsertProfile(profiles, list[i]);
        if inserted.None? {
          RefusedProfile(list, i + 1);
          return Err(State);
        }
        profiles := inserted.value;
      }
      assert list[..|list|] == list;
      if left < 3 {
        return Err(State);
      }
      bundles := DropUnreferenced(profiles, bundles);
      if Total(bundles) > MAX_TOTAL || ending.FailsBefore? {
        return Err(State);
      }
      if !ForeignKeys(profiles, bundles) {
        return Err(CommitUnknown);
      }
      if !ending.CommitFails? || ending.applied {
        db := Database(db.generation + 1, profiles, bundles, db.keyset);
      }
      if !ending.Clean? {
        return Err(CommitUnknown);
      }
      r := Ok(RevisionOf(db));
    }
  }
}
