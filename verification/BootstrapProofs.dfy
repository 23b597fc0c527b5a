/** What bootstrapping promises of the metastore it fills. */
module BootstrapProofs {
  import opened Common
  import opened AsciiCase
  import opened Metastore
  import opened MetastoreIntegrity
  import opened Bootstrap

  predicate SubMap<K, V(==)>(a: map<K, V>, b: map<K, V>) {
    forall k :: k in a ==> k in b && a[k] == b[k]
  }

  /** Every entry of s is still there, with its value. */
  predicate Extends(s: State, s': State) {
    && SubMap(s.volumes, s'.volumes) && SubMap(s.databases, s'.databases)
    && SubMap(s.schemas, s'.schemas) && SubMap(s.tables, s'.tables)
  }

  /** Integrity up to the databases of schemas under the given keys; with no keys, integrity. */
  predicate NearlyIntegral(s: State, keys: set<Name>) {
    VolumesExist(s) && SchemasExist(s) && forall k :: k in s.schemas ==> k.0 in s.databases || k.0 in keys
  }

  // ------------------------------------------------------------------------ one entry at a time

  /** s' has everything s has, and is as integral. */
  predicate Grows(s: State, s': State, keys: set<Name>) {
    Extends(s, s') && (NearlyIntegral(s, keys) ==> NearlyIntegral(s', keys))
  }

  predicate Harmless(name: Name, keys: set<Name>) { IsLower(name) || Lower(name) in keys }

  lemma GrowsOn(s: State, mid: State, s': State, keys: set<Name>)
    requires Grows(s, mid, keys) && Grows(mid, s', keys)
    ensures Grows(s, s', keys)
  {
    assert Extends(s, s');
  }

  lemma SchemaGrows(s: State, database: Name, schema: Name, keys: set<Name>)
    requires Harmless(database, keys)
    ensures Grows(s, EnsureSchemaOf(s, database, schema).state, keys)
  {
  }

  lemma DatabaseGrows(s: State, ident: Name, volume: Name, keys: set<Name>)
    requires Harmless(ident, keys)
    ensures Grows(s, EnsureDatabaseOf(s, ident, volume).state, keys)
  {
    var mid := if ident in s.databases then s else CreateDatabaseOf(s, ident, Database(ident, volume)).state;
    assert Grows(s, mid, keys);
    SchemaGrows(mid, ident, PUBLIC, keys);
    GrowsOn(s, mid, EnsureSchemaOf(mid, ident, PUBLIC).state, keys);
  }

  lemma VolumeGrows(s: State, e: VolumeEntry, keys: set<Name>)
    requires e.database.Some? ==> Harmless(e.database.value, keys)
    ensures Grows(s, ApplyVolumeOf(s, e).state, keys)
  {
    var mid := if e.volume.ident in s.volumes then s else CreateVolumeOf(s, e.volume.ident, e.volume).state;
    assert Grows(s, mid, keys);
    if e.database.Some? {
      DatabaseGrows(mid, e.database.value, e.volume.ident, keys);
      GrowsOn(s, mid, EnsureDatabaseOf(mid, e.database.value, e.volume.ident).state, keys);
    }
  }

  lemma TableGrows(s: State, e: TableEntry, world: World, keys: set<Name>)
    requires Harmless(e.database, keys)
    ensures Grows(s, ApplyTableOf(s, e, world).state, keys)
  {
    var mid := EnsureSchemaOf(s, e.database, e.schema).state;
    SchemaGrows(s, e.database, e.schema, keys);
    var s' := ApplyTableOf(s, e, world).state;
    if s' != mid && s' != s {
      RegisterGrows(mid, e, s'.tables[KeyOfTable(IdentOf(e))], keys);
      GrowsOn(s, mid, s', keys);
    }
  }

  lemma RegisterGrows(s: State, e: TableEntry, table: Table, keys: set<Name>)
    requires HasSchema(s, e.database, e.schema) && KeyOfTable(IdentOf(e)) !in s.tables
    ensures Grows(s, RegisterTableOf(s, IdentOf(e), table).state, keys)
  {
  }

  lemma EntryGrows(s: State, e: Entry, world: World, keys: set<Name>)
    requires Mentions(e).Some? ==> Harmless(Mentions(e).value, keys)
    ensures Grows(s, ApplyEntry(s, e, world).state, keys)
  {
    match e
    case OfVolume(v) => VolumeGrows(s, v, keys);
    case OfDatabase(d) => DatabaseGrows(s, d.ident, d.volume, keys);
    case OfSchema(c) => SchemaGrows(s, c.database, c.schema, keys);
    case OfTable(t) => TableGrows(s, t, world, keys);
  }

  lemma {:induction false} EntriesGrow(s: State, es: seq<Entry>, world: World, keys: set<Name>)
    requires forall i :: 0 <= i < |es| && Mentions(es[i]).Some? ==> Harmless(Mentions(es[i]).value, keys)
    ensures Grows(s, ApplyEntries(s, es, world).state, keys)
  {
    if es != [] {
      var init := es[..|es| - 1];
      assert forall i :: 0 <= i < |init| ==> init[i] == es[i];
      EntriesGrow(s, init, world, keys);
      var mid := ApplyEntries(s, init, world).state;
      EntryGrows(mid, es[|es| - 1], world, keys);
      GrowsOn(s, mid, ApplyEntry(mid, es[|es| - 1], world).state, keys);
    }
  }

  function Keys(es: seq<Entry>): set<Name> {
    set i | 0 <= i < |es| && Mentions(es[i]).Some? :: Lower(Mentions(es[i]).value)
  }

  /** Applying a configuration only adds to the four maps, also when an error stops it. */
  lemma OnlyAdds(s: State, es: seq<Entry>, world: World)
    ensures Extends(s, ApplyEntries(s, es, world).state)
  {
    EntriesGrow(s, es, world, Keys(es));
  }

  lemma EntryOnlyAdds(s: State, e: Entry, world: World)
    ensures Extends(s, ApplyEntry(s, e, world).state)
  {
    EntryGrows(s, e, world, if Mentions(e).Some? then {Lower(Mentions(e).value)} else {});
  }

  // ----------------------------------------------------------------------------- idempotent

  predicate HasSchema(s: State, database: Name, schema: Name) {
    KeyOfSchema(SchemaIdent(database, schema)) in s.schemas
  }

  /** Everything the entry asks for is there. */
  predicate Settled(s: State, e: Entry) {
    match e
    case OfVolume(v) =>
      v.volume.ident in s.volumes
      && (v.database.Some? ==> v.database.value in s.databases && HasSchema(s, v.database.value, PUBLIC))
    case OfDatabase(d) => d.ident in s.databases && HasSchema(s, d.ident, PUBLIC)
    case OfSchema(c) => HasSchema(s, c.database, c.schema)
    case OfTable(t) => KeyOfTable(IdentOf(t)) in s.tables
  }

  lemma DatabaseSettles(s: State, ident: Name, volume: Name)
    requires EnsureDatabaseOf(s, ident, volume).error == None
    ensures
      var s' := EnsureDatabaseOf(s, ident, volume).state;
      ident in s'.databases && HasSchema(s', ident, PUBLIC) && s'.volumes == s.volumes
  {
  }

  lemma SuccessSettles(s: State, e: Entry, world: World)
    requires ApplyEntry(s, e, world).error == None
    ensures Settled(ApplyEntry(s, e, world).state, e)
  {
    match e
    case OfVolume(v) =>
      var mid := if v.volume.ident in s.volumes then s else CreateVolumeOf(s, v.volume.ident, v.volume).state;
      if v.database.Some? {
        DatabaseSettles(mid, v.database.value, v.volume.ident);
      }
    case OfDatabase(d) => DatabaseSettles(s, d.ident, d.volume);
    case OfSchema(_) =>
    case OfTable(_) =>
  }

  lemma SettledIsLeftAlone(s: State, e: Entry, world: World)
    requires Settled(s, e)
    ensures ApplyEntry(s, e, world) == Report(s, None)
  {
  }

  lemma {:induction false} AllSettled(s: State, es: seq<Entry>, world: World)
    requires ApplyEntries(s, es, world).error == None
    ensures forall i :: 0 <= i < |es| ==> Settled(ApplyEntries(s, es, world).state, es[i])
  {
    if es != [] {
      var init, last := es[..|es| - 1], es[|es| - 1];
      AllSettled(s, init, world);
      var before, after := ApplyEntries(s, init, world).state, ApplyEntries(s, es, world).state;
      EntryOnlyAdds(before, last, world);
      SuccessSettles(before, last, world);
      forall i | 0 <= i < |es|
        ensures Settled(after, es[i])
      {
        if i < |es| - 1 {
          assert Settled(before, init[i]);
          SettledGrows(before, after, es[i]);
        }
      }
    }
  }

  lemma SettledGrows(s: State, s': State, e: Entry)
    requires Settled(s, e) && Extends(s, s')
    ensures Settled(s', e)
  {
  }

  lemma {:induction false} SettledListIsLeftAlone(s: State, es: seq<Entry>, world: World)
    requires forall i :: 0 <= i < |es| ==> Settled(s, es[i])
    ensures ApplyEntries(s, es, world) == Report(s, None)
  {
    if es != [] {
      var init := es[..|es| - 1];
      assert forall i :: 0 <= i < |init| ==> init[i] == es[i];
      SettledListIsLeftAlone(s, init, world);
      SettledIsLeftAlone(s, es[|es| - 1], world);
    }
  }

  /** After a successful apply a second one succeeds and changes nothing, whatever the files then hold. */
  lemma SecondApplyChangesNothing(s: State, c: Config, world: World, later: World)
    requires ApplyEntries(s, Entries(c), world).error == None
    ensures
      var s' := ApplyEntries(s, Entries(c), world).state;
      ApplyEntries(s', Entries(c), later) == Report(s', None)
  {
    AllSettled(s, Entries(c), world);
    SettledListIsLeftAlone(ApplyEntries(s, Entries(c), world).state, Entries(c), later);
  }

  // ------------------------------------------------------------------- referential integrity

  /** The database name an entry mentions. */
  function Mentions(e: Entry): Option<Name> {
    match e
    case OfVolume(v) => v.database
    case OfDatabase(d) => Some(d.ident)
    case OfSchema(c) => Some(c.database)
    case OfTable(t) => Some(t.database)
  }

  /** The database an entry creates if it is missing. */
  function Creates(e: Entry): Option<Name> {
    if e.OfVolume? || e.OfDatabase? then Mentions(e) else None
  }

  predicate CreatedBy(es: seq<Entry>, name: Name) {
    exists i :: 0 <= i < |es| && Creates(es[i]) == Some(name)
  }

  lemma EntryDatabases(s: State, e: Entry, world: World)
    ensures forall d :: d in ApplyEntry(s, e, world).state.databases ==> d in s.databases || Creates(e) == Some(d)
  {
  }

  /** The databases afterwards are the old ones and those the configuration creates. */
  lemma {:induction false} DatabasesAfter(s: State, es: seq<Entry>, world: World, d: Name)
    ensures d in ApplyEntries(s, es, world).state.databases ==> d in s.databases || CreatedBy(es, d)
  {
    if es != [] {
      var init := es[..|es| - 1];
      DatabasesAfter(s, init, world, d);
      EntryDatabases(ApplyEntries(s, init, world).state, es[|es| - 1], world);
      if CreatedBy(init, d) {
        var i :| 0 <= i < |init| && Creates(init[i]) == Some(d);
        assert Creates(es[i]) == Some(d);
      }
      assert Creates(es[|es| - 1]) == Some(d) ==> CreatedBy(es, d);
    }
  }

  /** A database of the metastore, or one that the entries create. */
  predicate Known(s: State, es: seq<Entry>, name: Name) { name in s.databases || CreatedBy(es, name) }

  /** The lowercase form of every mentioned database is known. */
  predicate NamesResolve(s: State, es: seq<Entry>) {
    forall i :: 0 <= i < |es| && Mentions(es[i]).Some? ==> Known(s, es, Lower(Mentions(es[i]).value))
  }

  lemma KnownIff(s: State, es: seq<Entry>, world: World, d: Name)
    requires ApplyEntries(s, es, world).error == None
    ensures d in ApplyEntries(s, es, world).state.databases <==> Known(s, es, d)
  {
    DatabasesAfter(s, es, world, d);
    OnlyAdds(s, es, world);
    AllSettled(s, es, world);
    if CreatedBy(es, d) {
      var j :| 0 <= j < |es| && Creates(es[j]) == Some(d);
      assert Settled(ApplyEntries(s, es, world).state, es[j]);
    }
  }

  /** Entries that were all applied leave integrity exactly when all names resolve, and tables always in schemas. */
  lemma AppliedIntegralIff(s: State, es: seq<Entry>, world: World)
    requires Integral(s) && ApplyEntries(s, es, world).error == None
    ensures Integral(ApplyEntries(s, es, world).state) <==> NamesResolve(s, es)
    ensures VolumesExist(ApplyEntries(s, es, world).state) && SchemasExist(ApplyEntries(s, es, world).state)
  {
    var s' := ApplyEntries(s, es, world).state;
    AllSettled(s, es, world);
    EntriesGrow(s, es, world, Keys(es));
    assert NearlyIntegral(s, Keys(es));
    if NamesResolve(s, es) {
      forall k | k in s'.schemas
        ensures k.0 in s'.databases
      {
        if k.0 in Keys(es) {
          var i :| 0 <= i < |es| && Mentions(es[i]).Some? && Lower(Mentions(es[i]).value) == k.0;
          KnownIff(s, es, world, k.0);
        }
      }
    }
    if Integral(s') {
      forall i | 0 <= i < |es| && Mentions(es[i]).Some?
        ensures Known(s, es, Lower(Mentions(es[i]).value))
      {
        SettledHasDatabase(s', es[i]);
        KnownIff(s, es, world, Lower(Mentions(es[i]).value));
      }
    }
  }

  lemma SettledHasDatabase(s: State, e: Entry)
    requires Integral(s) && Settled(s, e) && Mentions(e).Some?
    ensures Lower(Mentions(e).value) in s.databases
  {
    if e.OfTable? {
      var key := KeyOfTable(IdentOf(e.table));
      assert (key.0, key.1) in s.schemas;
    }
  }

  // ------------------------------------------------------------------- where an error stops the work

  /** A table's file cannot be had: its volume is gone, has no object store, or the file cannot be read. */
  predicate MetadataMissing(s: State, t: TableEntry, world: World)
    requires t.database in s.databases
  {
    var volume := s.databases[t.database].volume;
    volume !in s.volumes || s.volumes[volume].store.None? || world(t.metadataLocation).None?
  }

  /** The guards under which an entry fails. */
  predicate Fails(s: State, e: Entry, world: World) {
    match e
    case OfVolume(v) => v.volume.ident !in s.volumes && v.volume.store.None?
    case OfDatabase(d) => d.ident !in s.databases && d.volume !in s.volumes
    case OfSchema(c) => !HasSchema(s, c.database, c.schema) && c.database !in s.databases
    case OfTable(t) =>
      KeyOfTable(IdentOf(t)) !in s.tables && (t.database !in s.databases || MetadataMissing(s, t, world))
  }

  lemma EnsureDatabaseFailsIff(s: State, ident: Name, volume: Name)
    ensures EnsureDatabaseOf(s, ident, volume).error.Some? <==> ident !in s.databases && volume !in s.volumes
    ensures EnsureDatabaseOf(s, ident, volume).error.Some? ==> EnsureDatabaseOf(s, ident, volume).state == s
  {
  }

  /** What a failing entry leaves: a table entry whose database exists has made its schema, any other nothing. */
  function Leaves(s: State, e: Entry): State {
    if e.OfTable? && e.table.database in s.databases then EnsureSchemaOf(s, e.table.database, e.table.schema).state
    else s
  }

  lemma FailsIff(s: State, e: Entry, world: World)
    ensures ApplyEntry(s, e, world).error.Some? <==> Fails(s, e, world)
    ensures Fails(s, e, world) ==> ApplyEntry(s, e, world).state == Leaves(s, e)
  {
    match e
    case OfVolume(v) =>
      var mid := if v.volume.ident in s.volumes then s else CreateVolumeOf(s, v.volume.ident, v.volume).state;
      if v.database.Some? {
        EnsureDatabaseFailsIff(mid, v.database.value, v.volume.ident);
      }
    case OfDatabase(d) => EnsureDatabaseFailsIff(s, d.ident, d.volume);
    case OfSchema(_) =>
    case OfTable(t) => TableFailsIff(s, t, world);
  }

  lemma TableFailsIff(s: State, t: TableEntry, world: World)
    ensures ApplyTableOf(s, t, world).error.Some? <==> Fails(s, OfTable(t), world)
    ensures Fails(s, OfTable(t), world) ==> ApplyTableOf(s, t, world).state == Leaves(s, OfTable(t))
  {
    if t.database in s.databases {
      var r := EnsureSchemaOf(s, t.database, t.schema);
      assert r.error == None && r.state.volumes == s.volumes;
    }
  }

  /** How many entries are applied before one fails, or all. */
  function Applied(s: State, es: seq<Entry>, world: World): (n: nat)
    ensures n <= |es|
  {
    if es == [] then 0
    else
      var last := |es| - 1;
      var n := Applied(s, es[..last], world);
      if n < last || Fails(ApplyEntries(s, es[..last], world).state, es[last], world) then n else last + 1
  }

  /** The first n entries are applied without error, and the next one, if there is one, fails. */
  predicate StopsAt(s: State, es: seq<Entry>, world: World, n: nat)
    requires n <= |es|
  {
    var mid := ApplyEntries(s, es[..n], world);
    mid.error == None && (n < |es| ==> Fails(mid.state, es[n], world))
  }

  lemma NextEntry(s: State, es: seq<Entry>, world: World, n: nat)
    requires n < |es| && ApplyEntries(s, es[..n], world).error == None
    ensures ApplyEntries(s, es[..n + 1], world) == ApplyEntry(ApplyEntries(s, es[..n], world).state, es[n], world)
  {
    assert es[..n + 1][..n] == es[..n];
  }

  /** One more entry: the count stays where the work has stopped, and moves on past an entry that does not fail. */
  lemma StopsLater(s: State, es: seq<Entry>, world: World, n: nat)
    requires es != [] && n < |es| && StopsAt(s, es[..|es| - 1], world, n)
    ensures n < |es| - 1 ==> StopsAt(s, es, world, n)
    ensures n == |es| - 1 && Fails(ApplyEntries(s, es[..n], world).state, es[n], world) ==> StopsAt(s, es, world, n)
    ensures n == |es| - 1 && !Fails(ApplyEntries(s, es[..n], world).state, es[n], world) ==> StopsAt(s, es, world, |es|)
  {
    assert es[..|es| - 1][..n] == es[..n];
    if n == |es| - 1 {
      NextEntry(s, es, world, n);
      FailsIff(ApplyEntries(s, es[..n], world).state, es[n], world);
    }
  }

  lemma {:induction false} AppliedStops(s: State, es: seq<Entry>, world: World)
    ensures StopsAt(s, es, world, Applied(s, es, world))
  {
    if es == [] {
      assert es[..0] == [];
    } else {
      AppliedStops(s, es[..|es| - 1], world);
      StopsLater(s, es, world, Applied(s, es[..|es| - 1], world));
    }
  }

  lemma StoppedRun(s: State, es: seq<Entry>, world: World, n: nat)
    requires n < |es| && StopsAt(s, es, world, n)
    ensures ApplyEntries(s, es, world) == ApplyEntry(ApplyEntries(s, es[..n], world).state, es[n], world)
    ensures ApplyEntries(s, es, world).error.Some?
  {
    NextEntry(s, es, world, n);
    FailsIff(ApplyEntries(s, es[..n], world).state, es[n], world);
    ErrorStays(s, es, n + 1, world);
  }

  /** The run in terms of that count: a prefix applied without error and what the failing entry leaves. */
  lemma RunStops(s: State, es: seq<Entry>, world: World)
    ensures
      var n := Applied(s, es, world);
      var mid := ApplyEntries(s, es[..n], world);
      && mid.error == None && (n == |es| <==> ApplyEntries(s, es, world).error == None)
      && ApplyEntries(s, es, world).state == if n < |es| then Leaves(mid.state, es[n]) else mid.state
  {
    var n := Applied(s, es, world);
    AppliedStops(s, es, world);
    if n < |es| {
      StoppedRun(s, es, world, n);
      FailsIff(ApplyEntries(s, es[..n], world).state, es[n], world);
    } else {
      assert es[..n] == es;
    }
  }

  /** A made schema keeps integrity exactly when its database exists in lowercase too. */
  lemma MadeSchemaIntegralIff(s: State, database: Name, schema: Name)
    requires VolumesExist(s) && SchemasExist(s) && database in s.databases
    ensures Integral(EnsureSchemaOf(s, database, schema).state) <==> Integral(s) && Lower(database) in s.databases
  {
    var s' := EnsureSchemaOf(s, database, schema).state;
    assert HasSchema(s', database, schema) && s'.databases == s.databases;
    assert forall k :: k in s.schemas ==> k in s'.schemas;
  }

  /** The entry that stops the work, if it is a table of a known database, mentions a name that resolves. */
  predicate StopResolves(s: State, es: seq<Entry>, n: nat)
    requires n <= |es|
  {
    n < |es| && es[n].OfTable? && Known(s, es[..n], es[n].table.database)
    ==> Known(s, es[..n], Lower(es[n].table.database))
  }

  /**
   * For every run from an integral metastore, stopped by an error or not, integrity holds afterwards exactly
   * when the names of the entries applied resolve among them, and so does that of a table that stopped it.
   */
  lemma ApplyIntegralIff(s: State, es: seq<Entry>, world: World)
    requires Integral(s)
    ensures
      var n := Applied(s, es, world);
      Integral(ApplyEntries(s, es, world).state) <==> NamesResolve(s, es[..n]) && StopResolves(s, es, n)
  {
    var n := Applied(s, es, world);
    var mid := ApplyEntries(s, es[..n], world).state;
    RunStops(s, es, world);
    AppliedIntegralIff(s, es[..n], world);
    if n < |es| && es[n].OfTable? {
      var t := es[n].table;
      KnownIff(s, es[..n], world, t.database);
      KnownIff(s, es[..n], world, Lower(t.database));
      if t.database in mid.databases {
        MadeSchemaIntegralIff(mid, t.database, t.schema);
      }
    }
  }

  /** After a successful apply, integrity holds exactly when all names resolve. */
  lemma SuccessIntegralIff(s: State, es: seq<Entry>, world: World)
    requires Integral(s) && ApplyEntries(s, es, world).error == None
    ensures Integral(ApplyEntries(s, es, world).state) <==> NamesResolve(s, es)
  {
    RunStops(s, es, world);
    ApplyIntegralIff(s, es, world);
    assert es[..|es|] == es;
  }

  const STOPPED := Config([VolumeEntry(Volume("v", Some(0)), Some("Db"))], [DatabaseEntry("db", "w")], [], [])

  /** All names resolve in the whole configuration, yet the run stops before the entry that would create one. */
  lemma StoppedRunBreaksIntegrity(world: World)
    ensures NamesResolve(EMPTY, Entries(STOPPED))
    ensures
      var r := ApplyEntries(EMPTY, Entries(STOPPED), world);
      r.error.Some? && !Integral(r.state)
  {
    var e, f := OfVolume(STOPPED.volumes[0]), OfDatabase(STOPPED.databases[0]);
    var es := [e, f];
    assert Entries(STOPPED) == es;
    assert Lower("Db") == "db" && Lower("db") == "db" && Lower(PUBLIC) == "public";
    assert Creates(es[1]) == Some("db");
    assert CreatedBy(es, "db");
    assert es[..1] == [e] && [e][..0] == [];
    assert ApplyEntries(EMPTY, [e], world) == ApplyEntry(EMPTY, e, world);
    var mid := ApplyEntry(EMPTY, e, world).state;
    assert ("db", "public") in mid.schemas && "db" !in mid.databases && mid.volumes.Keys == {"v"};
    assert "w" !in mid.volumes;
    FailsIff(mid, f, world);
    assert ApplyEntries(EMPTY, es, world) == ApplyEntry(mid, f, world);
  }

  /** Lowercase database names keep integrity at every point, also where an error stops the work. */
  lemma LowercaseNamesKeepIntegrity(s: State, es: seq<Entry>, world: World)
    requires Integral(s)
    requires forall i :: 0 <= i < |es| && Mentions(es[i]).Some? ==> IsLower(Mentions(es[i]).value)
    ensures Integral(ApplyEntries(s, es, world).state)
  {
    EntriesGrow(s, es, world, {});
    assert NearlyIntegral(s, {});
  }

  /** A volume entry naming a database in mixed case bootstraps a schema whose database is missing. */
  lemma MixedCaseNameBreaksIntegrity(world: World)
    ensures
      var c := Config([VolumeEntry(Volume("v", Some(0)), Some("Db"))], [], [], []);
      var r := ApplyEntries(EMPTY, Entries(c), world);
      r.error == None && !Integral(r.state)
  {
    var e := OfVolume(VolumeEntry(Volume("v", Some(0)), Some("Db")));
    var c := Config([e.volume], [], [], []);
    assert Entries(c) == [e] && [e][..0] == [];
    assert Lower("Db") == "db" && Lower(PUBLIC) == "public";
    assert ApplyEntries(EMPTY, [e], world) == ApplyEntry(EMPTY, e, world);
    var s' := ApplyEntry(EMPTY, e, world).state;
    assert ("db", "public") in s'.schemas && "db" !in s'.databases;
  }
}
