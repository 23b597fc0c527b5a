/**
 * What bootstrapping puts into the metastore: every row it adds is the one an entry of the
 * configuration describes, every error has its cause, and a complete configuration succeeds.
 */
module BootstrapContents {
  import opened Common
  import opened AsciiCase
  import opened Metastore
  import opened MetastoreIntegrity
  import opened MetastoreLaws
  import opened Bootstrap
  import opened BootstrapProofs

  // ------------------------------------------------------------------- what an entry describes

  predicate SchemaRowFor(database: Name, schema: Name, slot: Slot, row: Answer) {
    && slot == SchemaAt((Lower(database), Lower(schema)))
    && row == SchemaRow(Schema(SchemaIdent(database, schema)))
  }

  /** A database comes with a schema named "public". */
  predicate DatabaseRowFor(ident: Name, volume: Name, slot: Slot, row: Answer) {
    || (slot == DatabaseAt(ident) && row == DatabaseRow(Database(ident, volume)))
    || SchemaRowFor(ident, "public", slot, row)
  }

  /** The table as its file and its database say: metadata from the file, volume from the database. */
  predicate TableRowFor(t: TableEntry, s: State, world: World, slot: Slot, row: Answer) {
    && slot == TableAt((Lower(t.database), Lower(t.schema), Lower(t.table)))
    && row.TableRow? && row.table.ident == TableIdent(t.database, t.schema, t.table)
    && Some(row.table.metadata) == world(t.metadataLocation)
    && t.database in s.databases && s.databases[t.database].volume in s.volumes
    && row.table.volumeIdent == Some(s.volumes[s.databases[t.database].volume].ident)
  }

  predicate Describes(e: Entry, s: State, world: World, slot: Slot, row: Answer) {
    match e
    case OfVolume(v) =>
      || (slot == VolumeAt(v.volume.ident) && row == VolumeRow(v.volume))
      || (v.database.Some? && DatabaseRowFor(v.database.value, v.volume.ident, slot, row))
    case OfDatabase(d) => DatabaseRowFor(d.ident, d.volume, slot, row)
    case OfSchema(c) => SchemaRowFor(c.database, c.schema, slot, row)
    case OfTable(t) => TableRowFor(t, s, world, slot, row) || SchemaRowFor(t.database, t.schema, slot, row)
  }

  predicate DatabaseClaims(ident: Name, slot: Slot) {
    slot == DatabaseAt(ident) || slot == SchemaAt((Lower(ident), Lower("public")))
  }

  /** The slots an entry sees to. */
  predicate Claims(e: Entry, slot: Slot) {
    match e
    case OfVolume(v) =>
      slot == VolumeAt(v.volume.ident) || (v.database.Some? && DatabaseClaims(v.database.value, slot))
    case OfDatabase(d) => DatabaseClaims(d.ident, slot)
    case OfSchema(c) => slot == SchemaAt((Lower(c.database), Lower(c.schema)))
    case OfTable(t) => slot == TableAt((Lower(t.database), Lower(t.schema), Lower(t.table)))
  }

  /** The slot was empty and is now filled. */
  predicate Gained(s: State, s': State, slot: Slot) {
    Read(s, slot).None? && Read(s', slot).Some?
  }

  // ------------------------------------------------------------------------ one entry at a time

  lemma SchemaAdds(s: State, database: Name, schema: Name, slot: Slot)
    ensures var s' := EnsureSchemaOf(s, database, schema).state;
            Gained(s, s', slot) ==> SchemaRowFor(database, schema, slot, Read(s', slot).value)
  {
  }

  lemma DatabaseAdds(s: State, ident: Name, volume: Name, slot: Slot)
    ensures var s' := EnsureDatabaseOf(s, ident, volume).state;
            Gained(s, s', slot) ==> DatabaseRowFor(ident, volume, slot, Read(s', slot).value)
  {
    var mid := if ident in s.databases then s else CreateDatabaseOf(s, ident, Database(ident, volume)).state;
    SchemaAdds(mid, ident, PUBLIC, slot);
  }

  lemma VolumeAdds(s: State, e: VolumeEntry, world: World, slot: Slot)
    ensures var s' := ApplyVolumeOf(s, e).state;
            Gained(s, s', slot) ==> Describes(OfVolume(e), s', world, slot, Read(s', slot).value)
  {
    var mid := if e.volume.ident in s.volumes then s else CreateVolumeOf(s, e.volume.ident, e.volume).state;
    if e.database.Some? {
      DatabaseAdds(mid, e.database.value, e.volume.ident, slot);
      EntryOnlyAdds(mid, OfDatabase(DatabaseEntry(e.database.value, e.volume.ident)), world);
    }
  }

  lemma TableAdds(s: State, e: TableEntry, world: World, slot: Slot)
    ensures var s' := ApplyTableOf(s, e, world).state;
            Gained(s, s', slot) ==> Describes(OfTable(e), s', world, slot, Read(s', slot).value)
  {
    SchemaAdds(s, e.database, e.schema, slot);
  }

  lemma EntryAdds(s: State, e: Entry, world: World, slot: Slot)
    ensures var s' := ApplyEntry(s, e, world).state;
            Gained(s, s', slot) ==> Describes(e, s', world, slot, Read(s', slot).value)
  {
    match e
    case OfVolume(v) => VolumeAdds(s, v, world, slot);
    case OfDatabase(d) => DatabaseAdds(s, d.ident, d.volume, slot);
    case OfSchema(c) => SchemaAdds(s, c.database, c.schema, slot);
    case OfTable(t) => TableAdds(s, t, world, slot);
  }

  lemma DescribesLater(e: Entry, s: State, s': State, world: World, slot: Slot, row: Answer)
    requires Describes(e, s, world, slot, row) && Extends(s, s')
    ensures Describes(e, s', world, slot, row)
  {
  }

  lemma ReadLater(s: State, s': State, slot: Slot)
    requires Extends(s, s') && Read(s, slot).Some?
    ensures Read(s', slot) == Read(s, slot)
  {
  }

  lemma SettledIsClaimed(s: State, e: Entry, slot: Slot)
    requires Settled(s, e) && Claims(e, slot)
    ensures Read(s, slot).Some?
  {
  }

  // -------------------------------------------------------------------------------- whole runs

  /** Entry i describes the row, and no entry before it sees to that slot. */
  predicate AddedBy(es: seq<Entry>, i: nat, s: State, world: World, slot: Slot, row: Answer) {
    i < |es| && Describes(es[i], s, world, slot, row) && forall j :: 0 <= j < i ==> !Claims(es[j], slot)
  }

  ghost predicate AddedBySome(es: seq<Entry>, s: State, world: World, slot: Slot, row: Answer) {
    exists i :: AddedBy(es, i, s, world, slot, row)
  }

  /** Every row that was not there is described by the first entry for its slot, also when an error stops the work. */
  lemma {:induction false} AddedIsDescribed(s: State, es: seq<Entry>, world: World, slot: Slot)
    ensures var s' := ApplyEntries(s, es, world).state;
            Gained(s, s', slot) ==> AddedBySome(es, s', world, slot, Read(s', slot).value)
  {
    var s' := ApplyEntries(s, es, world).state;
    if es != [] && Gained(s, s', slot) {
      var init, last := es[..|es| - 1], es[|es| - 1];
      var before := ApplyEntries(s, init, world);
      var mid := before.state;
      if Read(mid, slot).Some? {
        AddedIsDescribed(s, init, world, slot);
        if before.error.None? { EntryOnlyAdds(mid, last, world); }
        AddedEarlier(es, mid, s', world, slot);
      } else {
        EntryAdds(mid, last, world, slot);
        NothingClaimed(s, init, world, slot);
        AddedLast(init, last, s', world, slot, Read(s', slot).value);
        assert es == init + [last];
      }
    }
  }

  lemma AddedLast(init: seq<Entry>, last: Entry, s: State, world: World, slot: Slot, row: Answer)
    requires Describes(last, s, world, slot, row) && forall j :: 0 <= j < |init| ==> !Claims(init[j], slot)
    ensures AddedBySome(init + [last], s, world, slot, row)
  {
    assert AddedBy(init + [last], |init|, s, world, slot, row);
  }

  lemma AddedEarlier(es: seq<Entry>, mid: State, s': State, world: World, slot: Slot)
    requires es != [] && Extends(mid, s') && Read(mid, slot).Some?
    requires AddedBySome(es[..|es| - 1], mid, world, slot, Read(mid, slot).value)
    ensures Read(s', slot).Some? && AddedBySome(es, s', world, slot, Read(s', slot).value)
  {
    ReadLater(mid, s', slot);
    var row := Read(mid, slot).value;
    var i: nat :| AddedBy(es[..|es| - 1], i, mid, world, slot, row);
    DescribesLater(es[i], mid, s', world, slot, row);
    assert AddedBy(es, i, s', world, slot, row);
  }

  /** A slot that is still empty after entries without error is none they see to. */
  lemma NothingClaimed(s: State, es: seq<Entry>, world: World, slot: Slot)
    requires ApplyEntries(s, es, world).error == None && Read(ApplyEntries(s, es, world).state, slot).None?
    ensures forall j :: 0 <= j < |es| ==> !Claims(es[j], slot)
  {
    AllSettled(s, es, world);
    forall j | 0 <= j < |es| && Claims(es[j], slot)
      ensures false
    {
      SettledIsClaimed(ApplyEntries(s, es, world).state, es[j], slot);
    }
  }

  /**
   * Bootstrapping, slot by slot: what was there stays, what is new is what the first entry for the
   * slot describes, and after success every slot an entry sees to is filled.
   */
  lemma BootstrapFills(s: State, es: seq<Entry>, world: World, slot: Slot)
    ensures
      var r := ApplyEntries(s, es, world);
      && (Read(s, slot).Some? ==> Read(r.state, slot) == Read(s, slot))
      && (Gained(s, r.state, slot) ==> AddedBySome(es, r.state, world, slot, Read(r.state, slot).value))
      && (r.error == None ==> forall i :: 0 <= i < |es| && Claims(es[i], slot) ==> Read(r.state, slot).Some?)
  {
    var r := ApplyEntries(s, es, world);
    OnlyAdds(s, es, world);
    if Read(s, slot).Some? {
      ReadLater(s, r.state, slot);
    }
    AddedIsDescribed(s, es, world, slot);
    if r.error == None && Read(r.state, slot).None? {
      NothingClaimed(s, es, world, slot);
    }
  }

  // ------------------------------------------------------------------------------------ errors

  /** The error of a failing entry names what is missing. */
  lemma FailureIs(s: State, e: Entry, world: World)
    requires Fails(s, e, world)
    ensures
      ApplyEntry(s, e, world).error
      == Some(match e
              case OfVolume(v) => MetastoreFailed(ObjectStoreFailed(v.volume.ident))
              case OfDatabase(d) => MetastoreFailed(VolumeNotFound(d.volume))
              case OfSchema(c) => MetastoreFailed(DatabaseNotFound(c.database))
              case OfTable(t) =>
                if t.database !in s.databases then TableDatabaseMissing(t.table, t.database)
                else
                  var volume := s.databases[t.database].volume;
                  if volume !in s.volumes then TableVolumeMissing(t.table, volume)
                  else if s.volumes[volume].store.None? then
                    MetastoreFailed(ObjectStoreFailed(s.volumes[volume].ident))
                  else MetadataUnavailable(t.table))
  {
  }

  // ------------------------------------------------------------------- complete configurations

  /** The volume is there or in the configuration. */
  predicate HasVolume(s: State, c: Config, volume: Name) {
    volume in s.volumes || exists i :: 0 <= i < |c.volumes| && c.volumes[i].volume.ident == volume
  }

  /** The database is there or one of the configuration's, on its own or under a volume. */
  predicate HasDatabase(s: State, c: Config, database: Name) {
    || database in s.databases
    || (exists i :: 0 <= i < |c.databases| && c.databases[i].ident == database)
    || (exists i :: 0 <= i < |c.volumes| && c.volumes[i].database == Some(database))
  }

  /** Stores can be built, files can be read, and every name used is one the configuration or the metastore has. */
  predicate Complete(s: State, c: Config, world: World) {
    && (forall i :: 0 <= i < |c.volumes| ==> c.volumes[i].volume.store.Some?)
    && (forall i :: 0 <= i < |c.databases| ==> HasVolume(s, c, c.databases[i].volume))
    && (forall i :: 0 <= i < |c.schemas| ==> HasDatabase(s, c, c.schemas[i].database))
    && (forall i :: 0 <= i < |c.tables| ==>
                      HasDatabase(s, c, c.tables[i].database) && world(c.tables[i].metadataLocation).Some?)
  }

  /** Every database is on a volume, and every volume has a store. */
  predicate Served(s: State) {
    VolumesExist(s) && forall v :: v in s.volumes ==> s.volumes[v].store.Some?
  }

  lemma EntryKeepsServed(s: State, e: Entry, world: World)
    requires Served(s)
    ensures Served(ApplyEntry(s, e, world).state)
  {
    match e
    case OfVolume(v) =>
      var mid := if v.volume.ident in s.volumes then s else CreateVolumeOf(s, v.volume.ident, v.volume).state;
      assert Served(mid);
      if v.database.Some? { DatabaseKeepsServed(mid, v.database.value, v.volume.ident); }
    case OfDatabase(d) => DatabaseKeepsServed(s, d.ident, d.volume);
    case OfSchema(_) =>
    case OfTable(_) =>
  }

  lemma DatabaseKeepsServed(s: State, ident: Name, volume: Name)
    requires Served(s)
    ensures Served(EnsureDatabaseOf(s, ident, volume).state)
  {
  }

  /** Where the databases, the schemas and the tables begin in the list of entries. */
  lemma EntryAt(c: Config, n: nat)
    requires n < |Entries(c)|
    ensures
      var v, d, s := |c.volumes|, |c.volumes| + |c.databases|, |c.volumes| + |c.databases| + |c.schemas|;
      Entries(c)[n] == if n < v then OfVolume(c.volumes[n])
                       else if n < d then OfDatabase(c.databases[n - v])
                       else if n < s then OfSchema(c.schemas[n - d])
                       else OfTable(c.tables[n - s])
  {
  }

  /** What the entries applied so far ask for is there, with what was there before. */
  ghost predicate Reached(s: State, es: seq<Entry>, mid: State) {
    Extends(s, mid) && forall i :: 0 <= i < |es| ==> Settled(mid, es[i])
  }

  lemma VolumesFirst(s: State, c: Config, n: nat, mid: State, volume: Name)
    requires |c.volumes| <= n <= |Entries(c)| && Reached(s, Entries(c)[..n], mid) && HasVolume(s, c, volume)
    ensures volume in mid.volumes
  {
    if volume !in s.volumes {
      var i :| 0 <= i < |c.volumes| && c.volumes[i].volume.ident == volume;
      EntryAt(c, i);
      assert Settled(mid, Entries(c)[..n][i]);
    }
  }

  lemma DatabasesBeforeSchemas(s: State, c: Config, n: nat, mid: State, database: Name)
    requires |c.volumes| + |c.databases| <= n <= |Entries(c)| && Reached(s, Entries(c)[..n], mid)
    requires HasDatabase(s, c, database)
    ensures database in mid.databases
  {
    if database !in s.databases {
      if i :| 0 <= i < |c.databases| && c.databases[i].ident == database {
        EntryAt(c, |c.volumes| + i);
        assert Settled(mid, Entries(c)[..n][|c.volumes| + i]);
      } else {
        var i :| 0 <= i < |c.volumes| && c.volumes[i].database == Some(database);
        EntryAt(c, i);
        assert Settled(mid, Entries(c)[..n][i]);
      }
    }
  }

  lemma NextSucceeds(s: State, c: Config, world: World, n: nat, mid: State)
    requires Complete(s, c, world) && n < |Entries(c)| && Reached(s, Entries(c)[..n], mid) && Served(mid)
    ensures !Fails(mid, Entries(c)[n], world)
  {
    var v, d := |c.volumes|, |c.volumes| + |c.databases|;
    EntryAt(c, n);
    if v <= n < d {
      VolumesFirst(s, c, n, mid, c.databases[n - v].volume);
    } else if d <= n < d + |c.schemas| {
      DatabasesBeforeSchemas(s, c, n, mid, c.schemas[n - d].database);
    } else if d + |c.schemas| <= n {
      DatabasesBeforeSchemas(s, c, n, mid, c.tables[n - d - |c.schemas|].database);
    }
  }

  lemma {:induction false} ServedAfter(s: State, es: seq<Entry>, world: World)
    requires Served(s)
    ensures Served(ApplyEntries(s, es, world).state)
  {
    if es != [] {
      var init := es[..|es| - 1];
      ServedAfter(s, init, world);
      EntryKeepsServed(ApplyEntries(s, init, world).state, es[|es| - 1], world);
    }
  }

  lemma ReachedAfter(s: State, es: seq<Entry>, world: World)
    requires ApplyEntries(s, es, world).error == None
    ensures Reached(s, es, ApplyEntries(s, es, world).state)
  {
    OnlyAdds(s, es, world);
    AllSettled(s, es, world);
  }

  /** A complete configuration is applied without error, whatever the order of the entries of each kind. */
  lemma CompleteConfigSucceeds(s: State, c: Config, world: World)
    requires Served(s) && Complete(s, c, world)
    ensures ApplyEntries(s, Entries(c), world).error == None
  {
    var es := Entries(c);
    var n := Applied(s, es, world);
    AppliedStops(s, es, world);
    RunStops(s, es, world);
    if n < |es| {
      ReachedAfter(s, es[..n], world);
      ServedAfter(s, es[..n], world);
      NextSucceeds(s, c, world, n, ApplyEntries(s, es[..n], world).state);
    }
  }
}
