/** Bootstrapping the metastore from a configuration: ordered check-then-create calls. */
module Bootstrap {
  import opened Common
  import opened AsciiCase
  import opened Metastore

  datatype VolumeEntry = VolumeEntry(volume: Volume, database: Option<Name>)
  datatype DatabaseEntry = DatabaseEntry(ident: Name, volume: Name)
  datatype SchemaEntry = SchemaEntry(database: Name, schema: Name)
  datatype TableEntry = TableEntry(database: Name, schema: Name, table: Name, metadataLocation: int)

  datatype Config = Config(
    volumes: seq<VolumeEntry>, databases: seq<DatabaseEntry>, schemas: seq<SchemaEntry>, tables: seq<TableEntry>)

  datatype ConfigError =
    | MetastoreFailed(error: Error)
    | TableDatabaseMissing(table: Name, database: Name)
    | TableVolumeMissing(table: Name, volume: Name)
    | MetadataUnavailable(table: Name) // fetching or parsing the metadata file failed

  /** What reading the metadata file at a location yields. */
  type World = int -> Option<int>

  const PUBLIC := "public"

  /** The metastore afterwards and the error that stopped the work, if one did. */
  datatype Report = Report(state: State, error: Option<ConfigError>)

  function Lift(out: Outcome): Report {
    Report(out.state, if out.result.Ok? then None else Some(MetastoreFailed(out.result.error)))
  }

  function EnsureSchemaOf(s: State, database: Name, schema: Name): Report {
    var ident := SchemaIdent(database, schema);
    if KeyOfSchema(ident) in s.schemas then Report(s, None) else Lift(CreateSchemaOf(s, ident, Schema(ident)))
  }

  function EnsureDatabaseOf(s: State, ident: Name, volume: Name): Report {
    var r :=
      if ident in s.databases then Report(s, None) else Lift(CreateDatabaseOf(s, ident, Database(ident, volume)));
    if r.error.Some? then r else EnsureSchemaOf(r.state, ident, PUBLIC)
  }

  function ApplyVolumeOf(s: State, e: VolumeEntry): Report {
    var r := if e.volume.ident in s.volumes then Report(s, None) else Lift(CreateVolumeOf(s, e.volume.ident, e.volume));
    if r.error.Some? || e.database.None? then r else EnsureDatabaseOf(r.state, e.database.value, e.volume.ident)
  }

  function IdentOf(e: TableEntry): TableIdent { TableIdent(e.database, e.schema, e.table) }

  function ReadMetadataOf(volume: Volume, e: TableEntry, world: World): Result<int, ConfigError> {
    if volume.store.None? then Err(MetastoreFailed(ObjectStoreFailed(volume.ident)))
    else if world(e.metadataLocation).None? then Err(MetadataUnavailable(e.table))
    else Ok(world(e.metadataLocation).value)
  }

  function ApplyTableOf(s: State, e: TableEntry, world: World): Report {
    if KeyOfTable(IdentOf(e)) in s.tables then Report(s, None)
    else if e.database !in s.databases then Report(s, Some(TableDatabaseMissing(e.table, e.database)))
    else
      var r := EnsureSchemaOf(s, e.database, e.schema);
      var volume := s.databases[e.database].volume;
      if r.error.Some? then r
      else if volume !in r.state.volumes then Report(r.state, Some(TableVolumeMissing(e.table, volume)))
      else
        var row := r.state.volumes[volume];
        var metadata := ReadMetadataOf(row, e, world);
        if metadata.Err? then Report(r.state, Some(metadata.error))
        else Lift(RegisterTableOf(r.state, IdentOf(e), Table(IdentOf(e), Some(row.ident), metadata.value)))
  }

  // ---------------------------------------------------------- the configuration as one list

  datatype Entry =
    | OfVolume(volume: VolumeEntry)
    | OfDatabase(database: DatabaseEntry)
    | OfSchema(schema: SchemaEntry)
    | OfTable(table: TableEntry)

  function Each<A, B>(f: A -> B, xs: seq<A>): seq<B> {
    seq(|xs|, i requires 0 <= i < |xs| => f(xs[i]))
  }

  function VolumeEntries(c: Config): seq<Entry> { Each(v => OfVolume(v), c.volumes) }
  function DatabaseEntries(c: Config): seq<Entry> { Each(d => OfDatabase(d), c.databases) }
  function SchemaEntries(c: Config): seq<Entry> { Each(s => OfSchema(s), c.schemas) }
  function TableEntries(c: Config): seq<Entry> { Each(t => OfTable(t), c.tables) }

  /** Volumes, then databases, then schemas, then tables. */
  function Entries(c: Config): seq<Entry> {
    VolumeEntries(c) + DatabaseEntries(c) + SchemaEntries(c) + TableEntries(c)
  }

  function ApplyEntry(s: State, e: Entry, world: World): Report {
    match e
    case OfVolume(v) => ApplyVolumeOf(s, v)
    case OfDatabase(d) => EnsureDatabaseOf(s, d.ident, d.volume)
    case OfSchema(c) => EnsureSchemaOf(s, c.database, c.schema)
    case OfTable(t) => ApplyTableOf(s, t, world)
  }

  function ApplyEntries(s: State, es: seq<Entry>, world: World): Report {
    if es == [] then Report(s, None)
    else
      var r := ApplyEntries(s, es[..|es| - 1], world);
      if r.error.Some? then r else ApplyEntry(r.state, es[|es| - 1], world)
  }

  lemma {:induction false} ErrorStays(s: State, es: seq<Entry>, n: nat, world: World)
    requires n <= |es| && ApplyEntries(s, es[..n], world).error.Some?
    ensures ApplyEntries(s, es, world) == ApplyEntries(s, es[..n], world)
    decreases |es|
  {
    if n == |es| {
      assert es[..n] == es;
    } else {
      assert es[..|es| - 1][..n] == es[..n];
      ErrorStays(s, es[..|es| - 1], n, world);
    }
  }

  function Then(r: Report, es: seq<Entry>, world: World): Report {
    if r.error.Some? then r else ApplyEntries(r.state, es, world)
  }

  lemma {:induction false} ApplyConcat(s: State, a: seq<Entry>, b: seq<Entry>, world: World)
    ensures ApplyEntries(s, a + b, world) == Then(ApplyEntries(s, a, world), b, world)
  {
    if b == [] {
      assert a + b == a;
    } else {
      assert (a + b)[..|a + b| - 1] == a + b[..|b| - 1];
      ApplyConcat(s, a, b[..|b| - 1], world);
    }
  }

  // ------------------------------------------------------------------------- in place

  method EnsureSchema(m: InMemoryMetastore, database: Name, schema: Name) returns (error: Option<ConfigError>)
    requires m.Valid()
    modifies m
    ensures m.Valid() && Report(m.View(), error) == EnsureSchemaOf(old(m.View()), database, schema)
  {
    var ident := SchemaIdent(database, schema);
    error := None;
    if KeyOfSchema(ident) !in m.schemas {
      var r := m.CreateSchema(ident, Schema(ident));
      if r.Err? {
        error := Some(MetastoreFailed(r.error));
      }
    }
  }

  method EnsureDatabase(m: InMemoryMetastore, ident: Name, volume: Name) returns (error: Option<ConfigError>)
    requires m.Valid()
    modifies m
    ensures m.Valid() && Report(m.View(), error) == EnsureDatabaseOf(old(m.View()), ident, volume)
  {
    if ident !in m.databases {
      var r := m.CreateDatabase(ident, Database(ident, volume));
      if r.Err? {
        return Some(MetastoreFailed(r.error));
      }
    }
    error := EnsureSchema(m, ident, PUBLIC);
  }

  method ApplyVolume(m: InMemoryMetastore, e: VolumeEntry) returns (error: Option<ConfigError>)
    requires m.Valid()
    modifies m
    ensures m.Valid() && Report(m.View(), error) == ApplyVolumeOf(old(m.View()), e)
  {
    if e.volume.ident !in m.volumes {
      var r := m.CreateVolume(e.volume.ident, e.volume);
      if r.Err? {
        return Some(MetastoreFailed(r.error));
      }
    }
    error := None;
    if e.database.Some? {
      error := EnsureDatabase(m, e.database.value, e.volume.ident);
    }
  }

  method ApplyTable(m: InMemoryMetastore, e: TableEntry, world: World) returns (error: Option<ConfigError>)
    requires m.Valid()
    modifies m
    ensures m.Valid() && Report(m.View(), error) == ApplyTableOf(old(m.View()), e, world)
  {
    var ident := IdentOf(e);
    if KeyOfTable(ident) in m.tables {
      return None;
    }
    if e.database !in m.databases {
      return Some(TableDatabaseMissing(e.table, e.database));
    }
    var volume := m.databases[e.database].volume;
    error := EnsureSchema(m, e.database, e.schema);
    if error.Some? {
      return;
    }
    if volume !in m.volumes {
      return Some(TableVolumeMissing(e.table, volume));
    }
    var row := m.volumes[volume];
    var metadata := ReadMetadataOf(row, e, world);
    if metadata.Err? {
      return Some(metadata.error);
    }
    var r := m.RegisterTable(ident, Table(ident, Some(row.ident), metadata.value));
    error := None;
  }

  method ApplyOne(m: InMemoryMetastore, e: Entry, world: World) returns (error: Option<ConfigError>)
    requires m.Valid()
    modifies m
    ensures m.Valid() && Report(m.View(), error) == ApplyEntry(old(m.View()), e, world)
  {
    match e {
      case OfVolume(v) => error := ApplyVolume(m, v);
      case OfDatabase(d) => error := EnsureDatabase(m, d.ident, d.volume);
      case OfSchema(c) => error := EnsureSchema(m, c.database, c.schema);
      case OfTable(t) => error := ApplyTable(m, t, world);
    }
  }

  /** One loop over the entries of a kind; the first error stops it. */
  method ApplyEach(m: InMemoryMetastore, es: seq<Entry>, world: World) returns (error: Option<ConfigError>)
    requires m.Valid()
    modifies m
    ensures m.Valid() && Report(m.View(), error) == ApplyEntries(old(m.View()), es, world)
  {
    var i := 0;
    error := None;
    while i < |es|
      invariant 0 <= i <= |es| && m.Valid() && error == None
      invariant Report(m.View(), None) == ApplyEntries(old(m.View()), es[..i], world)
    {
      assert es[..i + 1][..i] == es[..i];
      error := ApplyOne(m, es[i], world);
      i := i + 1;
      if error.Some? {
        ErrorStays(old(m.View()), es, i, world);
        return;
      }
    }
    assert es[..i] == es;
  }

  method Apply(m: InMemoryMetastore, c: Config, world: World) returns (error: Option<ConfigError>)
    requires m.Valid()
    modifies m
    ensures m.Valid() && Report(m.View(), error) == ApplyEntries(old(m.View()), Entries(c), world)
  {
    ghost var s := m.View();
    ApplyConcat(s, VolumeEntries(c), DatabaseEntries(c), world);
    ApplyConcat(s, VolumeEntries(c) + DatabaseEntries(c), SchemaEntries(c), world);
    ApplyConcat(s, VolumeEntries(c) + DatabaseEntries(c) + SchemaEntries(c), TableEntries(c), world);
    error := ApplyEach(m, VolumeEntries(c), world);
    if error.None? {
      error := ApplyEach(m, DatabaseEntries(c), world);
    }
    if error.None? {
      error := ApplyEach(m, SchemaEntries(c), world);
    }
    if error.None? {
      error := ApplyEach(m, TableEntries(c), world);
    }
  }
}
