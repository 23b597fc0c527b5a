/**
 * The in-memory metastore: four keyed maps and a cache of object stores. `State` is the value of
 * the four maps, with one function per operation; the class updates maps and cache in place.
 */
module Metastore {
  import opened Common
  import opened AsciiCase

  type Store = int

  /** `store` is None when an object store cannot be built from the volume's configuration. */
  datatype Volume = Volume(ident: Name, store: Option<Store>)
  datatype Database = Database(ident: Name, volume: Name)
  datatype SchemaIdent = SchemaIdent(database: Name, schema: Name)
  datatype Schema = Schema(ident: SchemaIdent)
  datatype TableIdent = TableIdent(database: Name, schema: Name, table: Name)
  datatype Table = Table(ident: TableIdent, volumeIdent: Option<Name>, metadata: int)

  type SchemaKey = (Name, Name)
  type TableKey = (Name, Name, Name)

  function KeyOfSchema(ident: SchemaIdent): SchemaKey { (Lower(ident.database), Lower(ident.schema)) }

  function KeyOfTable(ident: TableIdent): TableKey {
    (Lower(ident.database), Lower(ident.schema), Lower(ident.table))
  }

  function SchemaOf(ident: TableIdent): SchemaIdent { SchemaIdent(ident.database, ident.schema) }

  datatype State = State(
    volumes: map<Name, Volume>,
    databases: map<Name, Database>,
    schemas: map<SchemaKey, Schema>,
    tables: map<TableKey, Table>)

  const EMPTY := State(map[], map[], map[], map[])

  datatype Error =
    | ObjectStoreFailed(volume: Name)
    | VolumeNotFound(volume: Name)
    | VolumeAlreadyExists(volume: Name)
    | VolumeInUse(databases: set<Name>)
    | DatabaseNotFound(database: Name)
    | DatabaseAlreadyExists(database: Name)
    | DatabaseInUse(database: Name, schemas: set<SchemaKey>)
    | SchemaNotFound(schema: SchemaIdent)
    | SchemaAlreadyExists(schema: SchemaIdent)
    | TableNotFound(table: TableIdent)
    | TableAlreadyExists(table: TableIdent)
    | MetadataRejected // building the metadata, or applying an update to it, failed
    | MetadataNotWritten

  datatype Answer =
    | Done
    | VolumeRow(volume: Volume)
    | DatabaseRow(database: Database)
    | SchemaRow(schema: Schema)
    | TableRow(table: Table)

  /** `metadata` is None when new metadata cannot be built; `written` tells whether the store takes it. */
  datatype Op =
    | CreateVolume(name: Name, volume: Volume)
    | UpdateVolume(name: Name, volume: Volume)
    | DeleteVolume(name: Name, cascade: bool)
    | CreateDatabase(name: Name, database: Database)
    | UpdateDatabase(name: Name, database: Database)
    | DeleteDatabase(name: Name, cascade: bool)
    | CreateSchema(schemaIdent: SchemaIdent, schema: Schema)
    | UpdateSchema(schemaIdent: SchemaIdent, schema: Schema)
    | DeleteSchema(schemaIdent: SchemaIdent, cascade: bool)
    | CreateTable(tableIdent: TableIdent, volumeIdent: Option<Name>, metadata: Option<int>, written: bool)
    | RegisterTable(tableIdent: TableIdent, table: Table)
    | UpdateTable(tableIdent: TableIdent, metadata: Option<int>, written: bool)
    | DeleteTable(tableIdent: TableIdent)

  datatype Outcome = Outcome(state: State, result: Result<Answer, Error>)

  function Fail(s: State, e: Error): Outcome { Outcome(s, Err(e)) }

  // -------------------------------------------------------------------------------- volumes

  function CreateVolumeOf(s: State, name: Name, volume: Volume): Outcome {
    if volume.store.None? then Fail(s, ObjectStoreFailed(volume.ident))
    else if name in s.volumes then Fail(s, VolumeAlreadyExists(name))
    else Outcome(s.(volumes := s.volumes[name := volume]), Ok(VolumeRow(volume)))
  }

  function UpdateVolumeOf(s: State, name: Name, volume: Volume): Outcome {
    if volume.store.None? then Fail(s, ObjectStoreFailed(volume.ident))
    else if name !in s.volumes then Fail(s, VolumeNotFound(name))
    else Outcome(s.(volumes := s.volumes[name := volume]), Ok(VolumeRow(volume)))
  }

  /** The idents, not the keys, of the databases on a volume. */
  function InUse(s: State, name: Name): set<Name> {
    set d | d in s.databases && s.databases[d].volume == name :: s.databases[d].ident
  }

  function WithoutDatabases(s: State, gone: set<Name>): State {
    State(s.volumes, s.databases - gone,
          map k | k in s.schemas && k.0 !in gone :: s.schemas[k],
          map k | k in s.tables && k.0 !in gone :: s.tables[k])
  }

  function DeleteVolumeOf(s: State, name: Name, cascade: bool): Outcome {
    var inUse := InUse(s, name);
    if inUse != {} && !cascade then Fail(s, VolumeInUse(inUse))
    else
      var t := if cascade then WithoutDatabases(s, inUse) else s;
      Outcome(t.(volumes := s.volumes - {name}), Ok(Done))
  }

  // ------------------------------------------------------------------------------ databases

  function CreateDatabaseOf(s: State, name: Name, database: Database): Outcome {
    if database.volume !in s.volumes then Fail(s, VolumeNotFound(database.volume))
    else if name in s.databases then Fail(s, DatabaseAlreadyExists(name))
    else Outcome(s.(databases := s.databases[name := database]), Ok(DatabaseRow(database)))
  }

  function UpdateDatabaseOf(s: State, name: Name, database: Database): Outcome {
    if name !in s.databases then Fail(s, DatabaseNotFound(name))
    else Outcome(s.(databases := s.databases[name := database]), Ok(DatabaseRow(database)))
  }

  function SchemasIn(s: State, name: Name): set<SchemaKey> {
    set k | k in s.schemas && k.0 == name
  }

  function DeleteDatabaseOf(s: State, name: Name, cascade: bool): Outcome {
    if SchemasIn(s, name) != {} && !cascade then Fail(s, DatabaseInUse(name, SchemasIn(s, name)))
    else Outcome(WithoutDatabases(s, {name}), Ok(Done))
  }

  // -------------------------------------------------------------------------------- schemas

  /** The key is lowercased but the database is looked up as written. */
  function CreateSchemaOf(s: State, ident: SchemaIdent, schema: Schema): Outcome {
    if KeyOfSchema(ident) in s.schemas then Fail(s, SchemaAlreadyExists(ident))
    else if ident.database !in s.databases then Fail(s, DatabaseNotFound(ident.database))
    else Outcome(s.(schemas := s.schemas[KeyOfSchema(ident) := schema]), Ok(SchemaRow(schema)))
  }

  function UpdateSchemaOf(s: State, ident: SchemaIdent, schema: Schema): Outcome {
    if KeyOfSchema(ident) !in s.schemas then Fail(s, SchemaNotFound(ident))
    else Outcome(s.(schemas := s.schemas[KeyOfSchema(ident) := schema]), Ok(SchemaRow(schema)))
  }

  function TablesIn(s: State, database: Name, schema: Name): set<TableKey> {
    set k | k in s.tables && k.0 == database && k.1 == schema
  }

  /** Tables are matched against the identifier as written, the schema against its lowercased key. */
  function DeleteSchemaOf(s: State, ident: SchemaIdent, cascade: bool): Outcome {
    var tables := TablesIn(s, ident.database, ident.schema);
    if tables != {} && !cascade then Fail(s, SchemaNotFound(ident))
    else Outcome(s.(tables := s.tables - tables, schemas := s.schemas - {KeyOfSchema(ident)}), Ok(Done))
  }

  // --------------------------------------------------------------------------------- tables

  /** The volume a new table goes to: the requested one, or that of the database as written. */
  function TargetVolume(s: State, ident: TableIdent, volumeIdent: Option<Name>): Result<Name, Error> {
    if volumeIdent.Some? then Ok(volumeIdent.value)
    else if ident.database in s.databases then Ok(s.databases[ident.database].volume)
    else Err(DatabaseNotFound(ident.database))
  }

  function CreateTableOf(
    s: State, ident: TableIdent, volumeIdent: Option<Name>, metadata: Option<int>, written: bool): Outcome
  {
    if KeyOfSchema(SchemaOf(ident)) !in s.schemas then Fail(s, SchemaNotFound(SchemaOf(ident)))
    else if KeyOfTable(ident) in s.tables then Fail(s, TableAlreadyExists(ident))
    else
      var target := TargetVolume(s, ident, volumeIdent);
      if target.Err? then Fail(s, target.error)
      else if metadata.None? then Fail(s, MetadataRejected)
      else if target.value !in s.volumes then Fail(s, VolumeNotFound(target.value))
      else if !written then Fail(s, MetadataNotWritten)
      else
        var table := Table(ident, Some(target.value), metadata.value);
        Outcome(s.(tables := s.tables[KeyOfTable(ident) := table]), Ok(TableRow(table)))
  }

  function RegisterTableOf(s: State, ident: TableIdent, table: Table): Outcome {
    Outcome(s.(tables := s.tables[KeyOfTable(ident) := table]), Ok(TableRow(table)))
  }

  /** The volume of a table: its own, else that of its database. */
  function VolumeForTable(s: State, ident: TableIdent): Option<Volume> {
    var key := KeyOfTable(ident);
    if key in s.tables && s.tables[key].volumeIdent.Some? then Lookup(s.volumes, s.tables[key].volumeIdent.value)
    else if Lower(ident.database) in s.databases then Lookup(s.volumes, s.databases[Lower(ident.database)].volume)
    else None
  }

  function Lookup<V>(m: map<Name, V>, name: Name): Option<V> {
    if name in m then Some(m[name]) else None
  }

  /** The object store is looked up by the ident of the table's volume. */
  function UpdateTableOf(s: State, ident: TableIdent, metadata: Option<int>, written: bool): Outcome {
    var volume := VolumeForTable(s, ident);
    var key := KeyOfTable(ident);
    if volume.None? || volume.value.ident !in s.volumes || key !in s.tables then Fail(s, TableNotFound(ident))
    else if metadata.None? then Fail(s, MetadataRejected)
    else if !written then Fail(s, MetadataNotWritten)
    else
      var table := s.tables[key].(metadata := metadata.value);
      Outcome(s.(tables := s.tables[key := table]), Ok(TableRow(table)))
  }

  function DeleteTableOf(s: State, ident: TableIdent): Outcome {
    Outcome(s.(tables := s.tables - {KeyOfTable(ident)}), Ok(Done))
  }

  function Apply(s: State, op: Op): Outcome {
    match op
    case CreateVolume(name, volume) => CreateVolumeOf(s, name, volume)
    case UpdateVolume(name, volume) => UpdateVolumeOf(s, name, volume)
    case DeleteVolume(name, cascade) => DeleteVolumeOf(s, name, cascade)
    case CreateDatabase(name, database) => CreateDatabaseOf(s, name, database)
    case UpdateDatabase(name, database) => UpdateDatabaseOf(s, name, database)
    case DeleteDatabase(name, cascade) => DeleteDatabaseOf(s, name, cascade)
    case CreateSchema(ident, schema) => CreateSchemaOf(s, ident, schema)
    case UpdateSchema(ident, schema) => UpdateSchemaOf(s, ident, schema)
    case DeleteSchema(ident, cascade) => DeleteSchemaOf(s, ident, cascade)
    case CreateTable(ident, volumeIdent, metadata, written) => CreateTableOf(s, ident, volumeIdent, metadata, written)
    case RegisterTable(ident, table) => RegisterTableOf(s, ident, table)
    case UpdateTable(ident, metadata, written) => UpdateTableOf(s, ident, metadata, written)
    case DeleteTable(ident) => DeleteTableOf(s, ident)
  }

  function RunOps(s: State, ops: seq<Op>): State {
    if ops == [] then s else Apply(RunOps(s, ops[..|ops| - 1]), ops[|ops| - 1]).state
  }

  // -------------------------------------------------------------------- the class, in place

  class InMemoryMetastore {
    var volumes: map<Name, Volume>
    var databases: map<Name, Database>
    var schemas: map<SchemaKey, Schema>
    var tables: map<TableKey, Table>
    var cache: map<Name, Store>

    function View(): State
      reads this
    {
      State(volumes, databases, schemas, tables)
    }

    /** While calls run one after another, between them the cache holds exactly the stores of the volumes. */
    ghost predicate Valid()
      reads this
    {
      cache.Keys == volumes.Keys && forall name :: name in volumes ==> volumes[name].store == Some(cache[name])
    }

    constructor ()
      ensures View() == EMPTY && Valid()
    {
      volumes, databases, schemas, tables, cache := map[], map[], map[], map[], map[];
    }

    method CreateVolume(name: Name, volume: Volume) returns (r: Result<Answer, Error>)
      requires Valid()
      modifies this
      ensures Valid() && Outcome(View(), r) == CreateVolumeOf(old(View()), name, volume)
    {
      if volume.store.None? {
        return Err(ObjectStoreFailed(volume.ident));
      }
      if name in volumes {
        return Err(VolumeAlreadyExists(name));
      }
      volumes := volumes[name := volume];
      cache := cache[name := volume.store.value];
      r := Ok(VolumeRow(volume));
    }

    method UpdateVolume(name: Name, volume: Volume) returns (r: Result<Answer, Error>)
      requires Valid()
      modifies this
      ensures Valid() && Outcome(View(), r) == UpdateVolumeOf(old(View()), name, volume)
    {
      if volume.store.None? {
        return Err(ObjectStoreFailed(volume.ident));
      }
      if name !in volumes {
        return Err(VolumeNotFound(name));
      }
      volumes := volumes[name := volume];
      cache := cache[name := volume.store.value];
      r := Ok(VolumeRow(volume));
    }

    /** Removes the collected schema keys one by one. */
    method RemoveSchemas(keys: set<SchemaKey>)
      modifies this`schemas
      ensures schemas == old(schemas) - keys
    {
      var left := keys;
      while left != {}
        invariant left <= keys
        invariant schemas == old(schemas) - (keys - left)
        decreases |left|
      {
        var key :| key in left;
        schemas := schemas - {key};
        left := left - {key};
      }
    }

    method RemoveTables(keys: set<TableKey>)
      modifies this`tables
      ensures tables == old(tables) - keys
    {
      var left := keys;
      while left != {}
        invariant left <= keys
        invariant tables == old(tables) - (keys - left)
        decreases |left|
      {
        var key :| key in left;
        tables := tables - {key};
        left := left - {key};
      }
    }

    method RemoveDatabases(names: set<Name>)
      modifies this`databases
      ensures databases == old(databases) - names
    {
      var left := names;
      while left != {}
        invariant left <= names
        invariant databases == old(databases) - (names - left)
        decreases |left|
      {
        var name :| name in left;
        databases := databases - {name};
        left := left - {name};
      }
    }

    /** Removes every schema and then every table below the given databases. */
    method RemoveBelow(gone: set<Name>)
      modifies this`schemas, this`tables
      ensures schemas == WithoutDatabases(old(View()), gone).schemas
      ensures tables == WithoutDatabases(old(View()), gone).tables
    {
      RemoveSchemas(set k | k in schemas && k.0 in gone);
      RemoveTables(set k | k in tables && k.0 in gone);
    }

    method DeleteVolume(name: Name, cascade: bool) returns (r: Result<Answer, Error>)
      requires Valid()
      modifies this
      ensures Valid() && Outcome(View(), r) == DeleteVolumeOf(old(View()), name, cascade)
    {
      var inUse := set d | d in databases && databases[d].volume == name :: databases[d].ident;
      if inUse != {} && !cascade {
        return Err(VolumeInUse(inUse));
      }
      if cascade {
        RemoveBelow(inUse);
        RemoveDatabases(inUse);
      }
      if name in volumes {
        volumes := volumes - {name};
        cache := cache - {name};
      } else {
        assert volumes - {name} == volumes;
      }
      r := Ok(Done);
    }

    method CreateDatabase(name: Name, database: Database) returns (r: Result<Answer, Error>)
      requires Valid()
      modifies this
      ensures Valid() && Outcome(View(), r) == CreateDatabaseOf(old(View()), name, database)
    {
      if database.volume !in volumes {
        return Err(VolumeNotFound(database.volume));
      }
      if name in databases {
        return Err(DatabaseAlreadyExists(name));
      }
      databases := databases[name := database];
      r := Ok(DatabaseRow(database));
    }

    method UpdateDatabase(name: Name, database: Database) returns (r: Result<Answer, Error>)
      requires Valid()
      modifies this
      ensures Valid() && Outcome(View(), r) == UpdateDatabaseOf(old(View()), name, database)
    {
      if name !in databases {
        return Err(DatabaseNotFound(name));
      }
      databases := databases[name := database];
      r := Ok(DatabaseRow(database));
    }

    method DeleteDatabase(name: Name, cascade: bool) returns (r: Result<Answer, Error>)
      requires Valid()
      modifies this
      ensures Valid() && Outcome(View(), r) == DeleteDatabaseOf(old(View()), name, cascade)
    {
      var schemaKeys := set k | k in schemas && k.0 == name;
      if schemaKeys != {} && !cascade {
        return Err(DatabaseInUse(name, schemaKeys));
      }
      RemoveBelow({name});
      databases := databases - {name};
      r := Ok(Done);
    }

    method CreateSchema(ident: SchemaIdent, schema: Schema) returns (r: Result<Answer, Error>)
      requires Valid()
      modifies this
      ensures Valid() && Outcome(View(), r) == CreateSchemaOf(old(View()), ident, schema)
    {
      if KeyOfSchema(ident) in schemas {
        return Err(SchemaAlreadyExists(ident));
      }
      if ident.database !in databases {
        return Err(DatabaseNotFound(ident.database));
      }
      schemas := schemas[KeyOfSchema(ident) := schema];
      r := Ok(SchemaRow(schema));
    }

    method UpdateSchema(ident: SchemaIdent, schema: Schema) returns (r: Result<Answer, Error>)
      requires Valid()
      modifies this
      ensures Valid() && Outcome(View(), r) == UpdateSchemaOf(old(View()), ident, schema)
    {
      if KeyOfSchema(ident) !in schemas {
        return Err(SchemaNotFound(ident));
      }
      schemas := schemas[KeyOfSchema(ident) := schema];
      r := Ok(SchemaRow(schema));
    }

    method DeleteSchema(ident: SchemaIdent, cascade: bool) returns (r: Result<Answer, Error>)
      requires Valid()
      modifies this
      ensures Valid() && Outcome(View(), r) == DeleteSchemaOf(old(View()), ident, cascade)
    {
      var keys := set k | k in tables && k.0 == ident.database && k.1 == ident.schema;
      if keys != {} && !cascade {
        return Err(SchemaNotFound(ident));
      }
      RemoveTables(keys);
      schemas := schemas - {KeyOfSchema(ident)};
      r := Ok(Done);
    }

    /** A cached store, or one built from the stored volume and cached. */
    method VolumeObjectStore(name: Name) returns (r: Result<Option<Store>, Error>)
      modifies this`cache
      ensures
        if name in old(cache) then r == Ok(Some(old(cache)[name])) && cache == old(cache)
        else if name !in volumes then r == Ok(None) && cache == old(cache)
        else if volumes[name].store.None? then r == Err(ObjectStoreFailed(volumes[name].ident)) && cache == old(cache)
        else r == Ok(volumes[name].store) && cache == old(cache)[name := volumes[name].store.value]
    {
      if name in cache {
        return Ok(Some(cache[name]));
      }
      if name in volumes {
        var store := volumes[name].store;
        if store.None? {
          return Err(ObjectStoreFailed(volumes[name].ident));
        }
        cache := cache[name := store.value];
        r := Ok(store);
      } else {
        r := Ok(None);
      }
    }

    method CreateTable(ident: TableIdent, volumeIdent: Option<Name>, metadata: Option<int>, written: bool)
        returns (r: Result<Answer, Error>)
      requires Valid()
      modifies this
      ensures Valid() && Outcome(View(), r) == CreateTableOf(old(View()), ident, volumeIdent, metadata, written)
    {
      if KeyOfSchema(SchemaOf(ident)) !in schemas {
        return Err(SchemaNotFound(SchemaOf(ident)));
      }
      if KeyOfTable(ident) in tables {
        return Err(TableAlreadyExists(ident));
      }
      var target: Name;
      if volumeIdent.Some? {
        target := volumeIdent.value;
      } else if ident.database in databases {
        target := databases[ident.database].volume;
      } else {
        return Err(DatabaseNotFound(ident.database));
      }
      if metadata.None? {
        return Err(MetadataRejected);
      }
      if target !in volumes {
        return Err(VolumeNotFound(target));
      }
      var store := VolumeObjectStore(target);
      assert store == Ok(volumes[target].store) && volumes[target].store.Some?;
      if !written {
        return Err(MetadataNotWritten);
      }
      var table := Table(ident, Some(target), metadata.value);
      tables := tables[KeyOfTable(ident) := table];
      r := Ok(TableRow(table));
    }

    method RegisterTable(ident: TableIdent, table: Table) returns (r: Result<Answer, Error>)
      requires Valid()
      modifies this
      ensures Valid() && Outcome(View(), r) == RegisterTableOf(old(View()), ident, table)
    {
      tables := tables[KeyOfTable(ident) := table];
      r := Ok(TableRow(table));
    }

    method UpdateTable(ident: TableIdent, metadata: Option<int>, written: bool) returns (r: Result<Answer, Error>)
      requires Valid()
      modifies this
      ensures Valid() && Outcome(View(), r) == UpdateTableOf(old(View()), ident, metadata, written)
    {
      var volume := VolumeForTable(View(), ident);
      if volume.None? {
        return Err(TableNotFound(ident));
      }
      var store := VolumeObjectStore(volume.value.ident);
      if store == Ok(None) || KeyOfTable(ident) !in tables {
        return Err(TableNotFound(ident));
      }
      if metadata.None? {
        return Err(MetadataRejected);
      }
      if !written {
        return Err(MetadataNotWritten);
      }
      var table := tables[KeyOfTable(ident)].(metadata := metadata.value);
      tables := tables[KeyOfTable(ident) := table];
      r := Ok(TableRow(table));
    }

    method DeleteTable(ident: TableIdent) returns (r: Result<Answer, Error>)
      requires Valid()
      modifies this
      ensures Valid() && Outcome(View(), r) == DeleteTableOf(old(View()), ident)
    {
      tables := tables - {KeyOfTable(ident)};
      r := Ok(Done);
    }
  }
}
