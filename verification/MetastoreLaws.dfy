/**
 * What the metastore's operations do, seen by a reader of the four maps: what is found under which
 * key after a call, what is gone, and which call is refused with which error.
 */
module MetastoreLaws {
  import opened Common
  import opened AsciiCase
  import opened Metastore

  /** A place in one of the four maps. */
  datatype Slot = VolumeAt(name: Name) | DatabaseAt(name: Name) | SchemaAt(skey: SchemaKey) | TableAt(tkey: TableKey)

  function Read(s: State, slot: Slot): Option<Answer> {
    match slot
    case VolumeAt(name) => if name in s.volumes then Some(VolumeRow(s.volumes[name])) else None
    case DatabaseAt(name) => if name in s.databases then Some(DatabaseRow(s.databases[name])) else None
    case SchemaAt(key) => if key in s.schemas then Some(SchemaRow(s.schemas[key])) else None
    case TableAt(key) => if key in s.tables then Some(TableRow(s.tables[key])) else None
  }

  /** Two states that read the same everywhere are the same. */
  lemma SameReads(s: State, t: State)
    requires forall slot: Slot :: Read(s, slot) == Read(t, slot)
    ensures s == t
  {
    forall name: Name
      ensures name in s.volumes <==> name in t.volumes
      ensures name in s.volumes ==> s.volumes[name] == t.volumes[name]
      ensures name in s.databases <==> name in t.databases
      ensures name in s.databases ==> s.databases[name] == t.databases[name]
    {
      assert Read(s, VolumeAt(name)) == Read(t, VolumeAt(name));
      assert Read(s, DatabaseAt(name)) == Read(t, DatabaseAt(name));
    }
    forall key: SchemaKey
      ensures key in s.schemas <==> key in t.schemas
      ensures key in s.schemas ==> s.schemas[key] == t.schemas[key]
    {
      assert Read(s, SchemaAt(key)) == Read(t, SchemaAt(key));
    }
    forall key: TableKey
      ensures key in s.tables <==> key in t.tables
      ensures key in s.tables ==> s.tables[key] == t.tables[key]
    {
      assert Read(s, TableAt(key)) == Read(t, TableAt(key));
    }
  }

  // ------------------------------------------------------------------------- creates and updates

  function SchemaSlot(ident: SchemaIdent): Slot { SchemaAt((Lower(ident.database), Lower(ident.schema))) }

  function TableSlot(ident: TableIdent): Slot {
    TableAt((Lower(ident.database), Lower(ident.schema), Lower(ident.table)))
  }

  /** Where a create or an update writes. */
  function Target(op: Op): Option<Slot> {
    match op
    case CreateVolume(name, _) => Some(VolumeAt(name))
    case UpdateVolume(name, _) => Some(VolumeAt(name))
    case CreateDatabase(name, _) => Some(DatabaseAt(name))
    case UpdateDatabase(name, _) => Some(DatabaseAt(name))
    case CreateSchema(ident, _) => Some(SchemaSlot(ident))
    case UpdateSchema(ident, _) => Some(SchemaSlot(ident))
    case CreateTable(ident, _, _, _) => Some(TableSlot(ident))
    case RegisterTable(ident, _) => Some(TableSlot(ident))
    case UpdateTable(ident, _, _) => Some(TableSlot(ident))
    case _ => None
  }

  /** What a create or an update is told to store: the value given, or the metadata given under the rest. */
  predicate AsAsked(s: State, op: Op, row: Answer) {
    match op
    case CreateVolume(_, volume) => row == VolumeRow(volume)
    case UpdateVolume(_, volume) => row == VolumeRow(volume)
    case CreateDatabase(_, database) => row == DatabaseRow(database)
    case UpdateDatabase(_, database) => row == DatabaseRow(database)
    case CreateSchema(_, schema) => row == SchemaRow(schema)
    case UpdateSchema(_, schema) => row == SchemaRow(schema)
    case CreateTable(ident, volume, metadata, _) =>
      && row.TableRow? && row.table.ident == ident && Some(row.table.metadata) == metadata
      && (volume.Some? ==> row.table.volumeIdent == volume)
      && (volume.None? ==> ident.database in s.databases
                           && row.table.volumeIdent == Some(s.databases[ident.database].volume))
    case RegisterTable(_, table) => row == TableRow(table)
    case UpdateTable(ident, metadata, _) =>
      var was := Read(s, TableSlot(ident));
      && was.Some? && was.value.TableRow? && row.TableRow? && Some(row.table.metadata) == metadata
      && row.table.ident == was.value.table.ident && row.table.volumeIdent == was.value.table.volumeIdent
    case _ => true
  }

  /** After a create or an update its slot holds what it was told to store and answered; the others are as before. */
  lemma WrittenIsRead(s: State, op: Op, slot: Slot)
    requires Target(op).Some? && Apply(s, op).result.Ok?
    ensures
      var (after, row) := (Apply(s, op).state, Apply(s, op).result.value);
      && AsAsked(s, op, row)
      && Read(after, slot) == if slot == Target(op).value then Some(row) else Read(s, slot)
  {
  }

  // ------------------------------------------------------------------------------------- deletes

  /** The database is on the volume, by its stored value; a cascade removes it by its ident. */
  predicate OnVolume(s: State, ident: Name, volume: Name) {
    exists d :: d in s.databases && s.databases[d].volume == volume && s.databases[d].ident == ident
  }

  /** What a delete takes away. */
  predicate Taken(s: State, op: Op, slot: Slot) {
    match op
    case DeleteVolume(name, cascade) =>
      || slot == VolumeAt(name)
      || (cascade && slot.DatabaseAt? && OnVolume(s, slot.name, name))
      || (cascade && slot.SchemaAt? && OnVolume(s, slot.skey.0, name))
      || (cascade && slot.TableAt? && OnVolume(s, slot.tkey.0, name))
    case DeleteDatabase(name, _) =>
      || slot == DatabaseAt(name)
      || (slot.SchemaAt? && slot.skey.0 == name)
      || (slot.TableAt? && slot.tkey.0 == name)
    case DeleteSchema(ident, _) =>
      || slot == SchemaSlot(ident)
      || (slot.TableAt? && slot.tkey.0 == ident.database && slot.tkey.1 == ident.schema)
    case DeleteTable(ident) => slot == TableSlot(ident)
    case _ => false
  }

  /** A delete empties exactly the slots it takes away. */
  lemma DeletedIsGone(s: State, op: Op, slot: Slot)
    requires Target(op).None? && Apply(s, op).result.Ok?
    ensures Apply(s, op).result.value == Done
    ensures Read(Apply(s, op).state, slot) == if Taken(s, op, slot) then None else Read(s, slot)
  {
    if op.DeleteVolume? {
      DatabasesOn(s, op.name);
    }
  }

  lemma DatabasesOn(s: State, volume: Name)
    ensures forall ident: Name :: ident in InUse(s, volume) <==> OnVolume(s, ident, volume)
  {
  }

  // ------------------------------------------------------------------------------------ refusals

  /** The volume an update of the table writes to: the table's own, else that of its database in lowercase. */
  function VolumeNameOf(s: State, ident: TableIdent): Option<Name> {
    var row := Read(s, TableSlot(ident));
    if row.Some? && row.value.TableRow? && row.value.table.volumeIdent.Some? then row.value.table.volumeIdent
    else if Lower(ident.database) in s.databases then Some(s.databases[Lower(ident.database)].volume)
    else None
  }

  predicate VolumeServes(s: State, ident: TableIdent) {
    var name := VolumeNameOf(s, ident);
    name.Some? && name.value in s.volumes && s.volumes[name.value].ident in s.volumes
  }

  /** The volume a new table goes to: the one asked for, else that of its database as written. */
  predicate GoesTo(s: State, ident: TableIdent, asked: Option<Name>, volume: Name) {
    asked == Some(volume) || (asked.None? && Read(s, DatabaseAt(ident.database)).Some?
                              && s.databases[ident.database].volume == volume)
  }

  /** The cause of each error creating a table, in the order the causes are looked for. */
  predicate CreateTableFails(s: State, op: Op, e: Error)
    requires op.CreateTable?
  {
    var ident := op.tableIdent;
    var schema := SchemaIdent(ident.database, ident.schema);
    if Read(s, SchemaSlot(schema)).None? then e == SchemaNotFound(schema)
    else if Read(s, TableSlot(ident)).Some? then e == TableAlreadyExists(ident)
    else if op.volumeIdent.None? && Read(s, DatabaseAt(ident.database)).None? then
      e == DatabaseNotFound(ident.database)
    else if op.metadata.None? then e == MetadataRejected
    else if e.VolumeNotFound? then GoesTo(s, ident, op.volumeIdent, e.volume) && Read(s, VolumeAt(e.volume)).None?
    else
      && e == MetadataNotWritten && !op.written
      && (op.volumeIdent.Some? ==> Read(s, VolumeAt(op.volumeIdent.value)).Some?)
      && (op.volumeIdent.None? ==> Read(s, VolumeAt(s.databases[ident.database].volume)).Some?)
  }

  /** The cause of each error, an earlier one in the list hiding the later ones. */
  ghost predicate Cause(s: State, op: Op, e: Error) {
    match op
    case CreateVolume(name, volume) =>
      || (volume.store == None && e == ObjectStoreFailed(volume.ident))
      || (volume.store != None && e == VolumeAlreadyExists(name) && Read(s, VolumeAt(name)).Some?)
    case UpdateVolume(name, volume) =>
      || (volume.store == None && e == ObjectStoreFailed(volume.ident))
      || (volume.store != None && e == VolumeNotFound(name) && Read(s, VolumeAt(name)).None?)
    case DeleteVolume(name, cascade) =>
      && e.VolumeInUse? && !cascade && e.databases != {}
      && forall d: Name :: d in e.databases <==> OnVolume(s, d, name)
    case CreateDatabase(name, database) =>
      var noVolume := Read(s, VolumeAt(database.volume)).None?;
      || (noVolume && e == VolumeNotFound(database.volume))
      || (!noVolume && e == DatabaseAlreadyExists(name) && Read(s, DatabaseAt(name)).Some?)
    case UpdateDatabase(name, _) => e == DatabaseNotFound(name) && Read(s, DatabaseAt(name)).None?
    case DeleteDatabase(name, cascade) =>
      && e.DatabaseInUse? && e.database == name && !cascade && e.schemas != {}
      && forall k: SchemaKey :: k in e.schemas <==> k.0 == name && Read(s, SchemaAt(k)).Some?
    case CreateSchema(ident, _) =>
      var there := Read(s, SchemaSlot(ident)).Some?;
      || (there && e == SchemaAlreadyExists(ident))
      || (!there && e == DatabaseNotFound(ident.database) && Read(s, DatabaseAt(ident.database)).None?)
    case UpdateSchema(ident, _) => e == SchemaNotFound(ident) && Read(s, SchemaSlot(ident)).None?
    case DeleteSchema(ident, cascade) =>
      && e == SchemaNotFound(ident) && !cascade
      && exists t :: Read(s, TableAt((ident.database, ident.schema, t))).Some?
    case CreateTable(_, _, _, _) => CreateTableFails(s, op, e)
    case RegisterTable(_, _) => false
    case UpdateTable(ident, metadata, written) =>
      var found := Read(s, TableSlot(ident)).Some? && VolumeServes(s, ident);
      || (!found && e == TableNotFound(ident))
      || (found && metadata == None && e == MetadataRejected)
      || (found && metadata != None && !written && e == MetadataNotWritten)
    case DeleteTable(_) => false
  }

  lemma DeleteRefusedIff(s: State, op: Op, e: Error)
    requires Target(op).None?
    ensures Apply(s, op).result == Err(e) <==> Cause(s, op, e)
  {
    match op {
      case DeleteVolume(name, _) =>
        DatabasesOn(s, name);
        assert e.VolumeInUse? ==> (e.databases == InUse(s, name) <==>
                                   forall d: Name :: d in e.databases <==> OnVolume(s, d, name));
      case DeleteDatabase(name, _) =>
        assert e.DatabaseInUse? ==> (e.schemas == SchemasIn(s, name) <==>
                                     forall k: SchemaKey :: k in e.schemas <==> k in SchemasIn(s, name));
      case DeleteSchema(ident, _) => TablesThere(s, ident);
      case DeleteTable(_) =>
    }
  }

  lemma TableRefusedIff(s: State, op: Op, e: Error)
    requires op.CreateTable? || op.RegisterTable? || op.UpdateTable?
    ensures Apply(s, op).result == Err(e) <==> Cause(s, op, e)
  {
  }

  /** A call is refused with an error exactly when the state gives that error cause. */
  lemma RefusedIffCause(s: State, op: Op, e: Error)
    ensures Apply(s, op).result == Err(e) <==> Cause(s, op, e)
  {
    if Target(op).None? {
      DeleteRefusedIff(s, op, e);
    } else if op.CreateTable? || op.RegisterTable? || op.UpdateTable? {
      TableRefusedIff(s, op, e);
    }
  }

  lemma TablesThere(s: State, ident: SchemaIdent)
    ensures TablesIn(s, ident.database, ident.schema) != {} <==>
            exists t :: Read(s, TableAt((ident.database, ident.schema, t))).Some?
  {
    if TablesIn(s, ident.database, ident.schema) != {} {
      var k := AnyOf(TablesIn(s, ident.database, ident.schema));
      assert Read(s, TableAt((ident.database, ident.schema, k.2))).Some?;
    }
    if t :| Read(s, TableAt((ident.database, ident.schema, t))).Some? {
      assert (ident.database, ident.schema, t) in TablesIn(s, ident.database, ident.schema);
    }
  }
}
