/** Referential integrity of the metastore over whole runs: exactly which calls keep it. */
module MetastoreIntegrity {
  import opened Common
  import opened AsciiCase
  import opened Metastore

  predicate VolumesExist(s: State) {
    forall d :: d in s.databases ==> s.databases[d].volume in s.volumes
  }

  predicate DatabasesExist(s: State) {
    forall k :: k in s.schemas ==> k.0 in s.databases
  }

  predicate SchemasExist(s: State) {
    forall k :: k in s.tables ==> (k.0, k.1) in s.schemas
  }

  /** Every table's schema, every schema's database and every database's volume exist. */
  predicate Integral(s: State) { VolumesExist(s) && DatabasesExist(s) && SchemasExist(s) }

  /** The calls that keep integrity, told from the arguments and the state before the call. */
  predicate Safe(s: State, op: Op) {
    match op
    case DeleteVolume(name, cascade) =>
      cascade ==> forall d :: d in s.databases && s.databases[d].volume == name ==> d in InUse(s, name)
    case UpdateDatabase(name, database) => name in s.databases ==> database.volume in s.volumes
    case CreateSchema(ident, _) =>
      KeyOfSchema(ident) !in s.schemas && ident.database in s.databases ==> Lower(ident.database) in s.databases
    case DeleteSchema(ident, cascade) =>
      || (IsLower(ident.database) && IsLower(ident.schema))
      || (TablesIn(s, ident.database, ident.schema) != {} && !cascade)
      || TablesIn(s, Lower(ident.database), Lower(ident.schema)) == {}
    case RegisterTable(ident, _) => KeyOfSchema(SchemaOf(ident)) in s.schemas
    case _ => true
  }

  // ----------------------------------------------------------------- one call, exactly when

  lemma DeleteVolumeExact(s: State, name: Name, cascade: bool)
    requires Integral(s)
    ensures Integral(Apply(s, DeleteVolume(name, cascade)).state) <==> Safe(s, DeleteVolume(name, cascade))
  {
    var s' := Apply(s, DeleteVolume(name, cascade)).state;
    if cascade {
      assert DatabasesExist(s') && SchemasExist(s');
      forall d | d in s.databases && s.databases[d].volume == name
        ensures d in s'.databases <==> d !in InUse(s, name)
      {
      }
      assert Safe(s, DeleteVolume(name, cascade)) ==> VolumesExist(s');
      if !Safe(s, DeleteVolume(name, cascade)) {
        var d :| d in s.databases && s.databases[d].volume == name && d !in InUse(s, name);
        assert d in s'.databases && s'.databases[d].volume !in s'.volumes;
      }
    } else {
      NoneInUse(s, name);
    }
  }

  lemma NoneInUse(s: State, name: Name)
    ensures InUse(s, name) == {} <==> forall d :: d in s.databases ==> s.databases[d].volume != name
  {
    forall d | d in s.databases && s.databases[d].volume == name
      ensures s.databases[d].ident in InUse(s, name)
    {
    }
  }

  lemma UpdateDatabaseExact(s: State, name: Name, database: Database)
    requires Integral(s)
    ensures Integral(Apply(s, UpdateDatabase(name, database)).state) <==> Safe(s, UpdateDatabase(name, database))
  {
    if name in s.databases {
      var s' := Apply(s, UpdateDatabase(name, database)).state;
      assert s'.databases[name] == database;
    }
  }

  lemma CreateSchemaExact(s: State, ident: SchemaIdent, schema: Schema)
    requires Integral(s)
    ensures Integral(Apply(s, CreateSchema(ident, schema)).state) <==> Safe(s, CreateSchema(ident, schema))
  {
    if Apply(s, CreateSchema(ident, schema)).result.Ok? {
      assert KeyOfSchema(ident) in Apply(s, CreateSchema(ident, schema)).state.schemas;
    }
  }

  lemma DeleteSchemaExact(s: State, ident: SchemaIdent, cascade: bool)
    requires Integral(s)
    ensures Integral(Apply(s, DeleteSchema(ident, cascade)).state) <==> Safe(s, DeleteSchema(ident, cascade))
  {
    var out := Apply(s, DeleteSchema(ident, cascade));
    var (d, c) := KeyOfSchema(ident);
    if out.result.Ok? {
      if IsLower(ident.database) && IsLower(ident.schema) {
        assert TablesIn(out.state, d, c) == {};
      } else {
        assert TablesIn(out.state, d, c) == TablesIn(s, d, c);
        if k :| k in TablesIn(s, d, c) {
          assert k in out.state.tables && (k.0, k.1) !in out.state.schemas;
        }
      }
      forall k | k in out.state.tables && (k.0, k.1) !in out.state.schemas
        ensures k in TablesIn(out.state, d, c)
      {
        assert (k.0, k.1) in s.schemas;
      }
    }
  }

  lemma RegisterTableExact(s: State, ident: TableIdent, table: Table)
    requires Integral(s)
    ensures Integral(Apply(s, RegisterTable(ident, table)).state) <==> Safe(s, RegisterTable(ident, table))
  {
    assert KeyOfTable(ident) in Apply(s, RegisterTable(ident, table)).state.tables;
  }

  lemma AlwaysSafe(s: State, op: Op)
    requires Integral(s)
    requires !op.DeleteVolume? && !op.UpdateDatabase? && !op.CreateSchema? && !op.DeleteSchema? && !op.RegisterTable?
    ensures Integral(Apply(s, op).state)
  {
  }

  /** From an integral state, a call keeps integrity exactly when it is safe. */
  lemma KeepsIntegrityIff(s: State, op: Op)
    requires Integral(s)
    ensures Integral(Apply(s, op).state) <==> Safe(s, op)
  {
    match op
    case DeleteVolume(name, cascade) => DeleteVolumeExact(s, name, cascade);
    case UpdateDatabase(name, database) => UpdateDatabaseExact(s, name, database);
    case CreateSchema(ident, schema) => CreateSchemaExact(s, ident, schema);
    case DeleteSchema(ident, cascade) => DeleteSchemaExact(s, ident, cascade);
    case RegisterTable(ident, table) => RegisterTableExact(s, ident, table);
    case _ => AlwaysSafe(s, op);
  }

  // ----------------------------------------------------------------------------- whole runs

  predicate IntegralAfter(s: State, ops: seq<Op>, n: nat)
    requires n <= |ops|
  {
    Integral(RunOps(s, ops[..n]))
  }

  predicate SafeAt(s: State, ops: seq<Op>, n: nat)
    requires n < |ops|
  {
    Safe(RunOps(s, ops[..n]), ops[n])
  }

  ghost predicate AlwaysIntegral(s: State, ops: seq<Op>) {
    forall n: nat :: n <= |ops| ==> IntegralAfter(s, ops, n)
  }

  ghost predicate AllSafe(s: State, ops: seq<Op>) {
    forall n: nat :: n < |ops| ==> SafeAt(s, ops, n)
  }

  /** What holds at a prefix does not depend on the calls after it. */
  lemma PrefixOnly(s: State, ops: seq<Op>, n: nat)
    requires n < |ops|
    ensures IntegralAfter(s, ops, n) <==> IntegralAfter(s, ops[..|ops| - 1], n)
    ensures n < |ops| - 1 ==> (SafeAt(s, ops, n) <==> SafeAt(s, ops[..|ops| - 1], n))
  {
    assert ops[..|ops| - 1][..n] == ops[..n];
  }

  lemma LastCall(s: State, ops: seq<Op>)
    requires ops != [] && IntegralAfter(s, ops, |ops| - 1)
    ensures IntegralAfter(s, ops, |ops|) <==> SafeAt(s, ops, |ops| - 1)
  {
    assert ops[..|ops|] == ops;
    KeepsIntegrityIff(RunOps(s, ops[..|ops| - 1]), ops[|ops| - 1]);
  }

  /** A run stays integral throughout exactly when each of its calls is safe where it is made. */
  lemma {:induction false} RunIntegralIff(s: State, ops: seq<Op>)
    requires Integral(s)
    ensures AlwaysIntegral(s, ops) <==> AllSafe(s, ops)
  {
    if ops == [] {
      assert ops[..0] == [];
    } else {
      var last := |ops| - 1;
      RunIntegralIff(s, ops[..last]);
      forall n: nat | n <= last
        ensures IntegralAfter(s, ops, n) <==> IntegralAfter(s, ops[..last], n)
        ensures n < last ==> (SafeAt(s, ops, n) <==> SafeAt(s, ops[..last], n))
      {
        PrefixOnly(s, ops, n);
      }
      if IntegralAfter(s, ops, last) {
        LastCall(s, ops);
      }
    }
  }

  /** An operation that returns an error leaves all four maps as they were. */
  lemma ErrorLeavesMaps(s: State, op: Op)
    ensures Apply(s, op).result.Err? ==> Apply(s, op).state == s
  {
  }

  // ----------------------------------------------------------- runs that follow the convention

  /** Every database is stored under its own ident. */
  predicate KeyedByIdent(s: State) {
    forall d :: d in s.databases ==> s.databases[d].ident == d
  }

  /** Lowercase names, entries stored under their own ident, updates to existing volumes, no blind registration. */
  predicate Conventional(s: State, op: Op) {
    match op
    case CreateDatabase(name, database) => database.ident == name && IsLower(name)
    case UpdateDatabase(name, database) => database.ident == name && database.volume in s.volumes
    case CreateSchema(ident, _) => IsLower(ident.database) && IsLower(ident.schema)
    case DeleteSchema(ident, _) => IsLower(ident.database) && IsLower(ident.schema)
    case RegisterTable(_, _) => false
    case _ => true
  }

  lemma ConventionalIsSafe(s: State, op: Op)
    requires KeyedByIdent(s) && Conventional(s, op)
    ensures Safe(s, op) && KeyedByIdent(Apply(s, op).state)
  {
    if op.DeleteVolume? {
      forall d | d in s.databases && s.databases[d].volume == op.name
        ensures d in InUse(s, op.name)
      {
        assert s.databases[d].ident in InUse(s, op.name);
      }
    }
  }

  ghost predicate AllConventional(s: State, ops: seq<Op>) {
    forall n :: 0 <= n < |ops| ==> Conventional(RunOps(s, ops[..n]), ops[n])
  }

  /** Every run that follows the convention stays integral, from the empty metastore on. */
  lemma {:induction false} ConventionalRunsStayIntegral(ops: seq<Op>)
    requires AllConventional(EMPTY, ops)
    ensures Integral(RunOps(EMPTY, ops)) && KeyedByIdent(RunOps(EMPTY, ops))
  {
    if ops != [] {
      var init := ops[..|ops| - 1];
      forall n | 0 <= n < |init|
        ensures Conventional(RunOps(EMPTY, init[..n]), init[n])
      {
        assert init[..n] == ops[..n];
      }
      ConventionalRunsStayIntegral(init);
      assert Conventional(RunOps(EMPTY, ops[..|ops| - 1]), ops[|ops| - 1]);
      ConventionalIsSafe(RunOps(EMPTY, init), ops[|ops| - 1]);
      KeepsIntegrityIff(RunOps(EMPTY, init), ops[|ops| - 1]);
    }
  }

  // -------------------------------------------------------- cascades remove exactly the dependents

  /** Whether an entry depends on a volume, followed through the maps. */
  predicate DatabaseOn(s: State, d: Name, volume: Name) {
    d in s.databases && s.databases[d].volume == volume
  }

  /** A cascade removes the volume and the databases, schemas and tables that depend on it, and nothing else. */
  lemma CascadeRemovesDependents(s: State, name: Name)
    requires Integral(s) && KeyedByIdent(s)
    ensures
      var s' := Apply(s, DeleteVolume(name, true)).state;
      && s'.volumes == s.volumes - {name}
      && s'.databases == (map d | d in s.databases && !DatabaseOn(s, d, name) :: s.databases[d])
      && s'.schemas == (map k | k in s.schemas && !DatabaseOn(s, k.0, name) :: s.schemas[k])
      && s'.tables == (map k | k in s.tables && !DatabaseOn(s, k.0, name) :: s.tables[k])
  {
    forall d
      ensures d in InUse(s, name) <==> DatabaseOn(s, d, name)
    {
      if DatabaseOn(s, d, name) {
        assert s.databases[d].ident in InUse(s, name);
      }
    }
  }

  /** Deleting a schema by its lowercase name with cascade removes it and its tables, and nothing else. */
  lemma DeleteSchemaRemovesDependents(s: State, ident: SchemaIdent)
    requires Integral(s) && IsLower(ident.database) && IsLower(ident.schema)
    ensures
      var s' := Apply(s, DeleteSchema(ident, true)).state;
      && s'.volumes == s.volumes && s'.databases == s.databases
      && s'.schemas == s.schemas - {(ident.database, ident.schema)}
      && s'.tables == (map k | k in s.tables && (k.0, k.1) != (ident.database, ident.schema) :: s.tables[k])
  {
  }

  // ------------------------------------------------------------------- deleting undoes creating

  /** The call that deletes, without cascade, what a successful creation added. */
  function Undo(op: Op): Op
    requires op.CreateVolume? || op.CreateDatabase? || op.CreateSchema? || op.CreateTable?
  {
    match op
    case CreateVolume(name, _) => DeleteVolume(name, false)
    case CreateDatabase(name, _) => DeleteDatabase(name, false)
    case CreateSchema(ident, _) => DeleteSchema(ident, false)
    case CreateTable(ident, _, _, _) => DeleteTable(ident)
  }

  lemma DatabaseUndone(s: State, name: Name, database: Database)
    requires Integral(s) && CreateDatabaseOf(s, name, database).result.Ok?
    ensures DeleteDatabaseOf(CreateDatabaseOf(s, name, database).state, name, false) == Outcome(s, Ok(Done))
  {
    var mid := CreateDatabaseOf(s, name, database).state;
    assert SchemasIn(mid, name) == {};
    assert forall k :: k in s.tables ==> (k.0, k.1) in s.schemas;
    assert WithoutDatabases(mid, {name}) == s;
  }

  lemma SchemaUndone(s: State, ident: SchemaIdent, schema: Schema)
    requires Integral(s) && CreateSchemaOf(s, ident, schema).result.Ok?
    ensures DeleteSchemaOf(CreateSchemaOf(s, ident, schema).state, ident, false) == Outcome(s, Ok(Done))
            <==> TablesIn(s, ident.database, ident.schema) == {}
    ensures IsLower(ident.database) && IsLower(ident.schema) ==> TablesIn(s, ident.database, ident.schema) == {}
  {
    var mid := CreateSchemaOf(s, ident, schema).state;
    assert TablesIn(mid, ident.database, ident.schema) == TablesIn(s, ident.database, ident.schema);
    assert forall k :: k in s.tables ==> (k.0, k.1) in s.schemas;
    assert mid.schemas - {KeyOfSchema(ident)} == s.schemas && mid.tables - {} == s.tables;
  }

  /**
   * From an integral state, deleting without cascade right after creating restores all four maps; for a
   * schema exactly when no table lies under its name as written, which a lowercase name guarantees.
   */
  lemma DeletionUndoesCreation(s: State, op: Op)
    requires Integral(s) && (op.CreateVolume? || op.CreateDatabase? || op.CreateSchema? || op.CreateTable?)
    requires Apply(s, op).result.Ok?
    ensures Apply(Apply(s, op).state, Undo(op)) == Outcome(s, Ok(Done)) <==>
            (op.CreateSchema? ==> TablesIn(s, op.schemaIdent.database, op.schemaIdent.schema) == {})
  {
    var mid := Apply(s, op).state;
    match op
    case CreateVolume(name, _) =>
      NoneInUse(mid, name);
      assert mid.volumes - {name} == s.volumes;
    case CreateDatabase(name, database) => DatabaseUndone(s, name, database);
    case CreateSchema(ident, schema) => SchemaUndone(s, ident, schema);
    case CreateTable(ident, _, _, _) => assert mid.tables - {KeyOfTable(ident)} == s.tables;
  }

  const MIXED := SchemaIdent("db", "S")

  const SETUP := [
    CreateVolume("v", Volume("v", Some(0))), CreateDatabase("db", Database("db", "v")),
    CreateSchema(MIXED, Schema(MIXED)), CreateTable(TableIdent("db", "S", "t"), None, Some(0), true)]

  lemma SetupRuns()
    ensures RunOps(EMPTY, SETUP) == State(
      map["v" := Volume("v", Some(0))], map["db" := Database("db", "v")], map[("db", "s") := Schema(MIXED)],
      map[("db", "s", "t") := Table(TableIdent("db", "S", "t"), Some("v"), 0)])
  {
    assert Lower("S") == "s" && Lower("db") == "db" && Lower("t") == "t";
    assert SETUP[..3][..2] == SETUP[..2] && SETUP[..2][..1] == SETUP[..1] && SETUP[..1][..0] == [];
    var s1 := EMPTY.(volumes := map["v" := Volume("v", Some(0))]);
    assert RunOps(EMPTY, SETUP[..1]) == s1;
    var s2 := s1.(databases := map["db" := Database("db", "v")]);
    assert RunOps(EMPTY, SETUP[..2]) == s2;
    var s3 := s2.(schemas := map[("db", "s") := Schema(MIXED)]);
    assert RunOps(EMPTY, SETUP[..3]) == s3;
  }

  /** A run of four successful calls, then deleting the schema by its mixed-case name leaves its table behind. */
  lemma MixedCaseDeleteOrphansTable()
    ensures
      var s := RunOps(EMPTY, SETUP);
      && Integral(s) && Apply(s, DeleteSchema(MIXED, true)).result.Ok?
      && !Integral(Apply(s, DeleteSchema(MIXED, true)).state)
  {
    SetupRuns();
    var s := RunOps(EMPTY, SETUP);
    assert Lower("S") == "s" && Lower("db") == "db";
    assert ("db", "s", "t") in TablesIn(s, "db", "s");
    DeleteSchemaExact(s, MIXED, true);
  }
}
