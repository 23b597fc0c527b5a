/** The link from a table to the volume it names itself, which deleting a volume does not look at. */
module MetastoreTableVolumes {
  import opened Common
  import opened AsciiCase
  import opened Metastore
  import opened MetastoreIntegrity

  /** A table's own volume, if it names one, exists. */
  predicate Linked(s: State, table: Table) { table.volumeIdent.Some? ==> table.volumeIdent.value in s.volumes }

  predicate TableVolumesExist(s: State) {
    forall k :: k in s.tables ==> Linked(s, s.tables[k])
  }

  predicate LiesOn(s: State, k: TableKey, volume: Name) {
    k in s.tables && s.tables[k].volumeIdent == Some(volume)
  }

  /** The calls that keep the link: a volume is deleted only with the tables on it, and none is registered without. */
  predicate KeepsLinks(s: State, op: Op) {
    match op
    case DeleteVolume(name, cascade) =>
      || (InUse(s, name) != {} && !cascade)
      || name !in s.volumes
      || forall k :: k in s.tables && LiesOn(s, k, name) ==> cascade && k.0 in InUse(s, name)
    case RegisterTable(_, table) => Linked(s, table)
    case _ => true
  }

  lemma DeleteVolumeLinksIff(s: State, name: Name, cascade: bool)
    requires TableVolumesExist(s)
    ensures TableVolumesExist(Apply(s, DeleteVolume(name, cascade)).state)
            <==> KeepsLinks(s, DeleteVolume(name, cascade))
  {
    var s' := Apply(s, DeleteVolume(name, cascade)).state;
    if InUse(s, name) == {} || cascade {
      assert s'.volumes == s.volumes - {name};
      assert forall k :: k in s'.tables <==> k in s.tables && !(cascade && k.0 in InUse(s, name));
      assert forall k :: k in s'.tables ==> s'.tables[k] == s.tables[k];
      if k :| k in s.tables && LiesOn(s, k, name) && !(cascade && k.0 in InUse(s, name)) {
        assert k in s'.tables && !Linked(s', s'.tables[k]);
      }
    }
  }

  lemma RegisterTableLinksIff(s: State, ident: TableIdent, table: Table)
    requires TableVolumesExist(s)
    ensures TableVolumesExist(Apply(s, RegisterTable(ident, table)).state)
            <==> KeepsLinks(s, RegisterTable(ident, table))
  {
    var s' := Apply(s, RegisterTable(ident, table)).state;
    assert s'.tables[KeyOfTable(ident)] == table;
  }

  lemma OthersKeepLinks(s: State, op: Op)
    requires TableVolumesExist(s) && !op.DeleteVolume? && !op.RegisterTable?
    ensures TableVolumesExist(Apply(s, op).state)
  {
  }

  /** A call keeps every table's own volume in place exactly when it meets that condition. */
  lemma KeepsTableVolumesIff(s: State, op: Op)
    requires TableVolumesExist(s)
    ensures TableVolumesExist(Apply(s, op).state) <==> KeepsLinks(s, op)
  {
    match op
    case DeleteVolume(name, cascade) => DeleteVolumeLinksIff(s, name, cascade);
    case RegisterTable(ident, table) => RegisterTableLinksIff(s, ident, table);
    case _ => OthersKeepLinks(s, op);
  }

  const ELSEWHERE := TableIdent("db", "s", "t")
  const PLAIN := SchemaIdent("db", "s")
  const VOLUMES := map["v" := Volume("v", Some(0)), "w" := Volume("w", Some(1))]
  const BARE := State(VOLUMES, map["db" := Database("db", "v")], map[], map[])

  const TWO_VOLUMES := [
    CreateVolume("v", Volume("v", Some(0))), CreateVolume("w", Volume("w", Some(1))),
    CreateDatabase("db", Database("db", "v")), CreateSchema(PLAIN, Schema(PLAIN)),
    CreateTable(ELSEWHERE, Some("w"), Some(0), true)]

  const FILLED := State(VOLUMES, map["db" := Database("db", "v")], map[("db", "s") := Schema(PLAIN)],
                        map[("db", "s", "t") := Table(ELSEWHERE, Some("w"), 0)])

  lemma BareRun()
    ensures RunOps(EMPTY, TWO_VOLUMES[..3]) == BARE
  {
    var ops := TWO_VOLUMES;
    assert ops[..3][..2] == ops[..2] && ops[..2][..1] == ops[..1] && ops[..1][..0] == [];
    assert RunOps(EMPTY, ops[..1]) == EMPTY.(volumes := map["v" := Volume("v", Some(0))]);
    assert RunOps(EMPTY, ops[..2]) == EMPTY.(volumes := VOLUMES);
  }

  lemma TwoVolumesRun()
    ensures RunOps(EMPTY, TWO_VOLUMES) == FILLED
  {
    var ops := TWO_VOLUMES;
    BareRun();
    assert Lower("s") == "s" && Lower("db") == "db" && Lower("t") == "t";
    assert ops[..4][..3] == ops[..3];
    assert RunOps(EMPTY, ops[..4]) == BARE.(schemas := map[("db", "s") := Schema(PLAIN)]);
  }

  lemma VolumeDeleted()
    ensures Apply(FILLED, DeleteVolume("w", false))
            == Outcome(FILLED.(volumes := map["v" := Volume("v", Some(0))]), Ok(Done))
  {
    NoneInUse(FILLED, "w");
    assert VOLUMES - {"w"} == map["v" := Volume("v", Some(0))];
  }

  /**
   * A table on another volume than its database's: deleting that volume without cascade succeeds, referential
   * integrity holds before and after, and the table can no longer be updated.
   */
  lemma DeletedVolumeStrandsTable(metadata: Option<int>, written: bool)
    ensures
      var s := RunOps(EMPTY, TWO_VOLUMES);
      var after := Apply(s, DeleteVolume("w", false));
      && Integral(s) && TableVolumesExist(s) && after.result == Ok(Done) && Integral(after.state)
      && !TableVolumesExist(after.state)
      && Apply(after.state, UpdateTable(ELSEWHERE, metadata, written)).result == Err(TableNotFound(ELSEWHERE))
  {
    TwoVolumesRun();
    VolumeDeleted();
    var after := Apply(FILLED, DeleteVolume("w", false)).state;
    assert Integral(FILLED) && TableVolumesExist(FILLED) && Integral(after);
    assert !Linked(after, after.tables[("db", "s", "t")]);
    CannotUpdate(after, metadata, written);
  }

  lemma CannotUpdate(s: State, metadata: Option<int>, written: bool)
    requires s.tables == FILLED.tables && "w" !in s.volumes
    ensures Apply(s, UpdateTable(ELSEWHERE, metadata, written)).result == Err(TableNotFound(ELSEWHERE))
  {
    assert Lower("s") == "s" && Lower("db") == "db" && Lower("t") == "t";
    assert KeyOfTable(ELSEWHERE) == ("db", "s", "t");
  }
}
