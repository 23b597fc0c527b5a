/**
 * The copy-on-write plan of a MERGE: find the data files that hold a matching row, restrict the
 * target to those files, full-join what is left with the source and project each join row.
 */
module MergePlan {
  import opened Common
  import opened Bags
  import opened SqlExpr
  import opened MergeClauses
  import opened MergeRows
  import opened MergeCase

  const DATA_FILE_PATH := "__data_file_path"
  const MANIFEST_FILE_PATH := "__manifest_file_path"

  /** A stored row of the target table, with the data file and the manifest it is stored under. */
  datatype TargetRow = TargetRow(data: Row, file: string, manifest: string)

  /** A statement: ON condition, clauses, and the data columns of the target table. */
  datatype MergeStatement = MergeStatement(on: Expr, clauses: seq<MergeClause>, columns: seq<string>)

  /** A statement whose clauses plan without error. */
  type Merge = m: MergeStatement | AllOk(m.clauses) witness MergeStatement(Lit(FALSE), [], [])

  /** One projected row handed to the sink: the table columns and the bookkeeping columns. */
  datatype OutRow = OutRow(
    data: Row, file: Value, manifest: Value, present: Value, updated: Value, inserted: Value)

  function Schema(m: Merge): seq<string> {
    m.columns + [DATA_FILE_PATH, MANIFEST_FILE_PATH, TARGET_EXISTS]
  }

  const RESERVED := {DATA_FILE_PATH, MANIFEST_FILE_PATH, TARGET_EXISTS, SOURCE_EXISTS, MERGE_UPDATED, MERGE_INSERTED}

  /** The clauses are planned without error, and neither they nor the table use reserved names. */
  ghost predicate WellPlanned(m: Merge) {
    && AllShaped(m.clauses)
    && (forall c :: c in m.columns ==> c !in RESERVED)
    && (forall i, c :: 0 <= i < |m.clauses| && c in RESERVED ==> !Names(m.clauses[i], c))
  }

  ghost predicate Stored(m: Merge, t: TargetRow) {
    && t.data.Keys == (set c | c in m.columns)
    && t.file != ""
  }

  /** A data file belongs to one manifest. */
  ghost predicate OneManifestPerFile(target: seq<TargetRow>) {
    forall t, u :: t in target && u in target && t.file == u.file ==> t.manifest == u.manifest
  }

  ghost predicate AllStored(m: Merge, target: seq<TargetRow>) {
    forall t :: t in target ==> Stored(m, t)
  }

  // ------------------------------------------------------------------------------------- joins

  function TargetSide(t: TargetRow): Row {
    t.data[DATA_FILE_PATH := Text(t.file)][MANIFEST_FILE_PATH := Text(t.manifest)][TARGET_EXISTS := TRUE]
  }

  function SourceSide(s: Row): Row {
    s[SOURCE_EXISTS := TRUE]
  }

  function Both(t: TargetRow, s: Row): JoinRow { JoinRow(TargetSide(t), SourceSide(s)) }

  function TargetOnly(t: TargetRow): JoinRow { JoinRow(TargetSide(t), map[]) }

  function SourceOnly(s: Row): JoinRow { JoinRow(map[], SourceSide(s)) }

  predicate Matches(on: Expr, t: TargetRow, s: Row) {
    Eval(on, Both(t, s)) == TRUE
  }

  function MatchesOf(on: Expr, t: TargetRow, source: seq<Row>): seq<Row> {
    Filter((s: Row) => Matches(on, t, s), source)
  }

  predicate Unmatched(on: Expr, target: seq<TargetRow>, s: Row) {
    forall t :: t in target ==> !Matches(on, t, s)
  }

  function JoinRowsOf(on: Expr, t: TargetRow, source: seq<Row>): seq<JoinRow> {
    var matches := MatchesOf(on, t, source);
    if matches == [] then [TargetOnly(t)] else Map((s: Row) => Both(t, s), matches)
  }

  function UnmatchedSource(on: Expr, target: seq<TargetRow>, source: seq<Row>): seq<Row> {
    Filter((s: Row) => Unmatched(on, target, s), source)
  }

  /** Every matching pair, every target row without a match, every source row without a match. */
  function FullJoin(on: Expr, target: seq<TargetRow>, source: seq<Row>): seq<JoinRow> {
    FlatMap((t: TargetRow) => JoinRowsOf(on, t, source), target)
    + Map((s: Row) => SourceOnly(s), UnmatchedSource(on, target, source))
  }

  /** The inner join grouped by data file: the files that hold at least one matching row. */
  function AffectedFiles(on: Expr, target: seq<TargetRow>, source: seq<Row>): set<string> {
    set t | t in target && MatchesOf(on, t, source) != [] :: t.file
  }

  /** The file holds a row that some source row joins. */
  ghost predicate HoldsMatch(on: Expr, target: seq<TargetRow>, source: seq<Row>, file: string) {
    exists t, s :: t in target && s in source && t.file == file && Eval(on, Both(t, s)) == Bool(true)
  }

  lemma AffectedIff(on: Expr, target: seq<TargetRow>, source: seq<Row>, file: string)
    ensures file in AffectedFiles(on, target, source) <==> HoldsMatch(on, target, source, file)
  {
    forall t | t in target
      ensures MatchesOf(on, t, source) != [] <==> exists s :: s in source && Eval(on, Both(t, s)) == Bool(true)
    {
      var matches := MatchesOf(on, t, source);
      if matches != [] {
        assert matches[0] in source && Matches(on, t, matches[0]);
      }
      if s :| s in source && Eval(on, Both(t, s)) == Bool(true) {
        assert s in matches;
      }
    }
  }

  function InFiles(target: seq<TargetRow>, files: set<string>): seq<TargetRow> {
    Filter((t: TargetRow) => t.file in files, target)
  }

  function OutsideFiles(target: seq<TargetRow>, files: set<string>): seq<TargetRow> {
    Filter((t: TargetRow) => t.file !in files, target)
  }

  // -------------------------------------------------------------------------------- projection

  function Project(m: Merge, row: JoinRow): OutRow
  {
    OutRow(
      map c | c in m.columns :: Eval(ColumnExpr(m.clauses, Schema(m), c), row),
      Eval(ColumnExpr(m.clauses, Schema(m), DATA_FILE_PATH), row),
      Eval(ColumnExpr(m.clauses, Schema(m), MANIFEST_FILE_PATH), row),
      Eval(ColumnExpr(m.clauses, Schema(m), TARGET_EXISTS), row),
      UpdatedFlag(m.clauses, row),
      InsertedFlag(m.clauses, row))
  }

  function ProjectAll(m: Merge, rows: seq<JoinRow>): seq<OutRow>
  {
    Map((row: JoinRow) => Project(m, row), rows)
  }

  // ------------------------------------------------------------ what the projection does per row

  lemma JoinRowsFlagged(t: TargetRow, s: Row)
    ensures Flagged(Both(t, s)) && TargetPresent(Both(t, s)) && SourcePresent(Both(t, s))
    ensures Flagged(TargetOnly(t)) && TargetPresent(TargetOnly(t)) && !SourcePresent(TargetOnly(t))
    ensures Flagged(SourceOnly(s)) && !TargetPresent(SourceOnly(s)) && SourcePresent(SourceOnly(s))
  {
  }

  /** A join row reads the target row and the source row it was made of, and NULL on a padded side. */
  lemma JoinRowReads(t: TargetRow, s: Row, column: string)
    requires column !in RESERVED
    ensures Lookup(Both(t, s).target, column) == Lookup(TargetOnly(t).target, column) == Lookup(t.data, column)
    ensures Lookup(Both(t, s).source, column) == Lookup(SourceOnly(s).source, column) == Lookup(s, column)
    ensures Lookup(SourceOnly(s).target, column) == Lookup(TargetOnly(t).source, column) == Null
  {
  }

  /** A pair whose ON condition is FALSE or unknown joins nothing: the target row and the source row stay alone. */
  lemma OnlyTrueJoins(on: Expr, t: TargetRow, s: Row)
    ensures FullJoin(on, [t], [s])
            == if Eval(on, Both(t, s)) == Bool(true) then [Both(t, s)] else [TargetOnly(t), SourceOnly(s)]
    ensures Eval(on, Both(t, s)) == Null ==> FullJoin(on, [t], [s]) == [TargetOnly(t), SourceOnly(s)]
  {
    var matches := (s: Row) => Matches(on, t, s);
    assert Filter(matches, [s]) == if Matches(on, t, s) then [s] else [];
    assert Unmatched(on, [t], s) <==> !Matches(on, t, s);
    assert UnmatchedSource(on, [t], [s]) == if Matches(on, t, s) then [] else [s];
    assert FlatMap((t: TargetRow) => JoinRowsOf(on, t, [s]), [t]) == JoinRowsOf(on, t, [s]);
  }

  /** The planned projection, read by name: the table's columns, then the file, the manifest and the two flags. */
  lemma ProjectionMakesOutRow(m: Merge, row: JoinRow, i: nat)
    requires AllShaped(m.clauses) && Flagged(row) && i < |Projection(m.clauses, Schema(m))|
    ensures
      var (name, e) := Projection(m.clauses, Schema(m))[i];
      var n := |m.columns|;
      && (i < n ==> name == m.columns[i] && Eval(e, row) == Project(m, row).data[name])
      && (i == n ==> name == "__data_file_path" && Eval(e, row) == Project(m, row).file)
      && (i == n + 1 ==> name == "__manifest_file_path" && Eval(e, row) == Project(m, row).manifest)
      && (i == n + 2 ==> name == "__target_exists" && Eval(e, row) == Project(m, row).present)
      && (i == n + 3 ==> name == "__source_exists" && Eval(e, row) == Lookup(row.source, "__source_exists"))
      && (i == n + 4 ==> name == "__merge_row_updated" && (Eval(e, row) == TRUE <==> SomeFires(m.clauses, row, true)))
      && (i == n + 5 ==> name == "__merge_row_inserted" && (Eval(e, row) == TRUE <==> SomeFires(m.clauses, row, false)))
      && i < n + 6
  {
    FlagsMeanFires(m.clauses, row);
  }

  /** A target row without a match goes through unchanged and unflagged. */
  lemma TargetOnlyUnchanged(m: Merge, t: TargetRow)
    requires WellPlanned(m) && Stored(m, t)
    ensures Project(m, TargetOnly(t)).data == t.data
    ensures Project(m, TargetOnly(t)).updated != TRUE && Project(m, TargetOnly(t)).inserted != TRUE
  {
    forall c | c in m.columns
      ensures Eval(ColumnExpr(m.clauses, Schema(m), c), TargetOnly(t)) == t.data[c]
    {
      UntouchedColumn(m, t, c);
    }
    UntouchedFlags(m, t);
  }

  lemma UntouchedFlags(m: Merge, t: TargetRow)
    requires WellPlanned(m)
    ensures UpdatedFlag(m.clauses, TargetOnly(t)) != TRUE && InsertedFlag(m.clauses, TargetOnly(t)) != TRUE
  {
    JoinRowsFlagged(t, map[]);
    FlagsMeanFires(m.clauses, TargetOnly(t));
  }

  lemma UntouchedColumn(m: Merge, t: TargetRow, c: string)
    requires WellPlanned(m) && Stored(m, t) && c in m.columns
    ensures Eval(ColumnExpr(m.clauses, Schema(m), c), TargetOnly(t)) == t.data[c]
  {
    var row := TargetOnly(t);
    JoinRowsFlagged(t, map[]);
    ColumnExprMeaning(m.clauses, Schema(m), row, c);
    NoPickUnlessFires(m.clauses, row, c);
    assert c in t.data && Lookup(row.target, c) == t.data[c];
  }

  /** A reserved column no clause names keeps the stored value, and is NULL where padded. */
  lemma ReservedColumnKept(m: Merge, row: JoinRow, c: string)
    requires WellPlanned(m) && Flagged(row) && c in {DATA_FILE_PATH, MANIFEST_FILE_PATH, TARGET_EXISTS}
    requires TargetPresent(row) || Lookup(row.target, c) == Null
    ensures Eval(ColumnExpr(m.clauses, Schema(m), c), row) == Lookup(row.target, c)
  {
    ColumnExprMeaning(m.clauses, Schema(m), row, c);
    NoInsertNamesGivesNull(m.clauses, row, c);
    NeverNamedNeverUpdated(m.clauses, row, c);
    NoPickUnlessFires(m.clauses, row, c);
  }

  lemma {:induction false} NeverNamedNeverUpdated(clauses: seq<MergeClause>, row: JoinRow, c: string)
    requires AllOk(clauses) && forall i :: 0 <= i < |clauses| ==> !Names(clauses[i], c)
    ensures UpdatePick(clauses, row, c) == None
  {
    if clauses != [] {
      var init := clauses[..|clauses| - 1];
      assert forall i :: 0 <= i < |init| ==> init[i] == clauses[i];
      NeverNamedNeverUpdated(init, row, c);
    }
  }

  /** Projected rows carry their own data file, and none when they come from the source alone. */
  lemma ProjectedFile(m: Merge, t: TargetRow, s: Row)
    requires WellPlanned(m)
    ensures Project(m, Both(t, s)).file == Text(t.file) && Project(m, Both(t, s)).manifest == Text(t.manifest)
    ensures Project(m, TargetOnly(t)).file == Text(t.file) && Project(m, TargetOnly(t)).manifest == Text(t.manifest)
    ensures Project(m, SourceOnly(s)).file == Null && Project(m, SourceOnly(s)).manifest == Null
  {
    JoinRowsFlagged(t, s);
    ReservedColumnKept(m, Both(t, s), DATA_FILE_PATH);
    ReservedColumnKept(m, Both(t, s), MANIFEST_FILE_PATH);
    ReservedColumnKept(m, TargetOnly(t), DATA_FILE_PATH);
    ReservedColumnKept(m, TargetOnly(t), MANIFEST_FILE_PATH);
    ReservedColumnKept(m, SourceOnly(s), DATA_FILE_PATH);
    ReservedColumnKept(m, SourceOnly(s), MANIFEST_FILE_PATH);
  }

  /** The existence column reaches the sink TRUE on rows of the target and NULL on added rows. */
  lemma ProjectedPresence(m: Merge, t: TargetRow, s: Row)
    requires WellPlanned(m)
    ensures Project(m, Both(t, s)).present == TRUE && Project(m, TargetOnly(t)).present == TRUE
    ensures Project(m, SourceOnly(s)).present == Null
  {
    JoinRowsFlagged(t, s);
    ReservedColumnKept(m, Both(t, s), TARGET_EXISTS);
    ReservedColumnKept(m, TargetOnly(t), TARGET_EXISTS);
    ReservedColumnKept(m, SourceOnly(s), TARGET_EXISTS);
  }

  // ---------------------------------------------------------------------------- pruning is sound

  /** Any set of files that covers every match may be used to prune. */
  ghost predicate Covers(on: Expr, target: seq<TargetRow>, source: seq<Row>, files: set<string>) {
    forall t :: t in target && MatchesOf(on, t, source) != [] ==> t.file in files
  }

  lemma PruningKeepsUnmatchedSource(on: Expr, target: seq<TargetRow>, source: seq<Row>, files: set<string>)
    requires Covers(on, target, source, files)
    ensures UnmatchedSource(on, InFiles(target, files), source) == UnmatchedSource(on, target, source)
  {
    var kept := InFiles(target, files);
    forall s | s in source
      ensures Unmatched(on, kept, s) == Unmatched(on, target, s)
    {
      if t :| t in target && Matches(on, t, s) {
        assert s in MatchesOf(on, t, source);
        assert t in kept;
      }
    }
    FilterCongruent((s: Row) => Unmatched(on, kept, s), (s: Row) => Unmatched(on, target, s), source);
  }

  /** Pruned full join plus the untouched rows is the full join of the whole target, as bags. */
  lemma PrunedFullJoin(on: Expr, target: seq<TargetRow>, source: seq<Row>, files: set<string>)
    requires Covers(on, target, source, files)
    ensures multiset(FullJoin(on, target, source))
            == multiset(FullJoin(on, InFiles(target, files), source)
                        + Map((t: TargetRow) => TargetOnly(t), OutsideFiles(target, files)))
  {
    var rows := (t: TargetRow) => JoinRowsOf(on, t, source);
    var only := (t: TargetRow) => TargetOnly(t);
    var kept, rest := InFiles(target, files), OutsideFiles(target, files);
    FlatMapPartition(rows, (t: TargetRow) => t.file in files, (t: TargetRow) => t.file !in files, target);
    assert forall t :: t in rest ==> rows(t) == [only(t)];
    FlatMapSingletons(rows, only, rest);
    PruningKeepsUnmatchedSource(on, target, source, files);
    var tail := Map((s: Row) => SourceOnly(s), UnmatchedSource(on, target, source));
    assert FullJoin(on, target, source) == FlatMap(rows, target) + tail;
    assert FullJoin(on, kept, source) == FlatMap(rows, kept) + tail;
    SwapTail(FlatMap(rows, target), FlatMap(rows, kept), Map(only, rest), tail);
  }

  lemma SwapTail<A>(whole: seq<A>, a: seq<A>, b: seq<A>, tail: seq<A>)
    requires multiset(whole) == multiset(a) + multiset(b)
    ensures multiset(whole + tail) == multiset((a + tail) + b)
  {
  }

  function DataOf(out: seq<OutRow>): seq<Row> {
    Map((o: OutRow) => o.data, out)
  }

  function StoredData(target: seq<TargetRow>): seq<Row> {
    Map((t: TargetRow) => t.data, target)
  }

  /**
   * Projecting the join of only the affected files and keeping the rows of all other files is the
   * same bag of rows as projecting the join of the whole target.
   */
  lemma PrunedMergeIsWholeMerge(m: Merge, target: seq<TargetRow>, source: seq<Row>)
    requires WellPlanned(m) && AllStored(m, target)
    ensures
      var files := AffectedFiles(m.on, target, source);
      multiset(DataOf(ProjectAll(m, FullJoin(m.on, target, source))))
      == multiset(DataOf(ProjectAll(m, FullJoin(m.on, InFiles(target, files), source))))
         + multiset(StoredData(OutsideFiles(target, files)))
  {
    var files := AffectedFiles(m.on, target, source);
    var kept, rest := InFiles(target, files), OutsideFiles(target, files);
    var only := (t: TargetRow) => TargetOnly(t);
    var data := (row: JoinRow) => Project(m, row).data;
    PrunedFullJoin(m.on, target, source, files);
    var whole, pruned := FullJoin(m.on, target, source), FullJoin(m.on, kept, source);
    PermMap(data, whole, pruned + Map(only, rest));
    MapConcat(data, pruned, Map(only, rest));
    DataOfProjection(m, whole);
    DataOfProjection(m, pruned);
    forall t | t in rest
      ensures data(only(t)) == t.data
    {
      TargetOnlyUnchanged(m, t);
    }
    MapMap(data, only, (t: TargetRow) => t.data, rest);
  }

  lemma DataOfProjection(m: Merge, rows: seq<JoinRow>)
    ensures DataOf(ProjectAll(m, rows)) == Map((row: JoinRow) => Project(m, row).data, rows)
  {
  }
}
