/**
 * A whole MERGE statement: what table the plan and the sink commit, for any order and batching of
 * the joined rows, against merging row by row into the whole target.
 */
module MergeEndToEnd {
  import opened Common
  import opened Bags
  import opened SqlExpr
  import opened MergeClauses
  import opened MergeRows
  import opened MergeCase
  import opened MergeShape
  import opened MergePlan
  import opened MergeSink

  function PrunedJoin(m: Merge, target: seq<TargetRow>, source: seq<Row>): seq<JoinRow> {
    FullJoin(m.on, InFiles(target, AffectedFiles(m.on, target, source)), source)
  }

  /** The sink's input is the projected pruned join in some order. */
  ghost predicate Produces(m: Merge, target: seq<TargetRow>, source: seq<Row>, out: seq<OutRow>)
  {
    multiset(out) == multiset(ProjectAll(m, PrunedJoin(m, target, source)))
  }

  // --------------------------------------------------------- the sink replaces the affected files

  lemma JoinRowOrigin(on: Expr, target: seq<TargetRow>, source: seq<Row>, row: JoinRow)
    requires row in FullJoin(on, target, source)
    ensures (exists t :: t in target && (row == TargetOnly(t) || exists s: Row :: row == Both(t, s)))
            || (exists s: Row :: row == SourceOnly(s))
  {
    var rows := (t: TargetRow) => JoinRowsOf(on, t, source);
    if row in FlatMap(rows, target) {
      var t := InFlatMap(rows, target, row);
      if MatchesOf(on, t, source) != [] {
        var i :| 0 <= i < |rows(t)| && rows(t)[i] == row;
        assert row == Both(t, MatchesOf(on, t, source)[i]);
      }
    } else {
      var unmatched := UnmatchedSource(on, target, source);
      var tail := Map((s: Row) => SourceOnly(s), unmatched);
      assert row in tail;
      var i :| 0 <= i < |tail| && tail[i] == row;
      assert row == SourceOnly(unmatched[i]);
    }
  }

  lemma {:induction false} InFlatMap<A, B>(f: A -> seq<B>, xs: seq<A>, y: B) returns (x: A)
    requires y in FlatMap(f, xs)
    ensures x in xs && y in f(x)
  {
    if y in f(xs[0]) {
      x := xs[0];
    } else {
      x := InFlatMap(f, xs[1..], y);
    }
  }

  lemma {:induction false} FlatMapHas<A, B>(f: A -> seq<B>, xs: seq<A>, x: A, y: B)
    requires x in xs && y in f(x)
    ensures y in FlatMap(f, xs)
  {
    if x != xs[0] {
      FlatMapHas(f, xs[1..], x, y);
    }
  }

  lemma OutRowOrigin(m: Merge, target: seq<TargetRow>, source: seq<Row>, out: seq<OutRow>, o: OutRow)
    returns (row: JoinRow)
    requires Produces(m, target, source, out) && o in out
    ensures row in PrunedJoin(m, target, source) && Project(m, row) == o
  {
    var rows := PrunedJoin(m, target, source);
    assert o in multiset(ProjectAll(m, rows));
    var i :| 0 <= i < |rows| && ProjectAll(m, rows)[i] == o;
    row := rows[i];
  }

  /** An output row carries the file and manifest of a pruned target row, or neither. */
  lemma OutRowPlace(m: Merge, target: seq<TargetRow>, source: seq<Row>, out: seq<OutRow>, o: OutRow)
    requires WellPlanned(m) && Produces(m, target, source, out) && o in out
    ensures (o.file == Null && o.manifest == Null) || PlacedBy(InFiles(target, AffectedFiles(m.on, target, source)), o)
  {
    var row := OutRowOrigin(m, target, source, out, o);
    var kept := InFiles(target, AffectedFiles(m.on, target, source));
    JoinRowOrigin(m.on, kept, source, row);
    if t :| t in kept && (row == TargetOnly(t) || exists s: Row :: row == Both(t, s)) {
      if row == TargetOnly(t) {
        ProjectedFile(m, t, map[]);
      } else {
        var s: Row :| row == Both(t, s);
        ProjectedFile(m, t, s);
      }
    } else {
      var s: Row :| row == SourceOnly(s);
      ProjectedFile(m, TargetRow(map[], "", ""), s);
    }
  }

  ghost predicate PlacedBy(kept: seq<TargetRow>, o: OutRow) {
    exists t :: t in kept && o.file == Text(t.file) && o.manifest == Text(t.manifest)
  }

  /** Every output row that names a data file names its manifest too. */
  lemma OutputTraceable(m: Merge, target: seq<TargetRow>, source: seq<Row>, out: seq<OutRow>)
    requires WellPlanned(m) && Produces(m, target, source, out)
    ensures Traceable(out)
  {
    forall i | 0 <= i < |out| && out[i].file.Text?
      ensures out[i].manifest.Text?
    {
      OutRowPlace(m, target, source, out, out[i]);
    }
  }

  /** Output rows agree on a file's manifest when the target does. */
  lemma OutputOneManifest(m: Merge, target: seq<TargetRow>, source: seq<Row>, out: seq<OutRow>)
    requires WellPlanned(m) && Produces(m, target, source, out) && OneManifestPerFile(target)
    ensures OneManifest(out)
  {
    var kept := InFiles(target, AffectedFiles(m.on, target, source));
    forall i, j | 0 <= i < |out| && 0 <= j < |out| && out[i].file.Text? && out[i].file == out[j].file
      ensures out[i].manifest == out[j].manifest
    {
      OutRowPlace(m, target, source, out, out[i]);
      OutRowPlace(m, target, source, out, out[j]);
      var t :| t in kept && out[i].file == Text(t.file) && out[i].manifest == Text(t.manifest);
      var u :| u in kept && out[j].file == Text(u.file) && out[j].manifest == Text(u.manifest);
      assert t in target && u in target && t.file == u.file;
    }
  }

  /** Every row of an affected file reaches the sink with its file and manifest. */
  lemma KeptRowIsOutput(m: Merge, target: seq<TargetRow>, source: seq<Row>, out: seq<OutRow>, t: TargetRow)
    requires WellPlanned(m) && Produces(m, target, source, out)
    requires t in InFiles(target, AffectedFiles(m.on, target, source)) && t.file != ""
    ensures Carried(out, t.file, t.manifest)
  {
    var rows := (x: TargetRow) => JoinRowsOf(m.on, x, source);
    var kept := InFiles(target, AffectedFiles(m.on, target, source));
    var row := rows(t)[0];
    FlatMapHas(rows, kept, t, row);
    var join := PrunedJoin(m, target, source);
    assert row in join;
    var i :| 0 <= i < |join| && join[i] == row;
    assert ProjectAll(m, join)[i] == Project(m, row);
    FirstRowPlace(m, source, t);
    assert Project(m, row) in multiset(out);
    var j := FindIn(Project(m, row), out);
    assert out[j].file == Text(t.file) && out[j].manifest == Text(t.manifest);
  }

  lemma FirstRowPlace(m: Merge, source: seq<Row>, t: TargetRow)
    requires WellPlanned(m)
    ensures
      var o := Project(m, JoinRowsOf(m.on, t, source)[0]);
      o.file == Text(t.file) && o.manifest == Text(t.manifest)
  {
    var matches := MatchesOf(m.on, t, source);
    ProjectedFile(m, t, if matches == [] then map[] else matches[0]);
  }

  /** The sink finds a target row's file and manifest in its input exactly when its file holds a matching row. */
  lemma SinkFindsAffectedFiles(m: Merge, target: seq<TargetRow>, source: seq<Row>, out: seq<OutRow>, t: TargetRow)
    requires WellPlanned(m) && AllStored(m, target) && Produces(m, target, source, out) && t in target
    ensures Carried(out, t.file, t.manifest) <==> t.file in AffectedFiles(m.on, target, source)
    ensures Carried(out, t.file, t.manifest) <==> HoldsMatch(m.on, target, source, t.file)
  {
    AffectedIff(m.on, target, source, t.file);
    if Carried(out, t.file, t.manifest) {
      var i :| 0 <= i < |out| && out[i].file == Text(t.file) && out[i].manifest == Text(t.manifest);
      OutRowPlace(m, target, source, out, out[i]);
    }
    if t.file in AffectedFiles(m.on, target, source) {
      assert Stored(m, t);
      KeptRowIsOutput(m, target, source, out, t);
    }
  }

  // --------------------------------------------------------- copy-on-write is the whole-table merge

  lemma CommittedSplit(m: Merge, target: seq<TargetRow>, source: seq<Row>, out: seq<OutRow>)
    requires WellPlanned(m) && AllStored(m, target) && Produces(m, target, source, out)
    ensures Committed(target, out)
            == StoredData(OutsideFiles(target, AffectedFiles(m.on, target, source))) + DataOf(out)
  {
    var files := AffectedFiles(m.on, target, source);
    var survives := (t: TargetRow) => !Carried(out, t.file, t.manifest);
    forall t | t in target
      ensures survives(t) == (t.file !in files)
    {
      SinkFindsAffectedFiles(m, target, source, out, t);
    }
    FilterCongruent(survives, (t: TargetRow) => t.file !in files, target);
    if out == [] {
      FilterAll(survives, target);
    }
  }

  /** The committed table is the projected full join of the whole target with the source. */
  lemma CommittedIsWholeMerge(m: Merge, target: seq<TargetRow>, source: seq<Row>, out: seq<OutRow>)
    requires WellPlanned(m) && AllStored(m, target) && Produces(m, target, source, out)
    ensures multiset(Committed(target, out)) == multiset(DataOf(ProjectAll(m, FullJoin(m.on, target, source))))
  {
    CommittedSplit(m, target, source, out);
    PrunedMergeIsWholeMerge(m, target, source);
    PermMap((o: OutRow) => o.data, out, ProjectAll(m, PrunedJoin(m, target, source)));
  }

  lemma {:induction false} BatchesTraceable(batches: seq<seq<OutRow>>)
    requires Traceable(Concat(batches))
    ensures AllTraceable(batches)
  {
    if batches != [] {
      var init, last := batches[..|batches| - 1], batches[|batches| - 1];
      assert forall i :: 0 <= i < |last| ==> Concat(batches)[|Concat(init)| + i] == last[i];
      assert forall i :: 0 <= i < |Concat(init)| ==> Concat(batches)[i] == Concat(init)[i];
      BatchesTraceable(init);
      assert forall i :: 0 <= i < |init| ==> batches[i] == init[i];
    }
  }

  /** What the sink commits, for every batching of the joined rows, is the table the statement means. */
  lemma SinkCommits(m: Merge, target: seq<TargetRow>, source: seq<Row>, batches: seq<seq<OutRow>>)
    requires WellPlanned(m) && OneManifestPerFile(target) && Produces(m, target, source, Concat(batches))
    ensures Replaced(target, Concat(batches), Collected(batches)) == Committed(target, Concat(batches))
  {
    OutputTraceable(m, target, source, Concat(batches));
    OutputOneManifest(m, target, source, Concat(batches));
    BatchesTraceable(batches);
    ReplacedIsCommitted(target, batches);
  }

  // -------------------------------------------------------------------------- the standard reading

  /** The row the first clause that fires makes of a join row. */
  function NewRow(m: Merge, row: JoinRow): Row
  {
    map c | c in m.columns :: NewValue(m.clauses, row, c)
  }

  /** A target row after the merge: its first match decides, and with no match it is kept. */
  function MergedTarget(m: Merge, source: seq<Row>, t: TargetRow): Row
  {
    var matches := MatchesOf(m.on, t, source);
    if matches == [] then t.data else NewRow(m, Both(t, matches[0]))
  }

  predicate InsertFires(m: Merge, s: Row) {
    SomeFires(m.clauses, SourceOnly(s), false)
  }

  /** One row per target row, and one per unmatched source row for which an INSERT clause fires. */
  function StandardMerge(m: Merge, target: seq<TargetRow>, source: seq<Row>): seq<Row>
  {
    Map(MergedFn(m, source), target)
    + Map(AddedFn(m),
          Filter((s: Row) => Unmatched(m.on, target, s) && InsertFires(m, s), source))
  }

  ghost predicate ExactRow(m: Merge, row: JoinRow) {
    forall c :: c in m.columns ==> RowExact(m.clauses, row, c)
  }

  /** On every matching pair and every unmatched source row, per-column CASE follows the first clause that fires. */
  ghost predicate ExactOnJoin(m: Merge, target: seq<TargetRow>, source: seq<Row>)
  {
    && (forall t, s :: t in target && s in source && Matches(m.on, t, s) ==> ExactRow(m, Both(t, s)))
    && (forall s :: s in source && Unmatched(m.on, target, s) ==> ExactRow(m, SourceOnly(s)))
  }

  /** Exact column lists make every join exact, whatever the guards, values and rows. */
  lemma ExactListsSuffice(m: Merge, target: seq<TargetRow>, source: seq<Row>)
    requires WellPlanned(m) && forall c :: c in m.columns ==> UpdateExact(m.clauses, c) && InsertExact(m.clauses, c)
    ensures ExactOnJoin(m, target, source)
  {
    forall row: JoinRow
      ensures ExactRow(m, row)
    {
      forall c | c in m.columns
        ensures RowExact(m.clauses, row, c)
      {
        ShapeIsRowExact(m.clauses, row, c);
      }
    }
  }

  ghost predicate OneFires(m: Merge, row: JoinRow) {
    forall i, j :: 0 <= i < j < |m.clauses| ==> !(Fires(m.clauses[i], row) && Fires(m.clauses[j], row))
  }

  /** So do UPDATE clauses of which at most one fires on each matching pair, with exact INSERT lists. */
  lemma OneUpdatePerPairSuffices(m: Merge, target: seq<TargetRow>, source: seq<Row>)
    requires WellPlanned(m) && forall c :: c in m.columns ==> InsertExact(m.clauses, c)
    requires forall t, s :: t in target && s in source && Matches(m.on, t, s) ==> OneFires(m, Both(t, s))
    ensures ExactOnJoin(m, target, source)
  {
    forall t, s | t in target && s in source && Matches(m.on, t, s)
      ensures ExactRow(m, Both(t, s))
    {
      JoinRowsFlagged(t, s);
      assert OneFires(m, Both(t, s));
      forall c | c in m.columns
        ensures RowExact(m.clauses, Both(t, s), c)
      {
        OneUpdateFiresIsExact(m.clauses, Both(t, s), c);
      }
    }
    forall s: Row
      ensures ExactRow(m, SourceOnly(s))
    {
      JoinRowsFlagged(TargetRow(map[], "", ""), s);
      forall c | c in m.columns
        ensures RowExact(m.clauses, SourceOnly(s), c)
      {
        SourceRowExact(m.clauses, SourceOnly(s), c);
      }
    }
  }

  ghost predicate AtMostOneMatch(m: Merge, target: seq<TargetRow>, source: seq<Row>) {
    forall t :: t in target ==> |MatchesOf(m.on, t, source)| <= 1
  }

  ghost predicate EveryUnmatchedInserts(m: Merge, target: seq<TargetRow>, source: seq<Row>) {
    forall s :: s in source && Unmatched(m.on, target, s) ==> InsertFires(m, s)
  }

  lemma ProjectIsNewRow(m: Merge, row: JoinRow)
    requires WellPlanned(m) && ExactRow(m, row) && Flagged(row)
    requires forall c :: c in m.columns ==> PaddedAt(row, c)
    ensures Project(m, row).data == NewRow(m, row)
  {
    forall c | c in m.columns
      ensures Eval(ColumnExpr(m.clauses, Schema(m), c), row) == NewValue(m.clauses, row, c)
    {
      ExactColumnAgrees(m.clauses, Schema(m), row, c);
    }
  }

  function DataFn(m: Merge): JoinRow -> Row { (row: JoinRow) => Project(m, row).data }

  function RowsFn(on: Expr, source: seq<Row>): TargetRow -> seq<JoinRow> { (t: TargetRow) => JoinRowsOf(on, t, source) }

  function OnlyFn(): Row -> JoinRow { (s: Row) => SourceOnly(s) }

  function MadeFn(m: Merge, source: seq<Row>): TargetRow -> seq<Row> { (t: TargetRow) => DataOfTarget(m, source, t) }

  function MergedFn(m: Merge, source: seq<Row>): TargetRow -> Row { (t: TargetRow) => MergedTarget(m, source, t) }

  function AddedFn(m: Merge): Row -> Row { (s: Row) => NewRow(m, SourceOnly(s)) }

  lemma TargetPartData(m: Merge, target: seq<TargetRow>, source: seq<Row>)
    ensures Map(DataFn(m), FlatMap(RowsFn(m.on, source), target)) == FlatMap(MadeFn(m, source), target)
  {
    forall t | t in target
      ensures Map(DataFn(m), RowsFn(m.on, source)(t)) == MadeFn(m, source)(t)
    {
    }
    MapFlatMap(DataFn(m), RowsFn(m.on, source), MadeFn(m, source), target);
  }

  lemma SourcePartData(m: Merge, rows: seq<Row>)
    requires WellPlanned(m) && forall s :: s in rows ==> ExactRow(m, SourceOnly(s))
    ensures Map(DataFn(m), Map(OnlyFn(), rows)) == Map(AddedFn(m), rows)
  {
    forall s | s in rows
      ensures DataFn(m)(OnlyFn()(s)) == AddedFn(m)(s)
    {
      AddedRowData(m, s);
    }
    MapMap(DataFn(m), OnlyFn(), AddedFn(m), rows);
  }

  lemma AddedRowData(m: Merge, s: Row)
    requires WellPlanned(m) && ExactRow(m, SourceOnly(s))
    ensures Project(m, SourceOnly(s)).data == NewRow(m, SourceOnly(s))
  {
    JoinRowsFlagged(TargetRow(map[], "", ""), s);
    ProjectIsNewRow(m, SourceOnly(s));
  }

  /** The committed data: flattened per target row, then one row per unmatched source row. */
  lemma JoinData(m: Merge, target: seq<TargetRow>, source: seq<Row>)
    ensures
      DataOf(ProjectAll(m, FullJoin(m.on, target, source)))
      == FlatMap(MadeFn(m, source), target) + Map(DataFn(m), Map(OnlyFn(), UnmatchedSource(m.on, target, source)))
  {
    var unmatched := UnmatchedSource(m.on, target, source);
    DataOfProjection(m, FullJoin(m.on, target, source));
    assert FullJoin(m.on, target, source) == FlatMap(RowsFn(m.on, source), target) + Map(OnlyFn(), unmatched);
    MapConcat(DataFn(m), FlatMap(RowsFn(m.on, source), target), Map(OnlyFn(), unmatched));
    TargetPartData(m, target, source);
  }

  lemma WholeMergeData(m: Merge, target: seq<TargetRow>, source: seq<Row>)
    requires WellPlanned(m) && ExactOnJoin(m, target, source)
    ensures
      DataOf(ProjectAll(m, FullJoin(m.on, target, source)))
      == FlatMap(MadeFn(m, source), target) + Map(AddedFn(m), UnmatchedSource(m.on, target, source))
  {
    JoinData(m, target, source);
    SourcePartData(m, UnmatchedSource(m.on, target, source));
  }

  function DataOfTarget(m: Merge, source: seq<Row>, t: TargetRow): seq<Row>
  {
    Map((row: JoinRow) => Project(m, row).data, JoinRowsOf(m.on, t, source))
  }

  lemma SingleMatchMerges(m: Merge, source: seq<Row>, t: TargetRow)
    requires WellPlanned(m) && Stored(m, t) && |MatchesOf(m.on, t, source)| <= 1
    requires forall s :: s in source && Matches(m.on, t, s) ==> ExactRow(m, Both(t, s))
    ensures DataOfTarget(m, source, t) == [MergedTarget(m, source, t)]
  {
    var matches := MatchesOf(m.on, t, source);
    if matches == [] {
      TargetOnlyUnchanged(m, t);
    } else {
      JoinRowsFlagged(t, matches[0]);
      ProjectIsNewRow(m, Both(t, matches[0]));
    }
  }

  lemma TargetsMerged(m: Merge, target: seq<TargetRow>, source: seq<Row>)
    requires WellPlanned(m) && AllStored(m, target) && ExactOnJoin(m, target, source)
    requires AtMostOneMatch(m, target, source)
    ensures FlatMap(MadeFn(m, source), target) == Map(MergedFn(m, source), target)
  {
    forall t | t in target
      ensures MadeFn(m, source)(t) == [MergedFn(m, source)(t)]
    {
      SingleMatchMerges(m, source, t);
    }
    FlatMapSingletons(MadeFn(m, source), MergedFn(m, source), target);
  }

  lemma UnmatchedAllInsert(m: Merge, target: seq<TargetRow>, source: seq<Row>)
    requires EveryUnmatchedInserts(m, target, source)
    ensures UnmatchedSource(m.on, target, source)
            == Filter((s: Row) => Unmatched(m.on, target, s) && InsertFires(m, s), source)
  {
    FilterCongruent((s: Row) => Unmatched(m.on, target, s),
                    (s: Row) => Unmatched(m.on, target, s) && InsertFires(m, s), source);
  }

  lemma SufficientForStandard(m: Merge, target: seq<TargetRow>, source: seq<Row>)
    requires WellPlanned(m) && AllStored(m, target) && ExactOnJoin(m, target, source)
    requires AtMostOneMatch(m, target, source) && EveryUnmatchedInserts(m, target, source)
    ensures DataOf(ProjectAll(m, FullJoin(m.on, target, source))) == StandardMerge(m, target, source)
  {
    WholeMergeData(m, target, source);
    TargetsMerged(m, target, source);
    UnmatchedAllInsert(m, target, source);
  }

  lemma WholeMergeSize(m: Merge, target: seq<TargetRow>, source: seq<Row>)
    ensures |DataOf(ProjectAll(m, FullJoin(m.on, target, source)))|
            == |FlatMap(MadeFn(m, source), target)| + |UnmatchedSource(m.on, target, source)|
  {
    JoinData(m, target, source);
  }

  lemma StandardMergeSize(m: Merge, target: seq<TargetRow>, source: seq<Row>)
    ensures |StandardMerge(m, target, source)| <= |target| + |UnmatchedSource(m.on, target, source)|
    ensures |StandardMerge(m, target, source)| == |target| + |UnmatchedSource(m.on, target, source)|
            <==> EveryUnmatchedInserts(m, target, source)
  {
    FilterLength((s: Row) => Unmatched(m.on, target, s),
                 (s: Row) => Unmatched(m.on, target, s) && InsertFires(m, s), source);
  }

  /** For every statement: a double match or an unmatched row that nothing inserts gives a table of another size. */
  lemma NecessaryForStandard(m: Merge, target: seq<TargetRow>, source: seq<Row>)
    requires |DataOf(ProjectAll(m, FullJoin(m.on, target, source)))| == |StandardMerge(m, target, source)|
    ensures AtMostOneMatch(m, target, source) && EveryUnmatchedInserts(m, target, source)
  {
    WholeMergeSize(m, target, source);
    StandardMergeSize(m, target, source);
    MadeLength(m, target, source);
  }

  /** Whatever its column lists, a statement commits the standard merge only without double matches and lost rows. */
  lemma StandardMergeNeeds(m: Merge, target: seq<TargetRow>, source: seq<Row>, out: seq<OutRow>)
    requires WellPlanned(m) && AllStored(m, target) && Produces(m, target, source, out)
    ensures multiset(Committed(target, out)) == multiset(StandardMerge(m, target, source))
            ==> AtMostOneMatch(m, target, source) && EveryUnmatchedInserts(m, target, source)
  {
    CommittedIsWholeMerge(m, target, source, out);
    var whole, standard := DataOf(ProjectAll(m, FullJoin(m.on, target, source))), StandardMerge(m, target, source);
    if multiset(whole) == multiset(standard) {
      assert |multiset(whole)| == |whole| && |multiset(standard)| == |standard|;
      NecessaryForStandard(m, target, source);
    }
  }

  /** Target rows give at least one row each, and one each exactly when none matches twice. */
  lemma MadeLength(m: Merge, target: seq<TargetRow>, source: seq<Row>)
    ensures |FlatMap(MadeFn(m, source), target)| >= |target|
    ensures |FlatMap(MadeFn(m, source), target)| == |target| <==> AtMostOneMatch(m, target, source)
  {
    var made := MadeFn(m, source);
    forall t | t in target
      ensures |made(t)| >= 1 && (|made(t)| == 1 <==> |MatchesOf(m.on, t, source)| <= 1)
    {
      RowCountOfTarget(m, source, t);
    }
    FlatMapLength(made, target);
  }

  lemma RowCountOfTarget(m: Merge, source: seq<Row>, t: TargetRow)
    ensures |DataOfTarget(m, source, t)|
            == if MatchesOf(m.on, t, source) == [] then 1 else |MatchesOf(m.on, t, source)|
  {
  }

  /**
   * The committed table is the standard merge exactly when no target row matches twice and every
   * unmatched source row fires an INSERT clause: a second match duplicates the target row, and an
   * unmatched row without an INSERT is written as a row of NULLs.
   */
  lemma CommittedIsStandardMerge(m: Merge, target: seq<TargetRow>, source: seq<Row>, out: seq<OutRow>)
    requires WellPlanned(m) && AllStored(m, target) && ExactOnJoin(m, target, source)
    requires Produces(m, target, source, out)
    ensures multiset(Committed(target, out)) == multiset(StandardMerge(m, target, source))
            <==> AtMostOneMatch(m, target, source) && EveryUnmatchedInserts(m, target, source)
  {
    CommittedIsWholeMerge(m, target, source, out);
    StandardMergeNeeds(m, target, source, out);
    if AtMostOneMatch(m, target, source) && EveryUnmatchedInserts(m, target, source) {
      SufficientForStandard(m, target, source);
    }
  }

  function NullRows(m: Merge, n: nat): seq<Row> {
    seq(n, _ => map c | c in m.columns :: Null)
  }

  lemma EmptyTargetJoin(m: Merge, source: seq<Row>)
    ensures PrunedJoin(m, [], source) == Map(OnlyFn(), source)
  {
    FilterAll((s: Row) => Unmatched(m.on, [], s), source);
  }

  lemma EmptyStandardMerge(m: Merge, source: seq<Row>)
    requires forall i :: 0 <= i < |m.clauses| ==> !m.clauses[i].action.Insert?
    ensures StandardMerge(m, [], source) == []
  {
    FilterNone((s: Row) => Unmatched(m.on, [], s) && InsertFires(m, s), source);
  }

  /** Without INSERT clauses, merging into an empty table commits one row of NULLs per source row. */
  lemma UpdateOnlyIntoEmptyTable(m: Merge, source: seq<Row>)
    requires WellPlanned(m) && forall i :: 0 <= i < |m.clauses| ==> !m.clauses[i].action.Insert?
    ensures Committed([], ProjectAll(m, PrunedJoin(m, [], source))) == NullRows(m, |source|)
    ensures StandardMerge(m, [], source) == []
  {
    EmptyTargetJoin(m, source);
    EmptyStandardMerge(m, source);
    NullData(m, source);
    CommittedToEmpty(ProjectAll(m, Map(OnlyFn(), source)));
  }

  lemma CommittedToEmpty(out: seq<OutRow>)
    ensures Committed([], out) == DataOf(out)
  {
  }

  lemma NullData(m: Merge, source: seq<Row>)
    requires WellPlanned(m) && forall i :: 0 <= i < |m.clauses| ==> !m.clauses[i].action.Insert?
    ensures DataOf(ProjectAll(m, Map(OnlyFn(), source))) == NullRows(m, |source|)
  {
    var data := DataOf(ProjectAll(m, Map(OnlyFn(), source)));
    assert |data| == |source|;
    forall i | 0 <= i < |source|
      ensures data[i] == NullRows(m, |source|)[i]
    {
      assert data[i] == Project(m, SourceOnly(source[i])).data;
      NullRow(m, source[i]);
    }
  }

  function UpdateOnly(): (m: Merge)
    ensures |m.clauses| == 1 && m.clauses[0].action.Update? && m.columns == ["a"]
    ensures AllShaped(m.clauses) && Pairs(m.clauses[0]) == [("a", SourceCol("a"))]
  {
    var c := MergeClause(Matched, None, Update([Assignment(["a"], SourceCol("a"))]));
    assert ClauseOk(c) && Pairs(c) == [("a", SourceCol("a"))];
    MergeStatement(Lit(FALSE), [c], ["a"])
  }

  /** A concrete statement outside the condition: UPDATE only, one source row, empty target. */
  lemma UnmatchedRowBecomesNulls(s: Row)
    ensures WellPlanned(UpdateOnly())
    ensures Committed([], ProjectAll(UpdateOnly(), PrunedJoin(UpdateOnly(), [], [s]))) == [map["a" := Null]]
    ensures StandardMerge(UpdateOnly(), [], [s]) == []
  {
    var m := UpdateOnly();
    assert forall r :: r in RESERVED ==> r != "a";
    UpdateOnlyIntoEmptyTable(m, [s]);
    OneNullRow(m);
  }

  lemma OneNullRow(m: Merge)
    requires m.columns == ["a"]
    ensures NullRows(m, 1) == [map["a" := Null]]
  {
    var row: Row := map c | c in m.columns :: Null;
    assert forall c :: c in m.columns <==> c == "a";
    assert row == map["a" := Null];
    assert NullRows(m, 1) == [row];
  }

  /** With no INSERT clause an unmatched source row projects to NULLs. */
  lemma NullRow(m: Merge, s: Row)
    requires WellPlanned(m) && forall i :: 0 <= i < |m.clauses| ==> !m.clauses[i].action.Insert?
    ensures Project(m, SourceOnly(s)).data == map c | c in m.columns :: Null
  {
    var row := SourceOnly(s);
    JoinRowsFlagged(TargetRow(map[], "", ""), s);
    forall c | c in m.columns
      ensures Eval(ColumnExpr(m.clauses, Schema(m), c), row) == Null
    {
      ColumnExprMeaning(m.clauses, Schema(m), row, c);
      NoPickUnlessFires(m.clauses, row, c);
    }
  }

  // ------------------------------------------------------------------------------ reported counts

  lemma {:induction false} FilterMapLength<A, B>(p: B -> bool, q: A -> bool, f: A -> B, xs: seq<A>)
    requires forall x :: x in xs ==> p(f(x)) == q(x)
    ensures |Filter(p, Map(f, xs))| == |Filter(q, xs)|
  {
    if xs != [] {
      FilterMapLength(p, q, f, xs[1..]);
      assert Map(f, xs) == [f(xs[0])] + Map(f, xs[1..]);
      FilterConcat(p, [f(xs[0])], Map(f, xs[1..]));
      assert [f(xs[0])][1..] == [];
    }
  }

  lemma {:induction false} FilterNone<A>(p: A -> bool, xs: seq<A>)
    requires forall x :: x in xs ==> !p(x)
    ensures Filter(p, xs) == []
  {
    if xs != [] {
      FilterNone(p, xs[1..]);
    }
  }

  /** Rows of the join of the whole target on which a clause of the kind fires. */
  function FiringRows(m: Merge, target: seq<TargetRow>, source: seq<Row>, update: bool): seq<JoinRow> {
    Filter((row: JoinRow) => SomeFires(m.clauses, row, update), FullJoin(m.on, target, source))
  }

  lemma JoinRowsAreFlagged(on: Expr, target: seq<TargetRow>, source: seq<Row>, row: JoinRow)
    requires row in FullJoin(on, target, source)
    ensures Flagged(row)
  {
    JoinRowOrigin(on, target, source, row);
    if t :| t in target && (row == TargetOnly(t) || exists s: Row :: row == Both(t, s)) {
      if row == TargetOnly(t) {
        JoinRowsFlagged(t, map[]);
      } else {
        var s: Row :| row == Both(t, s);
        JoinRowsFlagged(t, s);
      }
    } else {
      var s: Row :| row == SourceOnly(s);
      JoinRowsFlagged(TargetRow(map[], "", ""), s);
    }
  }

  /** Pruning does not change how many join rows a clause fires on. */
  lemma FiringRowsPruned(m: Merge, target: seq<TargetRow>, source: seq<Row>, update: bool)
    requires WellPlanned(m)
    ensures |FiringRows(m, target, source, update)|
            == |Filter((row: JoinRow) => SomeFires(m.clauses, row, update), PrunedJoin(m, target, source))|
  {
    var files := AffectedFiles(m.on, target, source);
    var fires := (row: JoinRow) => SomeFires(m.clauses, row, update);
    var pruned := PrunedJoin(m, target, source);
    var rest := Map((t: TargetRow) => TargetOnly(t), OutsideFiles(target, files));
    PrunedFullJoin(m.on, target, source, files);
    PermFilter(fires, FullJoin(m.on, target, source), pruned + rest);
    FilterConcat(fires, pruned, rest);
    forall row | row in rest
      ensures !fires(row)
    {
      var i :| 0 <= i < |rest| && rest[i] == row;
      JoinRowsFlagged(OutsideFiles(target, files)[i], map[]);
    }
    FilterNone(fires, rest);
  }

  function FlagFn(update: bool): OutRow -> bool { (o: OutRow) => (if update then o.updated else o.inserted) == TRUE }

  function FiresFn(m: Merge, update: bool): JoinRow -> bool { (row: JoinRow) => SomeFires(m.clauses, row, update) }

  function ProjectFn(m: Merge): JoinRow -> OutRow { (row: JoinRow) => Project(m, row) }

  /** The reported counts are the firing pairs and the firing unmatched source rows. */
  lemma ReportedCounts(m: Merge, target: seq<TargetRow>, source: seq<Row>, out: seq<OutRow>, update: bool)
    requires WellPlanned(m) && Produces(m, target, source, out)
    ensures TrueCount(out, update) == |FiringRows(m, target, source, update)|
  {
    var pruned := PrunedJoin(m, target, source);
    PermFilter(FlagFn(update), out, ProjectAll(m, pruned));
    forall row | row in pruned
      ensures FlagFn(update)(ProjectFn(m)(row)) == FiresFn(m, update)(row)
    {
      JoinRowsAreFlagged(m.on, InFiles(target, AffectedFiles(m.on, target, source)), source, row);
      FlagsMeanFires(m.clauses, row);
    }
    FilterMapLength(FlagFn(update), FiresFn(m, update), ProjectFn(m), pruned);
    FiringRowsPruned(m, target, source, update);
  }

  /** As many rows are reported inserted as the standard merge adds. */
  lemma InsertedCountIsStandard(m: Merge, target: seq<TargetRow>, source: seq<Row>, out: seq<OutRow>)
    requires WellPlanned(m) && Produces(m, target, source, out)
    ensures TrueCount(out, false) == |StandardMerge(m, target, source)| - |target|
  {
    ReportedCounts(m, target, source, out, false);
    var fires := (row: JoinRow) => SomeFires(m.clauses, row, false);
    var rows := (t: TargetRow) => JoinRowsOf(m.on, t, source);
    var only := (s: Row) => SourceOnly(s);
    var unmatched := UnmatchedSource(m.on, target, source);
    FilterConcat(fires, FlatMap(rows, target), Map(only, unmatched));
    forall row | row in FlatMap(rows, target)
      ensures !fires(row)
    {
      var t := InFlatMap(rows, target, row);
      TargetRowsNeverInsert(m, source, t, row);
    }
    FilterNone(fires, FlatMap(rows, target));
    FilterMapLength(fires, (s: Row) => InsertFires(m, s), only, unmatched);
    FilterFilter((s: Row) => InsertFires(m, s), (s: Row) => Unmatched(m.on, target, s),
                 (s: Row) => Unmatched(m.on, target, s) && InsertFires(m, s), source);
  }

  lemma TargetRowsNeverInsert(m: Merge, source: seq<Row>, t: TargetRow, row: JoinRow)
    requires WellPlanned(m) && row in JoinRowsOf(m.on, t, source)
    ensures !SomeFires(m.clauses, row, false)
  {
    var rows, matches := JoinRowsOf(m.on, t, source), MatchesOf(m.on, t, source);
    var i :| 0 <= i < |rows| && rows[i] == row;
    JoinRowsFlagged(t, if matches == [] then map[] else matches[i]);
    assert TargetPresent(row);
  }

  lemma {:induction false} FilterFilter<A>(p: A -> bool, q: A -> bool, both: A -> bool, xs: seq<A>)
    requires forall x :: x in xs ==> both(x) == (p(x) && q(x))
    ensures Filter(p, Filter(q, xs)) == Filter(both, xs)
  {
    if xs != [] {
      FilterFilter(p, q, both, xs[1..]);
      FilterHead(q, xs);
      FilterHead(both, xs);
      var rest := Filter(q, xs[1..]);
      if q(xs[0]) {
        FilterHead(p, [xs[0]] + rest);
        assert ([xs[0]] + rest)[1..] == rest;
      }
    }
  }

  lemma FilterHead<A>(p: A -> bool, xs: seq<A>)
    requires xs != []
    ensures Filter(p, xs) == if p(xs[0]) then [xs[0]] + Filter(p, xs[1..]) else Filter(p, xs[1..])
  {
  }
}
