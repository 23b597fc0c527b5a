/**
 * The rows a MERGE commits, read off the text of its clauses: positions of a VALUES list and names
 * of a SET list, with no reference to how the planner pairs them.
 */
module MergeCommittedRows {
  import opened Common
  import opened Bags
  import opened SqlExpr
  import opened MergeClauses
  import opened MergeRows
  import opened MergePlan
  import opened MergeSink
  import opened MergeEndToEnd

  /** The row `INSERT (columns) VALUES (values)` makes of a join row: values by position, NULL where there is none. */
  ghost predicate RowByInsert(m: Merge, columns: seq<string>, values: seq<Expr>, row: JoinRow, r: Row) {
    && r.Keys == (set c | c in m.columns)
    && (forall i, c :: 0 <= i < |values| && c in m.columns && FirstAt(columns, i, c) ==> r[c] == Eval(values[i], row))
    && (forall c :: c in m.columns && (forall i :: 0 <= i < |columns| && i < |values| ==> columns[i] != c) ==>
                      r[c] == Null)
  }

  /** The row `UPDATE SET assignments` makes of a join row: assigned columns by name, the others as they were. */
  ghost predicate RowByUpdate(m: Merge, assignments: seq<Assignment>, row: JoinRow, r: Row)
    requires forall i :: 0 <= i < |assignments| ==> assignments[i].column != []
  {
    && r.Keys == (set c | c in m.columns)
    && (forall i: nat, c :: c in m.columns && FirstAt(Assigned(assignments), i, c) ==>
                              r[c] == Eval(assignments[i].value, row))
    && (forall c :: c in m.columns && c !in Assigned(assignments) ==> r[c] == Lookup(row.target, c))
  }

  lemma NewRowByInsert(m: Merge, row: JoinRow, k: nat, columns: seq<string>, values: seq<Expr>)
    requires FirstFiring(m.clauses, row) == Some(k) && m.clauses[k].action == Insert(columns, Values([values]))
    ensures RowByInsert(m, columns, values, row, NewRow(m, row))
  {
    forall c | c in m.columns
      ensures forall i :: 0 <= i < |values| && FirstAt(columns, i, c) ==> NewRow(m, row)[c] == Eval(values[i], row)
      ensures (forall i :: 0 <= i < |columns| && i < |values| ==> columns[i] != c) ==> NewRow(m, row)[c] == Null
    {
      InsertedValues(m.clauses, row, k, columns, values, c);
    }
  }

  lemma NewRowByUpdate(m: Merge, row: JoinRow, k: nat, assignments: seq<Assignment>)
    requires FirstFiring(m.clauses, row) == Some(k) && m.clauses[k].action == Update(assignments)
    ensures RowByUpdate(m, assignments, row, NewRow(m, row))
  {
    forall c | c in m.columns
      ensures forall i: nat :: FirstAt(Assigned(assignments), i, c) ==>
                                 NewRow(m, row)[c] == Eval(assignments[i].value, row)
      ensures c !in Assigned(assignments) ==> NewRow(m, row)[c] == Lookup(row.target, c)
    {
      UpdatedValues(m.clauses, row, k, assignments, c);
    }
  }

  /** A target row with no pair whose ON condition is TRUE is kept by the standard merge, NULL conditions included. */
  lemma StandardMergeKeeps(m: Merge, source: seq<Row>, t: TargetRow)
    requires forall s :: s in source ==> Eval(m.on, Both(t, s)) != Bool(true)
    ensures MergedTarget(m, source, t) == t.data
  {
    FilterNone((s: Row) => Matches(m.on, t, s), source);
  }

  lemma DataCommitted(m: Merge, target: seq<TargetRow>, source: seq<Row>, out: seq<OutRow>, row: JoinRow)
    requires WellPlanned(m) && AllStored(m, target) && Produces(m, target, source, out)
    requires row in FullJoin(m.on, target, source)
    ensures Project(m, row).data in Committed(target, out)
  {
    var join := FullJoin(m.on, target, source);
    var i :| 0 <= i < |join| && join[i] == row;
    assert DataOf(ProjectAll(m, join))[i] == Project(m, row).data;
    assert Project(m, row).data in multiset(DataOf(ProjectAll(m, join)));
    CommittedIsWholeMerge(m, target, source, out);
    assert Project(m, row).data in multiset(Committed(target, out));
  }

  /** An unmatched source row whose first firing clause is an INSERT is committed as that clause's text says. */
  lemma CommittedByInsert(
    m: Merge, target: seq<TargetRow>, source: seq<Row>, out: seq<OutRow>,
    s: Row, k: nat, columns: seq<string>, values: seq<Expr>)
    requires WellPlanned(m) && AllStored(m, target) && Produces(m, target, source, out)
    requires s in source && (forall t :: t in target ==> Eval(m.on, Both(t, s)) != Bool(true))
    requires ExactRow(m, SourceOnly(s)) && FirstFiring(m.clauses, SourceOnly(s)) == Some(k)
    requires m.clauses[k].action == Insert(columns, Values([values]))
    ensures exists r :: r in Committed(target, out) && RowByInsert(m, columns, values, SourceOnly(s), r)
  {
    NewRowByInsert(m, SourceOnly(s), k, columns, values);
    AddedRowData(m, s);
    SourceRowJoined(m.on, target, source, s);
    DataCommitted(m, target, source, out, SourceOnly(s));
  }

  lemma SourceRowJoined(on: Expr, target: seq<TargetRow>, source: seq<Row>, s: Row)
    requires s in source && Unmatched(on, target, s)
    ensures SourceOnly(s) in FullJoin(on, target, source)
  {
    var alone := UnmatchedSource(on, target, source);
    assert s in alone;
    var i :| 0 <= i < |alone| && alone[i] == s;
    assert Map((s: Row) => SourceOnly(s), alone)[i] == SourceOnly(s);
  }

  lemma PairJoined(on: Expr, target: seq<TargetRow>, source: seq<Row>, t: TargetRow, s: Row)
    requires t in target && s in source && Matches(on, t, s)
    ensures Both(t, s) in FullJoin(on, target, source)
  {
    var matches := MatchesOf(on, t, source);
    assert s in matches;
    var i :| 0 <= i < |matches| && matches[i] == s;
    assert JoinRowsOf(on, t, source)[i] == Both(t, s);
    FlatMapHas(RowsFn(on, source), target, t, Both(t, s));
  }

  /** A matching pair whose first firing clause is an UPDATE is committed as that clause's text says. */
  lemma CommittedByUpdate(
    m: Merge, target: seq<TargetRow>, source: seq<Row>, out: seq<OutRow>,
    t: TargetRow, s: Row, k: nat, assignments: seq<Assignment>)
    requires WellPlanned(m) && AllStored(m, target) && Produces(m, target, source, out)
    requires t in target && s in source && Eval(m.on, Both(t, s)) == Bool(true)
    requires ExactRow(m, Both(t, s)) && FirstFiring(m.clauses, Both(t, s)) == Some(k)
    requires m.clauses[k].action == Update(assignments)
    ensures exists r :: r in Committed(target, out) && RowByUpdate(m, assignments, Both(t, s), r)
  {
    NewRowByUpdate(m, Both(t, s), k, assignments);
    JoinRowsFlagged(t, s);
    ProjectIsNewRow(m, Both(t, s));
    PairJoined(m.on, target, source, t, s);
    DataCommitted(m, target, source, out, Both(t, s));
  }
}
