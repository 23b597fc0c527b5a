/**
 * The projection a MERGE statement is planned into: one expression per target column, computed
 * from the UPDATE and INSERT clauses collected column by column, plus two flags that say whether
 * the row was updated or inserted.
 */
module MergeClauses {
  import opened Common
  import opened SqlExpr

  const TARGET_EXISTS := "__target_exists"
  const SOURCE_EXISTS := "__source_exists"
  const MERGE_UPDATED := "__merge_row_updated"
  const MERGE_INSERTED := "__merge_row_inserted"

  datatype ClauseKind = Matched | NotMatched | NotMatchedByTarget | NotMatchedBySource

  /** `SET a.b.c = value`: the column is named by the last part. */
  datatype Assignment = Assignment(column: seq<string>, value: Expr)

  datatype InsertKind = Values(rows: seq<seq<Expr>>) | RowKind

  datatype Action =
    | Update(assignments: seq<Assignment>)
    | Insert(columns: seq<string>, kind: InsertKind)
    | Delete

  datatype MergeClause = MergeClause(kind: ClauseKind, guard: Option<Expr>, action: Action)

  datatype PlanError =
    | NotMatchedBySourceNotSupported
    | InvalidColumnIdentifier
    | OnlyMergeStatements
    | MergeInsertOnlyOneRow
    | PlanningFailed // the SQL planner rejects a guard or a value

  type Branches = map<string, seq<Branch>>

  // ---------------------------------------------------------------- what one clause contributes

  function KindExpr(kind: ClauseKind): Result<Expr, PlanError> {
    match kind
    case Matched => Ok(And(TargetCol(TARGET_EXISTS), SourceCol(SOURCE_EXISTS)))
    case NotMatched => Ok(IsNull(TargetCol(TARGET_EXISTS)))
    case NotMatchedByTarget => Ok(IsNull(TargetCol(TARGET_EXISTS)))
    case NotMatchedBySource => Err(NotMatchedBySourceNotSupported)
  }

  /** The error of the first assignment that has one: an empty column, else a rejected value. */
  function AssignmentError(assignments: seq<Assignment>): (r: Option<PlanError>)
    ensures r.None? <==> forall i :: 0 <= i < |assignments| ==>
                                       assignments[i].column != [] && !assignments[i].value.Unplannable?
  {
    if assignments == [] then None
    else
      var init, last := assignments[..|assignments| - 1], assignments[|assignments| - 1];
      assert forall i :: 0 <= i < |init| ==> init[i] == assignments[i];
      var before := AssignmentError(init);
      if before.Some? then before
      else if last.column == [] then Some(InvalidColumnIdentifier)
      else if last.value.Unplannable? then Some(PlanningFailed)
      else None
  }

  /** Values beyond the column list are not planned. */
  predicate ValuesPlanned(columns: seq<string>, row: seq<Expr>) {
    forall i :: 0 <= i < |row| && i < |columns| ==> !row[i].Unplannable?
  }

  /** The error planning this clause raises, if any. */
  function ClauseError(c: MergeClause): Option<PlanError> {
    if KindExpr(c.kind).Err? then Some(KindExpr(c.kind).error)
    else if c.guard.Some? && c.guard.value.Unplannable? then Some(PlanningFailed)
    else match c.action
      case Update(assignments) => AssignmentError(assignments)
      case Insert(columns, kind) =>
        if kind.RowKind? then Some(OnlyMergeStatements)
        else if |kind.rows| != 1 then Some(MergeInsertOnlyOneRow)
        else if !ValuesPlanned(columns, kind.rows[0]) then Some(PlanningFailed)
        else None
      case Delete => None
  }

  /** Which defect of a clause is refused with which error, in the order they are looked for. */
  lemma ClauseRefused(c: MergeClause)
    ensures c.kind == NotMatchedBySource ==> ClauseError(c) == Some(NotMatchedBySourceNotSupported)
    ensures c.kind != NotMatchedBySource && c.guard == Some(Unplannable) ==> ClauseError(c) == Some(PlanningFailed)
    ensures c.kind != NotMatchedBySource && c.guard != Some(Unplannable) ==>
              match c.action
              case Update(assignments) =>
                (forall i :: 0 <= i < |assignments| ==> assignments[i].column != []) ==>
                  ClauseError(c) == (if exists i :: 0 <= i < |assignments| && assignments[i].value == Unplannable
                                     then Some(PlanningFailed) else None)
              case Insert(columns, RowKind) => ClauseError(c) == Some(OnlyMergeStatements)
              case Insert(columns, Values(rows)) =>
                ClauseError(c) == (if |rows| != 1 then Some(MergeInsertOnlyOneRow)
                                   else if exists i :: 0 <= i < |columns| && i < |rows[0]| && rows[0][i] == Unplannable
                                   then Some(PlanningFailed) else None)
              case Delete => ClauseError(c) == None
  {
    if c.action.Update? {
      AssignmentsRefused(c.action.assignments);
    }
  }

  lemma {:induction false} AssignmentsRefused(assignments: seq<Assignment>)
    ensures (forall i :: 0 <= i < |assignments| ==> assignments[i].column != []) ==>
              AssignmentError(assignments) in {None, Some(PlanningFailed)}
    ensures (forall i :: 0 <= i < |assignments| ==> assignments[i].value != Unplannable) ==>
              AssignmentError(assignments) in {None, Some(InvalidColumnIdentifier)}
  {
    if assignments != [] {
      AssignmentsRefused(assignments[..|assignments| - 1]);
    }
  }

  predicate ClauseOk(c: MergeClause) {
    ClauseError(c).None?
  }

  predicate AllOk(clauses: seq<MergeClause>) {
    forall i :: 0 <= i < |clauses| ==> ClauseOk(clauses[i])
  }

  /** The condition under which the clause applies to a join row. */
  function Condition(c: MergeClause): Expr
    requires ClauseOk(c)
  {
    var op := KindExpr(c.kind).value;
    if c.guard.Some? then And(op, c.guard.value) else op
  }

  function LastPart(column: seq<string>): string
    requires column != []
  {
    column[|column| - 1]
  }

  function MinLen(a: nat, b: nat): nat {
    if a <= b then a else b
  }

  /** The (column, value) pairs of a clause; an INSERT pairs its columns with its only VALUES row. */
  function Pairs(c: MergeClause): seq<(string, Expr)>
    requires ClauseOk(c)
  {
    match c.action
    case Update(assignments) =>
      seq(|assignments|, i requires 0 <= i < |assignments| =>
        assert assignments[i].column != [];
        (LastPart(assignments[i].column), assignments[i].value))
    case Insert(columns, kind) =>
      var row := kind.rows[0];
      seq(MinLen(|columns|, |row|), i requires 0 <= i < MinLen(|columns|, |row|) => (columns[i], row[i]))
    case Delete => []
  }

  predicate Names(c: MergeClause, column: string)
    requires ClauseOk(c)
  {
    exists i :: 0 <= i < |Pairs(c)| && Pairs(c)[i].0 == column
  }

  /** The CASE branches a pair list adds for one column, in order. */
  function BranchesFor(pairs: seq<(string, Expr)>, op: Expr, column: string): seq<Branch> {
    if pairs == [] then []
    else
      BranchesFor(pairs[..|pairs| - 1], op, column)
      + (if pairs[|pairs| - 1].0 == column then [Branch(op, pairs[|pairs| - 1].1)] else [])
  }

  // ------------------------------------------------- what the clause list accumulates per column

  function UpdateBranches(clauses: seq<MergeClause>, column: string): seq<Branch>
    requires AllOk(clauses)
  {
    if clauses == [] then []
    else
      var init, c := clauses[..|clauses| - 1], clauses[|clauses| - 1];
      UpdateBranches(init, column)
      + (if c.action.Update? then BranchesFor(Pairs(c), Condition(c), column) else [])
  }

  /** An INSERT clause that omits a target column replaces everything recorded for that column. */
  function InsertBranches(clauses: seq<MergeClause>, schema: seq<string>, column: string): seq<Branch>
    requires AllOk(clauses)
  {
    if clauses == [] then []
    else
      var init, c := clauses[..|clauses| - 1], clauses[|clauses| - 1];
      var before := InsertBranches(init, schema, column);
      if !c.action.Insert? then before
      else if Names(c, column) then before + BranchesFor(Pairs(c), Condition(c), column)
      else if column in schema then [Branch(Condition(c), Lit(Null))]
      else before
  }

  function Ops(clauses: seq<MergeClause>, update: bool): seq<Expr>
    requires AllOk(clauses)
  {
    if clauses == [] then []
    else
      var init, c := clauses[..|clauses| - 1], clauses[|clauses| - 1];
      Ops(init, update)
      + (if (if update then c.action.Update? else c.action.Insert?) then [Condition(c)] else [])
  }

  function ColumnExpr(clauses: seq<MergeClause>, schema: seq<string>, column: string): Expr
    requires AllOk(clauses)
  {
    var branches := UpdateBranches(clauses, column) + InsertBranches(clauses, schema, column);
    if branches == [] then TargetCol(column) else Case(branches, TargetCol(column))
  }

  /** The expressions of the first n target columns. */
  function ColumnExprs(clauses: seq<MergeClause>, schema: seq<string>, n: nat): (r: seq<(string, Expr)>)
    requires AllOk(clauses) && n <= |schema|
    ensures |r| == n
    ensures forall i :: 0 <= i < n ==> r[i] == (schema[i], ColumnExpr(clauses, schema, schema[i]))
  {
    if n == 0 then []
    else ColumnExprs(clauses, schema, n - 1) + [(schema[n - 1], ColumnExpr(clauses, schema, schema[n - 1]))]
  }

  function Projection(clauses: seq<MergeClause>, schema: seq<string>): seq<(string, Expr)>
    requires AllOk(clauses)
  {
    ColumnExprs(clauses, schema, |schema|)
    + [(SOURCE_EXISTS, SourceCol(SOURCE_EXISTS)),
       (MERGE_UPDATED, OrAll(Ops(clauses, true))),
       (MERGE_INSERTED, OrAll(Ops(clauses, false)))]
  }

  // --------------------------------------------------------------------- the planner's own loops

  ghost predicate UpdatesAt(m: Branches, clauses: seq<MergeClause>, column: string)
    requires AllOk(clauses)
  {
    && (column in m <==> UpdateBranches(clauses, column) != [])
    && Entry(m, column) == UpdateBranches(clauses, column)
  }

  ghost predicate InsertsAt(m: Branches, clauses: seq<MergeClause>, schema: seq<string>, column: string)
    requires AllOk(clauses)
  {
    && (column in m <==> InsertBranches(clauses, schema, column) != [])
    && Entry(m, column) == InsertBranches(clauses, schema, column)
  }

  /** The map holds exactly the non-empty branch lists of the UPDATE clauses seen so far. */
  ghost predicate HoldsUpdates(m: Branches, clauses: seq<MergeClause>)
    requires AllOk(clauses)
  {
    forall column: string :: UpdatesAt(m, clauses, column)
  }

  ghost predicate HoldsInserts(m: Branches, clauses: seq<MergeClause>, schema: seq<string>)
    requires AllOk(clauses)
  {
    forall column: string :: InsertsAt(m, clauses, schema, column)
  }

  function Entry(m: Branches, column: string): seq<Branch> {
    if column in m then m[column] else []
  }

  lemma {:induction false} NoBranchUnlessNamed(pairs: seq<(string, Expr)>, op: Expr, column: string)
    ensures BranchesFor(pairs, op, column) == [] <==>
            forall i :: 0 <= i < |pairs| ==> pairs[i].0 != column
  {
    if pairs != [] {
      var init := pairs[..|pairs| - 1];
      NoBranchUnlessNamed(init, op, column);
      assert forall i :: 0 <= i < |init| ==> init[i] == pairs[i];
    }
  }

  ghost predicate PushedAt(m: Branches, r: Branches, added: seq<Branch>, column: string) {
    && (column in r <==> column in m || added != [])
    && Entry(r, column) == Entry(m, column) + added
  }

  lemma PushedSame(m: Branches, r: Branches, added: seq<Branch>, column: string, branch: Branch)
    requires PushedAt(m, r, added, column)
    ensures PushedAt(m, r[column := Entry(r, column) + [branch]], added + [branch], column)
  {
    assert Entry(m, column) + (added + [branch]) == Entry(r, column) + [branch];
  }

  lemma PushedOther(m: Branches, r: Branches, added: seq<Branch>, column: string, name: string, branches: seq<Branch>)
    requires PushedAt(m, r, added, column) && name != column
    ensures PushedAt(m, r[name := branches], added, column)
  {
  }

  lemma PushOne(m: Branches, r: Branches, pairs: seq<(string, Expr)>, op: Expr, column: string)
    requires pairs != []
    requires PushedAt(m, r, BranchesFor(pairs[..|pairs| - 1], op, column), column)
    ensures
      var (name, value) := pairs[|pairs| - 1];
      PushedAt(m, r[name := Entry(r, name) + [Branch(op, value)]], BranchesFor(pairs, op, column), column)
  {
    var (name, value) := pairs[|pairs| - 1];
    var before := BranchesFor(pairs[..|pairs| - 1], op, column);
    if name == column {
      PushedSame(m, r, before, column, Branch(op, value));
    } else {
      PushedOther(m, r, before, column, name, Entry(r, name) + [Branch(op, value)]);
      assert BranchesFor(pairs, op, column) == before;
    }
  }

  /** Pushes one branch per pair onto its column's list, creating the list when it is missing. */
  method PushPairs(m: Branches, pairs: seq<(string, Expr)>, op: Expr) returns (r: Branches)
    ensures forall column: string :: PushedAt(m, r, BranchesFor(pairs, op, column), column)
  {
    r := m;
    for n := 0 to |pairs|
      invariant forall column: string :: PushedAt(m, r, BranchesFor(pairs[..n], op, column), column)
    {
      var next := pairs[..n + 1];
      assert next[..|next| - 1] == pairs[..n];
      forall column: string
        ensures
          var (name, value) := next[|next| - 1];
          PushedAt(m, r[name := Entry(r, name) + [Branch(op, value)]], BranchesFor(next, op, column), column)
      {
        PushOne(m, r, next, op, column);
      }
      var (name, value) := pairs[n];
      r := r[name := Entry(r, name) + [Branch(op, value)]];
    }
    assert pairs[..|pairs|] == pairs;
  }

  ghost predicate NulledAt(m: Branches, r: Branches, columns: set<string>, op: Expr, column: string) {
    && (column in r <==> column in m || column in columns)
    && Entry(r, column) == if column in columns then [Branch(op, Lit(Null))] else Entry(m, column)
  }

  /** Replaces each listed column's branches by a single NULL branch. */
  method NullOmitted(m: Branches, columns: set<string>, op: Expr) returns (r: Branches)
    ensures forall column: string :: NulledAt(m, r, columns, op, column)
  {
    r := m;
    var rest := columns;
    while rest != {}
      invariant rest <= columns
      invariant forall column: string :: NulledAt(m, r, columns - rest, op, column)
    {
      ghost var r0, rest0 := r, rest;
      var column :| column in rest;
      r := r[column := [Branch(op, Lit(Null))]];
      rest := rest - {column};
      forall other: string
        ensures NulledAt(m, r, columns - rest, op, other)
      {
        assert NulledAt(m, r0, columns - rest0, op, other);
      }
    }
    assert columns - rest == columns;
  }

  /** `merge_clause_projection`: plans the clauses in order, stopping at the first that is invalid. */
  method MergeClauseProjection(schema: seq<string>, clauses: seq<MergeClause>)
    returns (r: Result<seq<(string, Expr)>, PlanError>)
    requires Distinct(schema)
    ensures r.Ok? <==> AllOk(clauses)
    ensures r.Ok? ==> r.value == Projection(clauses, schema)
    ensures r.Err? ==> exists i :: 0 <= i < |clauses| && AllOk(clauses[..i])
                                   && ClauseError(clauses[i]) == Some(r.error)
  {
    var updates: Branches, inserts: Branches := map[], map[];
    var updatedOps: seq<Expr>, insertedOps: seq<Expr> := [], [];
    for n := 0 to |clauses|
      invariant AllOk(clauses[..n])
      invariant HoldsUpdates(updates, clauses[..n])
      invariant HoldsInserts(inserts, clauses[..n], schema)
      invariant updatedOps == Ops(clauses[..n], true)
      invariant insertedOps == Ops(clauses[..n], false)
    {
      var c := clauses[n];
      if ClauseError(c).Some? {
        assert AllOk(clauses[..n]) && ClauseError(clauses[n]) == Some(ClauseError(c).value);
        return Err(ClauseError(c).value);
      }
      assert clauses[..n + 1][..n] == clauses[..n];
      var op := Condition(c);
      match c.action {
        case Update(_) =>
          updatedOps := updatedOps + [op];
          updates := UpdateStep(updates, clauses[..n], c);
        case Insert(_, _) =>
          insertedOps := insertedOps + [op];
          inserts := InsertStep(inserts, clauses[..n], c, schema);
        case Delete =>
      }
      KeepAcross(updates, inserts, clauses[..n], c, schema);
      assert clauses[..n] + [c] == clauses[..n + 1];
    }
    assert clauses[..|clauses|] == clauses;
    var exprs := CollectMergeClauseExpressions(schema, updates, inserts, clauses);
    r := Ok(exprs + [(MERGE_UPDATED, OrAll(updatedOps)), (MERGE_INSERTED, OrAll(insertedOps))]);
  }

  /** A clause leaves alone the map of the other kind of clause. */
  lemma KeepAcross(updates: Branches, inserts: Branches, before: seq<MergeClause>, c: MergeClause, schema: seq<string>)
    requires AllOk(before) && ClauseOk(c)
    ensures AllOk(before + [c])
    ensures !c.action.Update? && HoldsUpdates(updates, before) ==> HoldsUpdates(updates, before + [c])
    ensures !c.action.Insert? && HoldsInserts(inserts, before, schema) ==> HoldsInserts(inserts, before + [c], schema)
    ensures Ops(before + [c], true) == Ops(before, true) + (if c.action.Update? then [Condition(c)] else [])
    ensures Ops(before + [c], false) == Ops(before, false) + (if c.action.Insert? then [Condition(c)] else [])
  {
    assert (before + [c])[..|before|] == before;
    if !c.action.Update? && HoldsUpdates(updates, before) {
      forall column: string
        ensures UpdatesAt(updates, before + [c], column)
      {
        assert UpdatesAt(updates, before, column);
      }
    }
    if !c.action.Insert? && HoldsInserts(inserts, before, schema) {
      forall column: string
        ensures InsertsAt(inserts, before + [c], schema, column)
      {
        assert InsertsAt(inserts, before, schema, column);
      }
    }
  }

  /** One UPDATE clause: push a branch for every assignment. */
  method UpdateStep(updates: Branches, ghost before: seq<MergeClause>, c: MergeClause) returns (r: Branches)
    requires AllOk(before) && ClauseOk(c) && c.action.Update?
    requires HoldsUpdates(updates, before)
    ensures AllOk(before + [c]) && HoldsUpdates(r, before + [c])
  {
    r := PushPairs(updates, Pairs(c), Condition(c));
    assert (before + [c])[..|before|] == before;
    forall column: string
      ensures UpdatesAt(r, before + [c], column)
    {
      assert UpdatesAt(updates, before, column);
      assert PushedAt(updates, r, BranchesFor(Pairs(c), Condition(c), column), column);
    }
  }

  lemma InsertStepAt(
    before: seq<MergeClause>, c: MergeClause, schema: seq<string>, column: string,
    inserts: Branches, pushed: Branches, r: Branches, omitted: bool)
    requires AllOk(before) && ClauseOk(c) && c.action.Insert?
    requires InsertsAt(inserts, before, schema, column)
    requires PushedAt(inserts, pushed, BranchesFor(Pairs(c), Condition(c), column), column)
    requires omitted <==> column in schema && !Names(c, column)
    requires column in r <==> column in pushed || omitted
    requires Entry(r, column) == if omitted then [Branch(Condition(c), Lit(Null))] else Entry(pushed, column)
    ensures AllOk(before + [c]) && InsertsAt(r, before + [c], schema, column)
  {
    assert (before + [c])[..|before|] == before;
    NoBranchUnlessNamed(Pairs(c), Condition(c), column);
  }

  /** One INSERT clause: push the named columns, then overwrite every target column it omits. */
  method InsertStep(inserts: Branches, ghost before: seq<MergeClause>, c: MergeClause, schema: seq<string>)
    returns (r: Branches)
    requires AllOk(before) && ClauseOk(c) && c.action.Insert?
    requires HoldsInserts(inserts, before, schema)
    ensures AllOk(before + [c]) && HoldsInserts(r, before + [c], schema)
  {
    var pairs, op := Pairs(c), Condition(c);
    var named := set i | 0 <= i < |pairs| :: pairs[i].0;
    var omitted := (set column | column in schema) - named;
    var pushed := PushPairs(inserts, pairs, op);
    r := NullOmitted(pushed, omitted, op);
    forall column: string
      ensures InsertsAt(r, before + [c], schema, column)
    {
      assert InsertsAt(inserts, before, schema, column);
      assert PushedAt(inserts, pushed, BranchesFor(pairs, op, column), column);
      assert NulledAt(pushed, r, omitted, op, column);
      InsertStepAt(before, c, schema, column, inserts, pushed, r, column in omitted);
    }
  }

  ghost predicate EntriesFrom(m: Branches, orig: Branches, schema: seq<string>, n: nat) {
    forall i :: n <= i < |schema| ==> Entry(m, schema[i]) == Entry(orig, schema[i])
  }

  lemma EntriesAfterRemove(m: Branches, orig: Branches, schema: seq<string>, n: nat)
    requires Distinct(schema) && n < |schema| && EntriesFrom(m, orig, schema, n)
    ensures EntriesFrom(m - {schema[n]}, orig, schema, n + 1)
  {
    forall i | n + 1 <= i < |schema|
      ensures Entry(m - {schema[n]}, schema[i]) == Entry(orig, schema[i])
    {
      assert schema[i] != schema[n];
    }
  }

  lemma HeldColumnExpr(
    updates: Branches, inserts: Branches, clauses: seq<MergeClause>, schema: seq<string>, name: string)
    requires AllOk(clauses) && HoldsUpdates(updates, clauses) && HoldsInserts(inserts, clauses, schema)
    ensures Entry(updates, name) == UpdateBranches(clauses, name)
    ensures Entry(inserts, name) == InsertBranches(clauses, schema, name)
  {
    assert UpdatesAt(updates, clauses, name) && InsertsAt(inserts, clauses, schema, name);
  }

  /** `collect_merge_clause_expressions`: one expression per target column, updates before inserts. */
  method CollectMergeClauseExpressions(
    schema: seq<string>, updates: Branches, inserts: Branches, ghost clauses: seq<MergeClause>)
    returns (exprs: seq<(string, Expr)>)
    requires AllOk(clauses) && Distinct(schema)
    requires HoldsUpdates(updates, clauses) && HoldsInserts(inserts, clauses, schema)
    ensures exprs == ColumnExprs(clauses, schema, |schema|) + [(SOURCE_EXISTS, SourceCol(SOURCE_EXISTS))]
  {
    exprs := [];
    var us, ins := updates, inserts;
    for n := 0 to |schema|
      invariant exprs == ColumnExprs(clauses, schema, n)
      invariant EntriesFrom(us, updates, schema, n) && EntriesFrom(ins, inserts, schema, n)
    {
      var name := schema[n];
      var branches := Entry(us, name) + Entry(ins, name);
      HeldColumnExpr(updates, inserts, clauses, schema, name);
      EntriesAfterRemove(us, updates, schema, n);
      EntriesAfterRemove(ins, inserts, schema, n);
      us, ins := us - {name}, ins - {name};
      var e := if branches == [] then TargetCol(name) else Case(branches, TargetCol(name));
      assert e == ColumnExpr(clauses, schema, name);
      exprs := exprs + [(name, e)];
    }
    exprs := exprs + [(SOURCE_EXISTS, SourceCol(SOURCE_EXISTS))];
  }
}
