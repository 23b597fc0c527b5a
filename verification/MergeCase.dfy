/**
 * The per-column CASE against the row-at-a-time reading of a MERGE, row by row.
 *
 * The CASE of a column chains, in clause order, the UPDATE clauses that assign it and the INSERT
 * branches recorded for it, so a clause that fires first but does not mention the column does not
 * stop a later one. On a row the two readings agree for all values exactly when the clause the CASE
 * follows is the one that fires first, or neither names the column.
 */
module MergeCase {
  import opened Common
  import opened SqlExpr
  import opened MergeClauses
  import opened MergeRows

  // ------------------------------------------------------------- exact value of a column's CASE

  /** The value of the first UPDATE clause that both fires and assigns the column. */
  function UpdatePick(clauses: seq<MergeClause>, row: JoinRow, column: string): Option<Value>
    requires AllOk(clauses)
  {
    if clauses == [] then None
    else
      var c := clauses[|clauses| - 1];
      OrElse(UpdatePick(clauses[..|clauses| - 1], row, column),
             if c.action.Update? && Fires(c, row) && Names(c, column)
             then Some(ClauseValue(c, row, column)) else None)
  }

  /** Likewise for INSERT, except that a clause omitting the column forgets all earlier ones. */
  function InsertPick(clauses: seq<MergeClause>, row: JoinRow, column: string): Option<Value>
    requires AllOk(clauses)
  {
    if clauses == [] then None
    else
      var c := clauses[|clauses| - 1];
      var before := InsertPick(clauses[..|clauses| - 1], row, column);
      var own := if Fires(c, row) then Some(ClauseValue(c, row, column)) else None;
      if !c.action.Insert? then before
      else if Names(c, column) then OrElse(before, own)
      else own
  }

  lemma {:induction false} PickPairs(pairs: seq<(string, Expr)>, op: Expr, row: JoinRow, column: string)
    ensures
      var named := exists i :: 0 <= i < |pairs| && pairs[i].0 == column;
      Pick(BranchesFor(pairs, op, column), row)
      == if named && Eval(op, row) == TRUE then Some(Eval(FirstValue(pairs, column), row)) else None
  {
    if pairs != [] {
      var init, last := pairs[..|pairs| - 1], pairs[|pairs| - 1];
      PickPairs(init, op, row, column);
      var tail := if last.0 == column then [Branch(op, last.1)] else [];
      PickConcat(BranchesFor(init, op, column), tail, row);
      assert forall i :: 0 <= i < |init| ==> init[i] == pairs[i];
      if exists i :: 0 <= i < |init| && init[i].0 == column {
        FirstValueOfPrefix(pairs, init, column);
      }
    }
  }

  lemma FirstValueOfPrefix(pairs: seq<(string, Expr)>, init: seq<(string, Expr)>, column: string)
    requires init <= pairs
    requires exists i :: 0 <= i < |init| && init[i].0 == column
    ensures (exists i :: 0 <= i < |pairs| && pairs[i].0 == column)
            && FirstValue(pairs, column) == FirstValue(init, column)
  {
    var k :| 0 <= k < |init| && init[k].0 == column;
    assert pairs[k].0 == column;
    var i :| 0 <= i < |pairs| && pairs[i] == (column, FirstValue(pairs, column))
             && forall j :: 0 <= j < i ==> pairs[j].0 != column;
    var h :| 0 <= h < |init| && init[h] == (column, FirstValue(init, column))
             && forall j :: 0 <= j < h ==> init[j].0 != column;
    assert pairs[h] == init[h];
    assert i == h;
  }

  lemma {:induction false} UpdateBranchesPick(clauses: seq<MergeClause>, row: JoinRow, column: string)
    requires AllOk(clauses) && Flagged(row)
    ensures Pick(UpdateBranches(clauses, column), row) == UpdatePick(clauses, row, column)
  {
    if clauses != [] {
      var init, c := clauses[..|clauses| - 1], clauses[|clauses| - 1];
      UpdateBranchesPick(init, row, column);
      ConditionMeansFires(c, row);
      PickPairs(Pairs(c), Condition(c), row, column);
      var tail := if c.action.Update? then BranchesFor(Pairs(c), Condition(c), column) else [];
      PickConcat(UpdateBranches(init, column), tail, row);
    }
  }

  lemma {:induction false} InsertBranchesPick(
    clauses: seq<MergeClause>, schema: seq<string>, row: JoinRow, column: string)
    requires AllOk(clauses) && Flagged(row) && column in schema
    ensures Pick(InsertBranches(clauses, schema, column), row) == InsertPick(clauses, row, column)
  {
    if clauses != [] {
      var init, c := clauses[..|clauses| - 1], clauses[|clauses| - 1];
      InsertBranchesPick(init, schema, row, column);
      ConditionMeansFires(c, row);
      PickPairs(Pairs(c), Condition(c), row, column);
      PickConcat(InsertBranches(init, schema, column), BranchesFor(Pairs(c), Condition(c), column), row);
    }
  }

  /** What every planned column evaluates to, on every row and for every clause list. */
  lemma ColumnExprMeaning(clauses: seq<MergeClause>, schema: seq<string>, row: JoinRow, column: string)
    requires AllOk(clauses) && Flagged(row) && column in schema
    ensures Eval(ColumnExpr(clauses, schema, column), row)
            == GetOr(OrElse(UpdatePick(clauses, row, column), InsertPick(clauses, row, column)),
                     Lookup(row.target, column))
  {
    var us, ins := UpdateBranches(clauses, column), InsertBranches(clauses, schema, column);
    UpdateBranchesPick(clauses, row, column);
    InsertBranchesPick(clauses, schema, row, column);
    PickConcat(us, ins, row);
    CaseIsPick(us + ins, TargetCol(column), row);
  }

  /** A padded target side reads NULL in the column. */
  predicate PaddedAt(row: JoinRow, column: string) {
    !TargetPresent(row) ==> Lookup(row.target, column) == Null
  }

  lemma {:induction false} NoPickUnlessFires(clauses: seq<MergeClause>, row: JoinRow, column: string)
    requires AllOk(clauses)
    ensures (forall i :: 0 <= i < |clauses| && clauses[i].action.Update? ==> !Fires(clauses[i], row))
            ==> UpdatePick(clauses, row, column) == None
    ensures (forall i :: 0 <= i < |clauses| && clauses[i].action.Insert? ==> !Fires(clauses[i], row))
            ==> InsertPick(clauses, row, column) == None
  {
    if clauses != [] {
      var init := clauses[..|clauses| - 1];
      assert forall i :: 0 <= i < |init| ==> init[i] == clauses[i];
      NoPickUnlessFires(init, row, column);
    }
  }

  predicate NoInsertNames(clauses: seq<MergeClause>, column: string)
    requires AllOk(clauses)
  {
    forall i :: 0 <= i < |clauses| && clauses[i].action.Insert? ==> !Names(clauses[i], column)
  }

  lemma {:induction false} NoInsertNamesGivesNull(clauses: seq<MergeClause>, row: JoinRow, column: string)
    requires AllOk(clauses) && NoInsertNames(clauses, column)
    ensures InsertPick(clauses, row, column) in {None, Some(Null)}
  {
    if clauses != [] {
      var init := clauses[..|clauses| - 1];
      assert forall i :: 0 <= i < |init| ==> init[i] == clauses[i];
      NoInsertNamesGivesNull(init, row, column);
    }
  }

  // ------------------------------------------------------ the clause a column's CASE follows

  /** The first UPDATE clause that fires and names the column. */
  function UpdateDecider(clauses: seq<MergeClause>, row: JoinRow, column: string): (r: Option<nat>)
    requires AllOk(clauses)
    ensures r.Some? ==> r.value < |clauses| && UpdatesColumn(clauses[r.value], row, column)
    ensures forall i :: 0 <= i < (if r.Some? then r.value else |clauses|) ==> !UpdatesColumn(clauses[i], row, column)
  {
    if clauses == [] then None
    else
      var init, c := clauses[..|clauses| - 1], clauses[|clauses| - 1];
      assert forall i :: 0 <= i < |init| ==> init[i] == clauses[i];
      var before := UpdateDecider(init, row, column);
      if before.Some? then before
      else if UpdatesColumn(c, row, column) then Some(|clauses| - 1)
      else None
  }

  predicate UpdatesColumn(c: MergeClause, row: JoinRow, column: string)
    requires ClauseOk(c)
  {
    c.action.Update? && Fires(c, row) && Names(c, column)
  }

  predicate NamedAfter(clauses: seq<MergeClause>, column: string, i: int)
    requires AllOk(clauses) && 0 <= i < |clauses|
  {
    forall j :: i < j < |clauses| && clauses[j].action.Insert? ==> Names(clauses[j], column)
  }

  /** What an INSERT records for the column is not forgotten: every later INSERT names it. */
  predicate Live(clauses: seq<MergeClause>, column: string, i: int)
    requires AllOk(clauses) && 0 <= i < |clauses|
  {
    clauses[i].action.Insert? && NamedAfter(clauses, column, i)
  }

  /** The first INSERT clause that fires among those still recorded. */
  function InsertDecider(clauses: seq<MergeClause>, row: JoinRow, column: string): (r: Option<nat>)
    requires AllOk(clauses)
    ensures r.Some? ==> r.value < |clauses| && Live(clauses, column, r.value) && Fires(clauses[r.value], row)
    ensures forall i :: 0 <= i < (if r.Some? then r.value else |clauses|) ==>
                          !(Live(clauses, column, i) && Fires(clauses[i], row))
  {
    if clauses == [] then None
    else
      var init, c := clauses[..|clauses| - 1], clauses[|clauses| - 1];
      assert forall i :: 0 <= i < |init| ==> init[i] == clauses[i];
      LiveBefore(clauses, column);
      var before := InsertDecider(init, row, column);
      if !c.action.Insert? || (Names(c, column) && before.Some?) then before
      else if Fires(c, row) then Some(|clauses| - 1)
      else None
  }

  lemma LiveBefore(clauses: seq<MergeClause>, column: string)
    requires AllOk(clauses) && clauses != []
    ensures
      var init, c := clauses[..|clauses| - 1], clauses[|clauses| - 1];
      AllOk(init) && forall i :: 0 <= i < |init| ==>
        (Live(clauses, column, i) <==> Live(init, column, i) && (c.action.Insert? ==> Names(c, column)))
  {
    var init, c := clauses[..|clauses| - 1], clauses[|clauses| - 1];
    assert forall i :: 0 <= i < |init| ==> init[i] == clauses[i];
    forall i | 0 <= i < |init|
      ensures Live(clauses, column, i) <==> Live(init, column, i) && (c.action.Insert? ==> Names(c, column))
    {
      if Live(init, column, i) && (c.action.Insert? ==> Names(c, column)) {
        forall j | i < j < |clauses| && clauses[j].action.Insert?
          ensures Names(clauses[j], column)
        {
          assert j < |init| ==> init[j] == clauses[j];
        }
      }
    }
  }

  function DecidedValue(clauses: seq<MergeClause>, k: Option<nat>, row: JoinRow, column: string): Option<Value>
    requires AllOk(clauses) && (k.Some? ==> k.value < |clauses|)
  {
    if k.None? then None else Some(ClauseValue(clauses[k.value], row, column))
  }

  lemma {:induction false} UpdatePickIsDecided(clauses: seq<MergeClause>, row: JoinRow, column: string)
    requires AllOk(clauses)
    ensures UpdatePick(clauses, row, column) == DecidedValue(clauses, UpdateDecider(clauses, row, column), row, column)
  {
    if clauses != [] {
      UpdatePickIsDecided(clauses[..|clauses| - 1], row, column);
    }
  }

  lemma {:induction false} InsertPickIsDecided(clauses: seq<MergeClause>, row: JoinRow, column: string)
    requires AllOk(clauses)
    ensures InsertPick(clauses, row, column) == DecidedValue(clauses, InsertDecider(clauses, row, column), row, column)
  {
    if clauses != [] {
      InsertPickIsDecided(clauses[..|clauses| - 1], row, column);
    }
  }

  /** The clause whose value the column's CASE takes, if it takes any. */
  function CaseClause(clauses: seq<MergeClause>, row: JoinRow, column: string): (r: Option<nat>)
    requires AllOk(clauses)
    ensures r.Some? ==> r.value < |clauses|
  {
    OrElse(UpdateDecider(clauses, row, column), InsertDecider(clauses, row, column))
  }

  predicate Silent(clauses: seq<MergeClause>, k: Option<nat>, column: string)
    requires AllOk(clauses) && (k.Some? ==> k.value < |clauses|)
  {
    k.Some? ==> !Names(clauses[k.value], column)
  }

  /** The CASE follows the clause that fires first, or neither of the two names the column. */
  predicate RowExact(clauses: seq<MergeClause>, row: JoinRow, column: string)
    requires AllOk(clauses)
  {
    var first, followed := FirstFiring(clauses, row), CaseClause(clauses, row, column);
    first == followed || (Silent(clauses, first, column) && Silent(clauses, followed, column))
  }

  lemma CaseValue(clauses: seq<MergeClause>, schema: seq<string>, row: JoinRow, column: string)
    requires AllOk(clauses) && Flagged(row) && column in schema
    ensures Eval(ColumnExpr(clauses, schema, column), row)
            == GetOr(DecidedValue(clauses, CaseClause(clauses, row, column), row, column), Lookup(row.target, column))
  {
    ColumnExprMeaning(clauses, schema, row, column);
    UpdatePickIsDecided(clauses, row, column);
    InsertPickIsDecided(clauses, row, column);
  }

  /** Where a clause that does not name the column decides, the column keeps its value, NULL when padded. */
  lemma SilentValue(clauses: seq<MergeClause>, k: Option<nat>, row: JoinRow, column: string)
    requires AllShaped(clauses) && PaddedAt(row, column) && (k.Some? ==> k.value < |clauses|)
    requires k.Some? ==> Fires(clauses[k.value], row)
    requires Silent(clauses, k, column)
    ensures GetOr(DecidedValue(clauses, k, row, column), Lookup(row.target, column)) == Lookup(row.target, column)
  {
  }

  lemma NewValueIsDecided(clauses: seq<MergeClause>, row: JoinRow, column: string)
    requires AllOk(clauses)
    ensures NewValue(clauses, row, column)
            == GetOr(DecidedValue(clauses, FirstFiring(clauses, row), row, column), Lookup(row.target, column))
  {
  }

  /** On a row that is exact for the column, the planned column is the row-at-a-time value. */
  lemma ExactColumnAgrees(clauses: seq<MergeClause>, schema: seq<string>, row: JoinRow, column: string)
    requires AllShaped(clauses) && Flagged(row) && PaddedAt(row, column) && column in schema
    requires RowExact(clauses, row, column)
    ensures Eval(ColumnExpr(clauses, schema, column), row) == NewValue(clauses, row, column)
  {
    var first, followed := FirstFiring(clauses, row), CaseClause(clauses, row, column);
    CaseValue(clauses, schema, row, column);
    NewValueIsDecided(clauses, row, column);
    if first != followed {
      SilentValue(clauses, first, row, column);
      SilentValue(clauses, followed, row, column);
    }
  }

  // ------------------------------------------------------------------- when a row is exact

  lemma InsertsSilent(clauses: seq<MergeClause>, row: JoinRow, column: string)
    requires AllShaped(clauses) && TargetPresent(row)
    ensures CaseClause(clauses, row, column) == UpdateDecider(clauses, row, column)
  {
  }

  lemma UpdatesSilent(clauses: seq<MergeClause>, row: JoinRow, column: string)
    requires AllShaped(clauses) && !TargetPresent(row)
    ensures CaseClause(clauses, row, column) == InsertDecider(clauses, row, column)
  {
  }

  predicate NoUpdateOf(clauses: seq<MergeClause>, row: JoinRow, column: string)
    requires AllOk(clauses)
  {
    forall i :: 0 <= i < |clauses| ==> !UpdatesColumn(clauses[i], row, column)
  }

  /** A row with a target is exact when the first clause that fires names the column or no UPDATE that fires does. */
  lemma TargetRowExactIff(clauses: seq<MergeClause>, row: JoinRow, column: string)
    requires AllShaped(clauses) && TargetPresent(row)
    ensures RowExact(clauses, row, column) <==>
            NoUpdateOf(clauses, row, column)
            || (FirstFiring(clauses, row).Some? && Names(clauses[FirstFiring(clauses, row).value], column))
  {
    InsertsSilent(clauses, row, column);
    var first := FirstFiring(clauses, row);
    if first.Some? && Names(clauses[first.value], column) {
      UpdateDeciderIs(clauses, row, column, first.value);
    } else if NoUpdateOf(clauses, row, column) {
      assert UpdateDecider(clauses, row, column) == None;
    } else {
      assert UpdateDecider(clauses, row, column).Some?;
    }
  }

  lemma UpdateDeciderIs(clauses: seq<MergeClause>, row: JoinRow, column: string, k: nat)
    requires AllOk(clauses) && k < |clauses| && UpdatesColumn(clauses[k], row, column)
    requires forall i :: 0 <= i < k ==> !UpdatesColumn(clauses[i], row, column)
    ensures UpdateDecider(clauses, row, column) == Some(k)
  {
    var r := UpdateDecider(clauses, row, column);
    assert r.Some? && r.value == k;
  }

  lemma InsertDeciderIs(clauses: seq<MergeClause>, row: JoinRow, column: string, k: nat)
    requires AllOk(clauses) && k < |clauses| && Live(clauses, column, k) && Fires(clauses[k], row)
    requires forall i :: 0 <= i < k ==> !(Live(clauses, column, i) && Fires(clauses[i], row))
    ensures InsertDecider(clauses, row, column) == Some(k)
  {
    var r := InsertDecider(clauses, row, column);
    assert r.Some? && r.value == k;
  }

  /** Where at most one UPDATE clause fires, the row is exact for every column. */
  lemma OneUpdateFiresIsExact(clauses: seq<MergeClause>, row: JoinRow, column: string)
    requires AllShaped(clauses) && TargetPresent(row)
    requires forall i, j :: 0 <= i < j < |clauses| ==> !(Fires(clauses[i], row) && Fires(clauses[j], row))
    ensures RowExact(clauses, row, column)
  {
    TargetRowExactIff(clauses, row, column);
    var first := FirstFiring(clauses, row);
    if first.Some? && !Names(clauses[first.value], column) {
      forall i | 0 <= i < |clauses|
        ensures !UpdatesColumn(clauses[i], row, column)
      {
        if i > first.value {
          assert !(Fires(clauses[first.value], row) && Fires(clauses[i], row));
        }
      }
    }
  }
}
