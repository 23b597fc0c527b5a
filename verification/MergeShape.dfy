/**
 * Which MERGE statements are right by the shape of their column lists alone: for all guards, values
 * and rows, the per-column CASE is the row-at-a-time value exactly under `UpdateExact` and `InsertExact`.
 */
module MergeShape {
  import opened Common
  import opened SqlExpr
  import opened MergeClauses
  import opened MergeRows
  import opened MergeCase
  import opened MergeRowExact

  /** The UPDATE clauses that assign the column come before those that do not. */
  predicate UpdateExact(clauses: seq<MergeClause>, column: string)
    requires AllOk(clauses)
  {
    forall h, i ::
      0 <= h < i < |clauses| && clauses[h].action.Update? && clauses[i].action.Update? && Names(clauses[i], column)
      ==> Names(clauses[h], column)
  }

  /** No INSERT clause names the column, or every one after the first does. */
  predicate InsertExact(clauses: seq<MergeClause>, column: string)
    requires AllOk(clauses)
  {
    NoInsertNames(clauses, column) || LaterInsertsName(clauses, column)
  }

  predicate LaterInsertsName(clauses: seq<MergeClause>, column: string)
    requires AllOk(clauses)
  {
    forall h, i ::
      0 <= h < i < |clauses| && clauses[h].action.Insert? && clauses[i].action.Insert?
      ==> Names(clauses[i], column)
  }

  /** Exact column lists make every row exact. */
  lemma ShapeIsRowExact(clauses: seq<MergeClause>, row: JoinRow, column: string)
    requires AllShaped(clauses) && UpdateExact(clauses, column) && InsertExact(clauses, column)
    ensures RowExact(clauses, row, column)
  {
    if TargetPresent(row) {
      UpdateShapeExact(clauses, row, column);
    } else {
      SourceRowExact(clauses, row, column);
    }
  }

  /** On a row without a target, exact INSERT lists are enough. */
  lemma SourceRowExact(clauses: seq<MergeClause>, row: JoinRow, column: string)
    requires AllShaped(clauses) && InsertExact(clauses, column) && !TargetPresent(row)
    ensures RowExact(clauses, row, column)
  {
    UpdatesSilent(clauses, row, column);
    if LaterInsertsName(clauses, column) {
      InsertShapeExact(clauses, row, column);
    }
  }

  lemma UpdateShapeExact(clauses: seq<MergeClause>, row: JoinRow, column: string)
    requires AllShaped(clauses) && UpdateExact(clauses, column) && TargetPresent(row)
    ensures RowExact(clauses, row, column)
  {
    TargetRowExactIff(clauses, row, column);
    var first := FirstFiring(clauses, row);
    if first.Some? && !Names(clauses[first.value], column) {
      forall i | 0 <= i < |clauses|
        ensures !UpdatesColumn(clauses[i], row, column)
      {
        assert i > first.value && clauses[i].action.Update? ==> !Names(clauses[i], column);
      }
    }
  }

  lemma InsertShapeExact(clauses: seq<MergeClause>, row: JoinRow, column: string)
    requires AllShaped(clauses) && LaterInsertsName(clauses, column) && !TargetPresent(row)
    ensures InsertDecider(clauses, row, column) == FirstFiring(clauses, row)
  {
    var first := FirstFiring(clauses, row);
    if first.Some? {
      assert Live(clauses, column, first.value);
      InsertDeciderIs(clauses, row, column, first.value);
    }
  }

  /** Two UPDATE clauses over different columns, the second guarded by what the first is not. */
  function GuardedApart(g: JoinRow -> Value): (r: seq<MergeClause>)
    ensures AllShaped(r)
  {
    var negated := (row: JoinRow) => Bool(g(row) != TRUE);
    var r := [MergeClause(Matched, Some(Planned(g)), Update([Assignment(["a"], SourceCol("a"))])),
              MergeClause(Matched, Some(Planned(negated)), Update([Assignment(["b"], SourceCol("b"))]))];
    assert ClauseOk(r[0]) && ClauseOk(r[1]);
    r
  }

  /** Such a statement is right on every target row although its column lists are not exact. */
  lemma GuardedApartIsRowExact(g: JoinRow -> Value, row: JoinRow, column: string)
    ensures !UpdateExact(GuardedApart(g), "b")
    ensures TargetPresent(row) ==> RowExact(GuardedApart(g), row, column)
  {
    var clauses := GuardedApart(g);
    assert Pairs(clauses[0]) == [("a", SourceCol("a"))] && Pairs(clauses[1]) == [("b", SourceCol("b"))];
    assert Pairs(clauses[1])[0].0 == "b";
    assert Names(clauses[1], "b") && !Names(clauses[0], "b");
    if TargetPresent(row) {
      OneUpdateFiresIsExact(clauses, row, column);
    }
  }

  // ------------------------------------------------------------------- the shape is also necessary

  /** The clause with guard TRUE or FALSE and every value the literal 1. */
  function Probe(c: MergeClause, on: bool): (r: MergeClause)
    requires ClauseOk(c)
    ensures ClauseOk(r) && SameShape(c, r)
    ensures |Pairs(r)| == |Pairs(c)|
    ensures forall i :: 0 <= i < |Pairs(c)| ==> Pairs(r)[i] == (Pairs(c)[i].0, Lit(Int(1)))
  {
    var guard := if on then None else Some(Lit(FALSE));
    var action := match c.action
      case Update(xs) => Update(seq(|xs|, i requires 0 <= i < |xs| => Assignment(xs[i].column, Lit(Int(1)))))
      case Insert(columns, kind) => Insert(columns, Values([seq(|kind.rows[0]|, i => Lit(Int(1)))]))
      case Delete => Delete;
    MergeClause(c.kind, guard, action)
  }

  function Probes(clauses: seq<MergeClause>, on: set<int>): (r: seq<MergeClause>)
    requires AllOk(clauses)
    ensures |r| == |clauses| && AllOk(r) && SameShapes(clauses, r)
    ensures forall i :: 0 <= i < |r| ==> r[i] == Probe(clauses[i], i in on)
  {
    seq(|clauses|, i requires 0 <= i < |clauses| => Probe(clauses[i], i in on))
  }

  /** What a probe keeps of its clause, and when it fires. */
  predicate ProbedAt(c: MergeClause, p: MergeClause, on: bool, row: JoinRow, column: string)
    requires ClauseOk(c) && ClauseOk(p)
  {
    && c.action.Update? == p.action.Update? && c.action.Insert? == p.action.Insert?
    && (Names(p, column) <==> Names(c, column))
    && (Names(p, column) ==> ClauseValue(p, row, column) == Int(1))
    && (Fires(p, row) <==> on && KindHolds(c.kind, row))
  }

  lemma ProbeKeeps(c: MergeClause, on: bool, row: JoinRow, column: string)
    requires ClauseOk(c)
    ensures ProbedAt(c, Probe(c, on), on, row, column)
  {
    var p := Probe(c, on);
    SameNames(c, p, column);
  }

  lemma ProbesKeep(clauses: seq<MergeClause>, on: set<int>, row: JoinRow, column: string)
    returns (other: seq<MergeClause>)
    requires AllShaped(clauses)
    requires forall k :: 0 <= k < |clauses| && k in on ==> KindHolds(clauses[k].kind, row)
    ensures SameShapes(clauses, other) && AllShaped(other)
    ensures FireOnly(other, row, on)
    ensures forall k :: 0 <= k < |clauses| ==> ProbedAt(clauses[k], other[k], k in on, row, column)
    ensures Ones(other, row, column)
  {
    other := Probes(clauses, on);
    forall k | 0 <= k < |clauses|
      ensures ProbedAt(clauses[k], other[k], k in on, row, column)
    {
      ProbeKeeps(clauses[k], k in on, row, column);
    }
    forall k | 0 <= k < |other|
      ensures Fires(other[k], row) <==> k in on
    {
      assert ProbedAt(clauses[k], other[k], k in on, row, column);
    }
  }

  lemma FirstFiringIs(clauses: seq<MergeClause>, row: JoinRow, k: nat)
    requires k < |clauses| && Fires(clauses[k], row)
    requires forall i :: 0 <= i < k ==> !Fires(clauses[i], row)
    ensures FirstFiring(clauses, row) == Some(k)
  {
    var r := FirstFiring(clauses, row);
    assert r.Some?;
    assert r.value == k;
  }

  const BOTH_SIDES := JoinRow(map[TARGET_EXISTS := TRUE], map[SOURCE_EXISTS := TRUE])
  const SOURCE_ONLY := JoinRow(map[], map[SOURCE_EXISTS := TRUE])

  /** Some guards, values and row of this shape on which the planned column is wrong. */
  ghost predicate Disagrees(clauses: seq<MergeClause>, schema: seq<string>, column: string)
    requires AllOk(clauses)
  {
    exists other: seq<MergeClause>, row: JoinRow ::
      && SameShapes(clauses, other) && AllShaped(other) && Flagged(row) && PaddedAt(row, column)
      && Eval(ColumnExpr(other, schema, column), row) != NewValue(other, row, column)
  }

  lemma {:induction false} UpdatePickOfProbes(clauses: seq<MergeClause>, row: JoinRow, column: string, i: nat)
    requires AllOk(clauses) && i < |clauses|
    requires clauses[i].action.Update? && Fires(clauses[i], row) && Names(clauses[i], column)
    requires Ones(clauses, row, column)
    ensures UpdatePick(clauses, row, column) == Some(Int(1))
  {
    var init := clauses[..|clauses| - 1];
    assert forall j :: 0 <= j < |init| ==> init[j] == clauses[j];
    if i < |init| {
      UpdatePickOfProbes(init, row, column, i);
    } else if UpdatePick(init, row, column).Some? {
      UpdatePickIsAValue(init, row, column);
    }
  }

  lemma {:induction false} UpdatePickIsAValue(clauses: seq<MergeClause>, row: JoinRow, column: string)
    requires AllOk(clauses) && UpdatePick(clauses, row, column).Some?
    ensures exists i :: 0 <= i < |clauses| && Names(clauses[i], column)
                        && ClauseValue(clauses[i], row, column) == UpdatePick(clauses, row, column).value
  {
    var init := clauses[..|clauses| - 1];
    if UpdatePick(init, row, column).Some? {
      UpdatePickIsAValue(init, row, column);
      var i :| 0 <= i < |init| && Names(init[i], column)
               && ClauseValue(init[i], row, column) == UpdatePick(init, row, column).value;
      assert clauses[i] == init[i];
    }
  }

  /** After a clause that omits the column, with nothing firing since, nothing is picked. */
  lemma {:induction false} InsertPickAfterOmission(clauses: seq<MergeClause>, row: JoinRow, column: string, i: nat)
    requires AllOk(clauses) && i < |clauses|
    requires clauses[i].action.Insert? && !Names(clauses[i], column)
    requires forall j :: i <= j < |clauses| && clauses[j].action.Insert? ==> !Fires(clauses[j], row)
    ensures InsertPick(clauses, row, column) == None
  {
    var init := clauses[..|clauses| - 1];
    assert forall j :: 0 <= j < |init| ==> init[j] == clauses[j];
    if i < |init| {
      InsertPickAfterOmission(init, row, column, i);
    }
  }

  /** A picked value survives clauses that name the column. */
  lemma {:induction false} InsertPickKept(clauses: seq<MergeClause>, row: JoinRow, column: string, n: nat)
    requires AllOk(clauses) && n <= |clauses| && InsertPick(clauses[..n], row, column).Some?
    requires forall j :: n <= j < |clauses| && clauses[j].action.Insert? ==> Names(clauses[j], column)
    ensures InsertPick(clauses, row, column) == InsertPick(clauses[..n], row, column)
  {
    if n == |clauses| {
      assert clauses[..n] == clauses;
    } else {
      var init := clauses[..|clauses| - 1];
      assert forall j :: 0 <= j < |init| ==> init[j] == clauses[j];
      assert init[..n] == clauses[..n];
      InsertPickKept(init, row, column, n);
    }
  }

  /** Every value the clauses give the column on this row is 1. */
  predicate Ones(clauses: seq<MergeClause>, row: JoinRow, column: string)
    requires AllOk(clauses)
  {
    forall j :: 0 <= j < |clauses| && Names(clauses[j], column) ==> ClauseValue(clauses[j], row, column) == Int(1)
  }

  /** Exactly the listed clauses fire. */
  predicate FireOnly(clauses: seq<MergeClause>, row: JoinRow, on: set<int>) {
    forall j :: 0 <= j < |clauses| ==> (Fires(clauses[j], row) <==> j in on)
  }

  /** An UPDATE that fires first and leaves the column alone is overridden by a later one. */
  lemma OverriddenUpdate(
    clauses: seq<MergeClause>, schema: seq<string>, row: JoinRow, column: string, h: int, i: int)
    requires AllShaped(clauses) && column in schema && Flagged(row) && 0 <= h < i < |clauses|
    requires FireOnly(clauses, row, {h, i}) && Ones(clauses, row, column) && Lookup(row.target, column) == Null
    requires clauses[h].action.Update? && clauses[i].action.Update?
    requires !Names(clauses[h], column) && Names(clauses[i], column)
    ensures Eval(ColumnExpr(clauses, schema, column), row) == Int(1)
    ensures NewValue(clauses, row, column) == Null
  {
    UpdatePickOfProbes(clauses, row, column, i);
    ColumnExprMeaning(clauses, schema, row, column);
    FirstFiringIs(clauses, row, h);
  }

  /** A value named before a clause that omits the column is forgotten. */
  lemma ForgottenValue(
    clauses: seq<MergeClause>, schema: seq<string>, row: JoinRow, column: string, n: int, o: int)
    requires AllShaped(clauses) && column in schema && Flagged(row) && !TargetPresent(row) && 0 <= n < o < |clauses|
    requires FireOnly(clauses, row, {n}) && Ones(clauses, row, column) && Lookup(row.target, column) == Null
    requires clauses[n].action.Insert? && clauses[o].action.Insert?
    requires Names(clauses[n], column) && !Names(clauses[o], column)
    ensures Eval(ColumnExpr(clauses, schema, column), row) == Null
    ensures NewValue(clauses, row, column) == Int(1)
  {
    InsertPickAfterOmission(clauses, row, column, o);
    NothingUpdates(clauses, row, column);
    ColumnExprMeaning(clauses, schema, row, column);
    FirstFiringIs(clauses, row, n);
  }

  /** The NULL of an early omitting clause is lost to a later value. */
  lemma LeakedValue(
    clauses: seq<MergeClause>, schema: seq<string>, row: JoinRow, column: string, h: int, i: int, j: int)
    requires AllShaped(clauses) && column in schema && Flagged(row) && !TargetPresent(row)
    requires 0 <= h < i < j < |clauses|
    requires FireOnly(clauses, row, {h, j}) && Ones(clauses, row, column)
    requires clauses[h].action.Insert? && clauses[i].action.Insert? && clauses[j].action.Insert?
    requires !Names(clauses[h], column) && !Names(clauses[i], column) && Names(clauses[j], column)
    requires forall k :: j < k < |clauses| && clauses[k].action.Insert? ==> Names(clauses[k], column)
    ensures Eval(ColumnExpr(clauses, schema, column), row) == Int(1)
    ensures NewValue(clauses, row, column) == Null
  {
    LeakedPick(clauses, row, column, i, j);
    NothingUpdates(clauses, row, column);
    ColumnExprMeaning(clauses, schema, row, column);
    FirstFiringIs(clauses, row, h);
  }

  lemma NothingUpdates(clauses: seq<MergeClause>, row: JoinRow, column: string)
    requires AllShaped(clauses) && !TargetPresent(row)
    ensures UpdatePick(clauses, row, column) == None
  {
    NoPickUnlessFires(clauses, row, column);
  }

  lemma LeakedPick(clauses: seq<MergeClause>, row: JoinRow, column: string, i: nat, j: nat)
    requires AllOk(clauses) && i < j < |clauses|
    requires clauses[i].action.Insert? && !Names(clauses[i], column)
    requires forall k :: i <= k < j ==> !Fires(clauses[k], row)
    requires clauses[j].action.Insert? && Names(clauses[j], column) && Fires(clauses[j], row)
    requires forall k :: j < k < |clauses| && clauses[k].action.Insert? ==> Names(clauses[k], column)
    ensures InsertPick(clauses, row, column) == Some(ClauseValue(clauses[j], row, column))
  {
    InsertPickAfterOmission(clauses[..j], row, column, i);
    assert clauses[..j + 1][..j] == clauses[..j];
    InsertPickKept(clauses, row, column, j + 1);
  }

  lemma DisagreesBy(
    clauses: seq<MergeClause>, other: seq<MergeClause>, schema: seq<string>, row: JoinRow, column: string)
    requires AllOk(clauses) && SameShapes(clauses, other) && AllShaped(other)
    requires Flagged(row) && PaddedAt(row, column)
    requires Eval(ColumnExpr(other, schema, column), row) != NewValue(other, row, column)
    ensures Disagrees(clauses, schema, column)
  {
  }

  lemma OmittedThenNamedDisagrees(clauses: seq<MergeClause>, schema: seq<string>, column: string, h: int, i: int)
    requires AllShaped(clauses) && column in schema && column != TARGET_EXISTS && 0 <= h < i < |clauses|
    requires clauses[h].action.Update? && clauses[i].action.Update?
    requires !Names(clauses[h], column) && Names(clauses[i], column)
    ensures Disagrees(clauses, schema, column)
  {
    var other := ProbesKeep(clauses, {h, i}, BOTH_SIDES, column);
    assert ProbedAt(clauses[h], other[h], true, BOTH_SIDES, column);
    assert ProbedAt(clauses[i], other[i], true, BOTH_SIDES, column);
    OverriddenUpdate(other, schema, BOTH_SIDES, column, h, i);
    DisagreesBy(clauses, other, schema, BOTH_SIDES, column);
  }

  lemma UpdateExactNecessary(clauses: seq<MergeClause>, schema: seq<string>, column: string)
    requires AllShaped(clauses) && column in schema && column != TARGET_EXISTS
    requires !UpdateExact(clauses, column)
    ensures Disagrees(clauses, schema, column)
  {
    var h, i :| 0 <= h < i < |clauses| && clauses[h].action.Update? && clauses[i].action.Update?
                && Names(clauses[i], column) && !Names(clauses[h], column);
    OmittedThenNamedDisagrees(clauses, schema, column, h, i);
  }

  lemma NamedThenOmittedDisagrees(clauses: seq<MergeClause>, schema: seq<string>, column: string, n: int, o: int)
    requires AllShaped(clauses) && column in schema && 0 <= n < o < |clauses|
    requires clauses[n].action.Insert? && clauses[o].action.Insert?
    requires Names(clauses[n], column) && !Names(clauses[o], column)
    ensures Disagrees(clauses, schema, column)
  {
    var other := ProbesKeep(clauses, {n}, SOURCE_ONLY, column);
    assert ProbedAt(clauses[n], other[n], true, SOURCE_ONLY, column);
    assert ProbedAt(clauses[o], other[o], false, SOURCE_ONLY, column);
    ForgottenValue(other, schema, SOURCE_ONLY, column, n, o);
    DisagreesBy(clauses, other, schema, SOURCE_ONLY, column);
  }

  lemma OmittedTwiceThenNamedDisagrees(
    clauses: seq<MergeClause>, schema: seq<string>, column: string, h: int, i: int, j: int)
    requires AllShaped(clauses) && column in schema && 0 <= h < i < j < |clauses|
    requires clauses[h].action.Insert? && clauses[i].action.Insert? && clauses[j].action.Insert?
    requires !Names(clauses[h], column) && !Names(clauses[i], column) && Names(clauses[j], column)
    requires forall k :: j < k < |clauses| && clauses[k].action.Insert? ==> Names(clauses[k], column)
    ensures Disagrees(clauses, schema, column)
  {
    var other := ProbesKeep(clauses, {h, j}, SOURCE_ONLY, column);
    assert ProbedAt(clauses[h], other[h], true, SOURCE_ONLY, column);
    assert ProbedAt(clauses[i], other[i], false, SOURCE_ONLY, column);
    assert ProbedAt(clauses[j], other[j], true, SOURCE_ONLY, column);
    LeakedValue(other, schema, SOURCE_ONLY, column, h, i, j);
    DisagreesBy(clauses, other, schema, SOURCE_ONLY, column);
  }

  lemma InsertExactNecessary(clauses: seq<MergeClause>, schema: seq<string>, column: string)
    requires AllShaped(clauses) && column in schema
    requires !InsertExact(clauses, column)
    ensures Disagrees(clauses, schema, column)
  {
    var h, i :| 0 <= h < i < |clauses| && clauses[h].action.Insert? && clauses[i].action.Insert?
                && !Names(clauses[i], column);
    var j :| 0 <= j < |clauses| && clauses[j].action.Insert? && Names(clauses[j], column);
    if n, o :| 0 <= n < o < |clauses| && clauses[n].action.Insert? && clauses[o].action.Insert?
               && Names(clauses[n], column) && !Names(clauses[o], column) {
      NamedThenOmittedDisagrees(clauses, schema, column, n, o);
    } else {
      OmittedTwiceThenNamedDisagrees(clauses, schema, column, h, i, j);
    }
  }

  /**
   * Per-column CASE and row-at-a-time MERGE agree for every guard, value and row of a statement's
   * shape exactly when its column lists are exact.
   */
  lemma PerColumnCaseIsExact(clauses: seq<MergeClause>, schema: seq<string>, column: string)
    requires AllShaped(clauses) && column in schema && column != TARGET_EXISTS
    ensures !Disagrees(clauses, schema, column) <==> UpdateExact(clauses, column) && InsertExact(clauses, column)
  {
    if UpdateExact(clauses, column) && InsertExact(clauses, column) {
      forall other: seq<MergeClause>, row: JoinRow |
        SameShapes(clauses, other) && AllShaped(other) && Flagged(row) && PaddedAt(row, column)
        ensures Eval(ColumnExpr(other, schema, column), row) == NewValue(other, row, column)
      {
        ExactnessIsShape(clauses, other, column);
        ShapeIsRowExact(other, row, column);
        ExactColumnAgrees(other, schema, row, column);
      }
    } else if !UpdateExact(clauses, column) {
      UpdateExactNecessary(clauses, schema, column);
    } else {
      InsertExactNecessary(clauses, schema, column);
    }
  }

  lemma ExactnessIsShape(a: seq<MergeClause>, b: seq<MergeClause>, column: string)
    requires AllOk(a) && AllOk(b) && SameShapes(a, b)
    ensures UpdateExact(a, column) <==> UpdateExact(b, column)
    ensures InsertExact(a, column) <==> InsertExact(b, column)
  {
    forall i | 0 <= i < |a|
      ensures Names(a[i], column) <==> Names(b[i], column)
      ensures a[i].action.Update? == b[i].action.Update? && a[i].action.Insert? == b[i].action.Insert?
    {
      SameNames(a[i], b[i], column);
    }
  }
}
