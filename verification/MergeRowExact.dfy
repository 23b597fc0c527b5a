/**
 * Exactness of a row is also necessary: on a row where the CASE follows another clause than the one that
 * fires first, some values of the statement make it wrong.
 */
module MergeRowExact {
  import opened Common
  import opened SqlExpr
  import opened MergeClauses
  import opened MergeRows
  import opened MergeCase

  /** Same kinds of clause naming the same columns in the same order; guards and values may differ. */
  predicate SameShape(a: MergeClause, b: MergeClause) {
    && a.kind == b.kind
    && match (a.action, b.action)
       case (Update(xs), Update(ys)) => |xs| == |ys| && forall i :: 0 <= i < |xs| ==> xs[i].column == ys[i].column
       case (Insert(xs, k), Insert(ys, l)) =>
         xs == ys && k.Values? && l.Values? && |k.rows| == |l.rows| == 1 && |k.rows[0]| == |l.rows[0]|
       case (Delete, Delete) => true
       case _ => false
  }

  predicate SameShapes(a: seq<MergeClause>, b: seq<MergeClause>) {
    |a| == |b| && forall i :: 0 <= i < |a| ==> SameShape(a[i], b[i])
  }

  lemma SameNames(a: MergeClause, b: MergeClause, column: string)
    requires ClauseOk(a) && ClauseOk(b) && SameShape(a, b)
    ensures Names(a, column) <==> Names(b, column)
  {
    assert |Pairs(a)| == |Pairs(b)| && forall i :: 0 <= i < |Pairs(a)| ==> Pairs(a)[i].0 == Pairs(b)[i].0;
    if Names(a, column) {
      var i :| 0 <= i < |Pairs(a)| && Pairs(a)[i].0 == column;
      assert Pairs(b)[i].0 == column;
    }
    if Names(b, column) {
      var i :| 0 <= i < |Pairs(b)| && Pairs(b)[i].0 == column;
      assert Pairs(a)[i].0 == column;
    }
  }

  /** The same guards and columns, with the literal v for every value. */
  function Relabel(c: MergeClause, v: int): (r: MergeClause)
    requires ClauseOk(c)
    ensures ClauseOk(r) && SameShape(c, r) && r.guard == c.guard
    ensures |Pairs(r)| == |Pairs(c)|
    ensures forall i :: 0 <= i < |Pairs(c)| ==> Pairs(r)[i] == (Pairs(c)[i].0, Lit(Int(v)))
  {
    var action := match c.action
      case Update(xs) => Update(seq(|xs|, i requires 0 <= i < |xs| => Assignment(xs[i].column, Lit(Int(v)))))
      case Insert(columns, kind) => Insert(columns, Values([seq(|kind.rows[0]|, i => Lit(Int(v)))]))
      case Delete => Delete;
    MergeClause(c.kind, c.guard, action)
  }

  function RelabelAll(clauses: seq<MergeClause>, base: int): (r: seq<MergeClause>)
    requires AllOk(clauses)
    ensures |r| == |clauses| && AllOk(r) && SameShapes(clauses, r)
    ensures forall i :: 0 <= i < |r| ==> r[i] == Relabel(clauses[i], base + i)
  {
    seq(|clauses|, i requires 0 <= i < |clauses| => Relabel(clauses[i], base + i))
  }

  /** Clause by clause the same on this row but for the values. */
  predicate SameOnRow(a: seq<MergeClause>, b: seq<MergeClause>, row: JoinRow, column: string)
    requires AllOk(a) && AllOk(b)
  {
    |a| == |b| && forall i :: 0 <= i < |a| ==>
      && (Fires(a[i], row) <==> Fires(b[i], row)) && (Names(a[i], column) <==> Names(b[i], column))
      && a[i].action.Update? == b[i].action.Update? && a[i].action.Insert? == b[i].action.Insert?
  }

  /** Where a clause names the column, its other version gives it the number of the clause. */
  predicate Labelled(a: seq<MergeClause>, b: seq<MergeClause>, base: int, row: JoinRow, column: string)
    requires AllOk(a) && AllOk(b)
  {
    |a| == |b| && forall i :: 0 <= i < |a| && Names(a[i], column) ==> ClauseValue(b[i], row, column) == Int(base + i)
  }

  lemma RelabelKeeps(clauses: seq<MergeClause>, base: int, row: JoinRow, column: string)
    requires AllOk(clauses)
    ensures SameOnRow(clauses, RelabelAll(clauses, base), row, column)
    ensures Labelled(clauses, RelabelAll(clauses, base), base, row, column)
  {
    var other := RelabelAll(clauses, base);
    forall i | 0 <= i < |clauses|
      ensures Names(clauses[i], column) <==> Names(other[i], column)
      ensures Names(clauses[i], column) ==> ClauseValue(other[i], row, column) == Int(base + i)
    {
      SameNames(clauses[i], other[i], column);
    }
  }

  lemma SameFirst(a: seq<MergeClause>, b: seq<MergeClause>, row: JoinRow, column: string)
    requires AllOk(a) && AllOk(b) && SameOnRow(a, b, row, column)
    ensures FirstFiring(a, row) == FirstFiring(b, row)
  {
    var f, g := FirstFiring(a, row), FirstFiring(b, row);
    assert f.Some? ==> Fires(b[f.value], row);
    assert g.Some? ==> Fires(a[g.value], row);
  }

  lemma SameUpdateDecider(a: seq<MergeClause>, b: seq<MergeClause>, row: JoinRow, column: string)
    requires AllOk(a) && AllOk(b) && SameOnRow(a, b, row, column)
    ensures UpdateDecider(a, row, column) == UpdateDecider(b, row, column)
  {
    assert forall i :: 0 <= i < |a| ==> (UpdatesColumn(a[i], row, column) <==> UpdatesColumn(b[i], row, column));
    var f := UpdateDecider(a, row, column);
    if f.Some? {
      UpdateDeciderIs(b, row, column, f.value);
    }
  }

  lemma SameInsertDecider(a: seq<MergeClause>, b: seq<MergeClause>, row: JoinRow, column: string)
    requires AllOk(a) && AllOk(b) && SameOnRow(a, b, row, column)
    ensures InsertDecider(a, row, column) == InsertDecider(b, row, column)
  {
    assert forall i :: 0 <= i < |a| ==> (Live(a, column, i) <==> Live(b, column, i));
    var f := InsertDecider(a, row, column);
    if f.Some? {
      InsertDeciderIs(b, row, column, f.value);
    }
  }

  /** Some values, with the guards and columns as they are, for which the planned column is wrong on the row. */
  ghost predicate WrongForSomeValues(clauses: seq<MergeClause>, schema: seq<string>, row: JoinRow, column: string)
    requires AllOk(clauses)
  {
    exists other: seq<MergeClause> ::
      && AllShaped(other) && SameShapes(clauses, other) && SameOnRow(clauses, other, row, column)
      && Eval(ColumnExpr(other, schema, column), row) != NewValue(other, row, column)
  }

  lemma SameCase(a: seq<MergeClause>, b: seq<MergeClause>, row: JoinRow, column: string)
    requires AllOk(a) && AllOk(b) && SameOnRow(a, b, row, column)
    ensures CaseClause(a, row, column) == CaseClause(b, row, column)
  {
    SameUpdateDecider(a, b, row, column);
    SameInsertDecider(a, b, row, column);
  }

  lemma CaseClauseFires(clauses: seq<MergeClause>, row: JoinRow, column: string)
    requires AllOk(clauses)
    ensures var k := CaseClause(clauses, row, column); k.Some? ==> Fires(clauses[k.value], row)
  {
  }

  lemma RelabelledApart(
    clauses: seq<MergeClause>, other: seq<MergeClause>, base: int, schema: seq<string>, row: JoinRow, column: string)
    requires AllShaped(clauses) && Flagged(row) && PaddedAt(row, column) && column in schema
    requires AllOk(other) && SameOnRow(clauses, other, row, column) && !RowExact(clauses, row, column)
    requires Labelled(clauses, other, base, row, column)
    requires Lookup(row.target, column).Int? ==> Lookup(row.target, column).i < base
    ensures Eval(ColumnExpr(other, schema, column), row) != NewValue(other, row, column)
  {
    SameFirst(clauses, other, row, column);
    SameCase(clauses, other, row, column);
    CaseClauseFires(clauses, row, column);
    CaseValue(other, schema, row, column);
    NewValueIsDecided(other, row, column);
    DecidedApart(clauses, other, base, row, column, FirstFiring(clauses, row), CaseClause(clauses, row, column));
  }

  /** Distinct values, none of them the stored one, tell the two readings apart. */
  lemma InexactRowIsWrong(clauses: seq<MergeClause>, schema: seq<string>, row: JoinRow, column: string)
    requires AllShaped(clauses) && Flagged(row) && PaddedAt(row, column) && column in schema
    requires !RowExact(clauses, row, column)
    ensures WrongForSomeValues(clauses, schema, row, column)
  {
    var stored := Lookup(row.target, column);
    var base := if stored.Int? then stored.i + 1 else 0;
    var other := RelabelAll(clauses, base);
    RelabelKeeps(clauses, base, row, column);
    RelabelledApart(clauses, other, base, schema, row, column);
    assert AllShaped(other);
  }

  lemma DecidedApart(
    clauses: seq<MergeClause>, other: seq<MergeClause>, base: int, row: JoinRow, column: string,
    f: Option<nat>, g: Option<nat>)
    requires AllShaped(clauses) && AllOk(other) && SameOnRow(clauses, other, row, column) && PaddedAt(row, column)
    requires f.Some? ==> f.value < |clauses| && Fires(clauses[f.value], row)
    requires g.Some? ==> g.value < |clauses| && Fires(clauses[g.value], row)
    requires Labelled(clauses, other, base, row, column)
    requires Lookup(row.target, column).Int? ==> Lookup(row.target, column).i < base
    requires f != g && !(Silent(clauses, f, column) && Silent(clauses, g, column))
    ensures GetOr(DecidedValue(other, f, row, column), Lookup(row.target, column))
            != GetOr(DecidedValue(other, g, row, column), Lookup(row.target, column))
  {
    var stored := Lookup(row.target, column);
    assert Silent(clauses, f, column) ==> GetOr(DecidedValue(other, f, row, column), stored) in {stored, Null};
    assert Silent(clauses, g, column) ==> GetOr(DecidedValue(other, g, row, column), stored) in {stored, Null};
  }

  /** On every row, CASE and row-at-a-time reading agree for all values exactly when the row is exact. */
  lemma RowAgreesIff(clauses: seq<MergeClause>, schema: seq<string>, row: JoinRow, column: string)
    requires AllShaped(clauses) && Flagged(row) && PaddedAt(row, column) && column in schema
    ensures RowExact(clauses, row, column) <==> !WrongForSomeValues(clauses, schema, row, column)
  {
    if RowExact(clauses, row, column) {
      forall other: seq<MergeClause> |
          AllShaped(other) && SameShapes(clauses, other) && SameOnRow(clauses, other, row, column)
        ensures Eval(ColumnExpr(other, schema, column), row) == NewValue(other, row, column)
      {
        SameFirst(clauses, other, row, column);
        SameCase(clauses, other, row, column);
        ExactColumnAgrees(other, schema, row, column);
      }
    } else {
      InexactRowIsWrong(clauses, schema, row, column);
    }
  }
}
