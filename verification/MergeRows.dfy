/**
 * What the planned projection computes for one join row, against a row-at-a-time reading of the
 * statement: the first clause that fires decides the whole row.
 */
module MergeRows {
  import opened Common
  import opened SqlExpr
  import opened MergeClauses

  // ------------------------------------------------------------------ row-at-a-time semantics

  predicate TargetPresent(row: JoinRow) { Lookup(row.target, TARGET_EXISTS) == TRUE }

  predicate SourcePresent(row: JoinRow) { Lookup(row.source, SOURCE_EXISTS) == TRUE }

  /** The presence flags of a join row are TRUE, or NULL on the side the full join padded. */
  predicate Flagged(row: JoinRow) {
    && Lookup(row.target, TARGET_EXISTS) in {TRUE, Null}
    && Lookup(row.source, SOURCE_EXISTS) in {TRUE, Null}
  }

  predicate KindHolds(kind: ClauseKind, row: JoinRow) {
    match kind
    case Matched => TargetPresent(row) && SourcePresent(row)
    case NotMatched => !TargetPresent(row)
    case NotMatchedByTarget => !TargetPresent(row)
    case NotMatchedBySource => TargetPresent(row) && !SourcePresent(row)
  }

  predicate Fires(c: MergeClause, row: JoinRow) {
    KindHolds(c.kind, row) && (c.guard.Some? ==> Eval(c.guard.value, row) == TRUE)
  }

  /** On a matching pair the MATCHED clauses fire, on an unmatched source row the NOT MATCHED ones, by their guards. */
  lemma FiresBySide(c: MergeClause, row: JoinRow)
    requires c.guard.None? || Eval(c.guard.value, row) == TRUE
    ensures Lookup(row.target, "__target_exists") == TRUE && Lookup(row.source, "__source_exists") == TRUE ==>
              (Fires(c, row) <==> c.kind == Matched)
    ensures Lookup(row.target, "__target_exists") == Null && Lookup(row.source, "__source_exists") == TRUE ==>
              (Fires(c, row) <==> c.kind == NotMatched || c.kind == NotMatchedByTarget)
    ensures Lookup(row.target, "__target_exists") == TRUE && Lookup(row.source, "__source_exists") == Null ==>
              (Fires(c, row) <==> c.kind == NotMatchedBySource)
  {
  }

  /** What the SQL parser admits here: UPDATE under MATCHED, INSERT under NOT MATCHED, no DELETE. */
  predicate Shaped(c: MergeClause) {
    match c.action
    case Update(_) => c.kind == Matched
    case Insert(_, _) => c.kind == NotMatched || c.kind == NotMatchedByTarget
    case Delete => false
  }

  predicate AllShaped(clauses: seq<MergeClause>) {
    AllOk(clauses) && forall i :: 0 <= i < |clauses| ==> Shaped(clauses[i])
  }

  /** The earliest clause that fires on the row, if any. */
  function FirstFiring(clauses: seq<MergeClause>, row: JoinRow): (r: Option<nat>)
    ensures r.Some? ==> r.value < |clauses| && Fires(clauses[r.value], row)
    ensures forall i :: 0 <= i < (if r.Some? then r.value else |clauses|) ==> !Fires(clauses[i], row)
  {
    if clauses == [] then None
    else
      var init := FirstFiring(clauses[..|clauses| - 1], row);
      if init.Some? then init
      else if Fires(clauses[|clauses| - 1], row) then Some(|clauses| - 1)
      else None
  }

  /** The first value a clause gives to a column. */
  function FirstValue(pairs: seq<(string, Expr)>, column: string): (r: Expr)
    requires exists i :: 0 <= i < |pairs| && pairs[i].0 == column
    ensures exists i :: 0 <= i < |pairs| && pairs[i] == (column, r) && forall j :: 0 <= j < i ==> pairs[j].0 != column
  {
    if pairs[0].0 == column then pairs[0].1
    else
      assert exists i :: 0 <= i < |pairs[1..]| && pairs[1..][i].0 == column by {
        var i :| 0 <= i < |pairs| && pairs[i].0 == column;
        assert pairs[1..][i - 1] == pairs[i];
      }
      var r := FirstValue(pairs[1..], column);
      assert exists i :: 0 <= i < |pairs| && pairs[i] == (column, r)
                         && forall j :: 0 <= j < i ==> pairs[j].0 != column by {
        var i :| 0 <= i < |pairs[1..]| && pairs[1..][i] == (column, r)
                 && forall j :: 0 <= j < i ==> pairs[1..][j].0 != column;
        assert pairs[i + 1] == (column, r);
        forall j | 0 <= j < i + 1
          ensures pairs[j].0 != column
        {
          if j > 0 { assert pairs[1..][j - 1] == pairs[j]; }
        }
      }
      r
  }

  /** The value clause c gives the column: assigned, kept by UPDATE, or NULL when INSERT omits it. */
  function ClauseValue(c: MergeClause, row: JoinRow, column: string): Value
    requires ClauseOk(c)
  {
    if Names(c, column) then Eval(FirstValue(Pairs(c), column), row)
    else if c.action.Insert? then Null
    else Lookup(row.target, column)
  }

  /** Row at a time: the first clause that fires decides every column; otherwise the row is kept. */
  function NewValue(clauses: seq<MergeClause>, row: JoinRow, column: string): Value
    requires AllOk(clauses)
  {
    match FirstFiring(clauses, row)
    case Some(k) => ClauseValue(clauses[k], row, column)
    case None => Lookup(row.target, column)
  }

  // ------------------------------------------------- the reference, on the text of the clauses

  /** The i-th name of the list is the first to be this column. */
  predicate FirstAt(names: seq<string>, i: nat, column: string) {
    i < |names| && names[i] == column && column !in names[..i]
  }

  /** The columns an UPDATE assigns: the last part of each name. */
  function Assigned(assignments: seq<Assignment>): (r: seq<string>)
    requires forall i :: 0 <= i < |assignments| ==> assignments[i].column != []
    ensures |r| == |assignments|
    ensures forall i :: 0 <= i < |r| ==> r[i] == assignments[i].column[|assignments[i].column| - 1]
  {
    seq(|assignments|, i requires 0 <= i < |assignments| => assignments[i].column[|assignments[i].column| - 1])
  }

  lemma ValueAt(pairs: seq<(string, Expr)>, i: nat)
    requires i < |pairs| && forall j :: 0 <= j < i ==> pairs[j].0 != pairs[i].0
    ensures FirstValue(pairs, pairs[i].0) == pairs[i].1
  {
  }

  /** An INSERT that fires first gives its i-th column its i-th value, and NULL to every column without a value. */
  lemma InsertedValues(
    clauses: seq<MergeClause>, row: JoinRow, k: nat, columns: seq<string>, values: seq<Expr>, column: string)
    requires AllOk(clauses) && FirstFiring(clauses, row) == Some(k)
    requires clauses[k].action == Insert(columns, Values([values]))
    ensures forall i :: 0 <= i < |values| && FirstAt(columns, i, column) ==>
                          NewValue(clauses, row, column) == Eval(values[i], row)
    ensures (forall i :: 0 <= i < |columns| && i < |values| ==> columns[i] != column) ==>
              NewValue(clauses, row, column) == Null
  {
    var pairs := Pairs(clauses[k]);
    assert |pairs| == (if |columns| <= |values| then |columns| else |values|);
    assert forall i :: 0 <= i < |pairs| ==> pairs[i] == (columns[i], values[i]);
    forall i | 0 <= i < |values| && FirstAt(columns, i, column)
      ensures NewValue(clauses, row, column) == Eval(values[i], row)
    {
      assert forall j :: 0 <= j < i ==> columns[j] in columns[..i];
      ValueAt(pairs, i);
    }
  }

  /** An UPDATE that fires first gives each column it assigns that value, and keeps every other column. */
  lemma UpdatedValues(
    clauses: seq<MergeClause>, row: JoinRow, k: nat, assignments: seq<Assignment>, column: string)
    requires AllOk(clauses) && FirstFiring(clauses, row) == Some(k) && clauses[k].action == Update(assignments)
    ensures forall i: nat :: FirstAt(Assigned(assignments), i, column) ==>
                               NewValue(clauses, row, column) == Eval(assignments[i].value, row)
    ensures column !in Assigned(assignments) ==> NewValue(clauses, row, column) == Lookup(row.target, column)
  {
    var pairs, names := Pairs(clauses[k]), Assigned(assignments);
    assert |pairs| == |names| && forall i :: 0 <= i < |pairs| ==> pairs[i] == (names[i], assignments[i].value);
    forall i: nat | FirstAt(names, i, column)
      ensures NewValue(clauses, row, column) == Eval(assignments[i].value, row)
    {
      assert forall j :: 0 <= j < i ==> names[j] in names[..i];
      ValueAt(pairs, i);
    }
  }

  // ---------------------------------------------------------------------- conditions and flags

  /** The planned condition is TRUE exactly when the clause fires. */
  lemma ConditionMeansFires(c: MergeClause, row: JoinRow)
    requires ClauseOk(c) && Flagged(row)
    ensures Eval(Condition(c), row) == TRUE <==> Fires(c, row)
  {
    var op := KindExpr(c.kind).value;
    assert Eval(op, row) == TRUE <==> KindHolds(c.kind, row);
  }

  predicate SomeFires(clauses: seq<MergeClause>, row: JoinRow, update: bool) {
    exists i :: 0 <= i < |clauses| && Fires(clauses[i], row)
                && (if update then clauses[i].action.Update? else clauses[i].action.Insert?)
  }

  lemma {:induction false} OpsMeanSomeFires(clauses: seq<MergeClause>, row: JoinRow, update: bool)
    requires AllOk(clauses) && Flagged(row)
    ensures AnyOpTrue(Ops(clauses, update), row) <==> SomeFires(clauses, row, update)
  {
    if clauses != [] {
      var init, c := clauses[..|clauses| - 1], clauses[|clauses| - 1];
      OpsMeanSomeFires(init, row, update);
      ConditionMeansFires(c, row);
      var ops, before := Ops(clauses, update), Ops(init, update);
      assert forall i :: 0 <= i < |before| ==> ops[i] == before[i];
      if SomeFires(init, row, update) {
        var i :| 0 <= i < |before| && Eval(before[i], row) == TRUE;
        assert Eval(ops[i], row) == TRUE;
        var j :| 0 <= j < |init| && Fires(init[j], row)
                 && (if update then init[j].action.Update? else init[j].action.Insert?);
        assert clauses[j] == init[j];
        assert SomeFires(clauses, row, update);
      } else if Fires(c, row) && (if update then c.action.Update? else c.action.Insert?) {
        assert Eval(ops[|ops| - 1], row) == TRUE;
      } else {
        forall j | 0 <= j < |clauses| && Fires(clauses[j], row)
          ensures !(if update then clauses[j].action.Update? else clauses[j].action.Insert?)
        {
          if j < |init| { assert init[j] == clauses[j]; }
        }
      }
    }
  }

  function UpdatedFlag(clauses: seq<MergeClause>, row: JoinRow): Value
    requires AllOk(clauses)
  {
    Eval(OrAll(Ops(clauses, true)), row)
  }

  function InsertedFlag(clauses: seq<MergeClause>, row: JoinRow): Value
    requires AllOk(clauses)
  {
    Eval(OrAll(Ops(clauses, false)), row)
  }

  /** Each flag is TRUE exactly when a clause of its kind fires, and never both on one row. */
  lemma FlagsMeanFires(clauses: seq<MergeClause>, row: JoinRow)
    requires AllShaped(clauses) && Flagged(row)
    ensures UpdatedFlag(clauses, row) == TRUE <==> SomeFires(clauses, row, true)
    ensures InsertedFlag(clauses, row) == TRUE <==> SomeFires(clauses, row, false)
    ensures !(UpdatedFlag(clauses, row) == TRUE && InsertedFlag(clauses, row) == TRUE)
  {
    OpsMeanSomeFires(clauses, row, true);
    OpsMeanSomeFires(clauses, row, false);
    OrAllTrue(Ops(clauses, true), row);
    OrAllTrue(Ops(clauses, false), row);
  }
}
