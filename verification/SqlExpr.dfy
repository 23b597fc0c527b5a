/**
 * Scalar expressions over one row of a MERGE join, under SQL three-valued logic.
 *
 * A join row has a target side and a source side; a side that the full join padded reads as NULL
 * in every column. Expressions that the SQL planner builds from the statement's own text are
 * arbitrary functions of the join row (`Planned`).
 */
module SqlExpr {
  import opened Common

  datatype Value = Null | Bool(b: bool) | Int(i: int) | Text(s: string)

  type Row = map<string, Value>

  datatype JoinRow = JoinRow(target: Row, source: Row)

  datatype Branch = Branch(when: Expr, result: Expr)

  datatype Expr =
    | TargetCol(name: string)
    | SourceCol(name: string)
    | Lit(value: Value)
    | And(left: Expr, right: Expr)
    | Or(left: Expr, right: Expr)
    | IsNull(operand: Expr)
    | Case(branches: seq<Branch>, otherwise: Expr)
    | Planned(f: JoinRow -> Value)
    | Unplannable // text the SQL planner rejects; no accepted clause holds one

  const TRUE := Bool(true)
  const FALSE := Bool(false)

  function Lookup(row: Row, name: string): Value {
    if name in row then row[name] else Null
  }

  /** Three-valued AND: FALSE dominates, then unknown. */
  function And3(l: Value, r: Value): Value {
    if l == FALSE || r == FALSE then FALSE
    else if l == TRUE && r == TRUE then TRUE
    else Null
  }

  /** Three-valued OR: TRUE dominates, then unknown. */
  function Or3(l: Value, r: Value): Value {
    if l == TRUE || r == TRUE then TRUE
    else if l == FALSE && r == FALSE then FALSE
    else Null
  }

  /** FALSE, unknown and TRUE in this order. */
  function Truth(v: Value): int { if v == Bool(false) then 0 else if v == Bool(true) then 2 else 1 }

  /** AND is the smaller and OR the greater of two truth values, for all nine pairs. */
  lemma ThreeValuedLogic(l: Value, r: Value)
    ensures Truth(And3(l, r)) == (if Truth(l) <= Truth(r) then Truth(l) else Truth(r))
    ensures Truth(Or3(l, r)) == (if Truth(l) <= Truth(r) then Truth(r) else Truth(l))
  {
  }

  function Eval(e: Expr, row: JoinRow): Value
    decreases e, if e.Case? then |e.branches| + 1 else 0
  {
    match e
    case TargetCol(name) => Lookup(row.target, name)
    case SourceCol(name) => Lookup(row.source, name)
    case Lit(v) => v
    case And(l, r) => And3(Eval(l, row), Eval(r, row))
    case Or(l, r) => Or3(Eval(l, row), Eval(r, row))
    case IsNull(o) => Bool(Eval(o, row) == Null)
    case Case(_, _) => EvalCaseFrom(e, 0, row)
    case Planned(f) => f(row)
    case Unplannable => Null
  }

  /** A searched CASE tries its branches in order and takes the first whose condition is TRUE. */
  function EvalCaseFrom(e: Expr, i: nat, row: JoinRow): Value
    requires e.Case? && i <= |e.branches|
    decreases e, |e.branches| - i
  {
    if i == |e.branches| then Eval(e.otherwise, row)
    else if Eval(e.branches[i].when, row) == TRUE then Eval(e.branches[i].result, row)
    else EvalCaseFrom(e, i + 1, row)
  }

  /** The value of the first branch whose condition is TRUE, if any. */
  function Pick(branches: seq<Branch>, row: JoinRow): Option<Value> {
    if branches == [] then None
    else if Eval(branches[0].when, row) == TRUE then Some(Eval(branches[0].result, row))
    else Pick(branches[1..], row)
  }

  function OrElse<T>(first: Option<T>, second: Option<T>): Option<T> {
    if first.Some? then first else second
  }

  function GetOr<T>(o: Option<T>, default: T): T {
    if o.Some? then o.value else default
  }

  lemma {:induction false} CaseFromIsPick(e: Expr, i: nat, row: JoinRow)
    requires e.Case? && i <= |e.branches|
    ensures EvalCaseFrom(e, i, row) == GetOr(Pick(e.branches[i..], row), Eval(e.otherwise, row))
    decreases |e.branches| - i
  {
    if i < |e.branches| {
      CaseFromIsPick(e, i + 1, row);
      assert e.branches[i..][1..] == e.branches[i + 1..];
    }
  }

  /** CASE takes its first TRUE branch, and its ELSE when there is none. */
  lemma CaseIsPick(branches: seq<Branch>, otherwise: Expr, row: JoinRow)
    ensures Eval(Case(branches, otherwise), row) == GetOr(Pick(branches, row), Eval(otherwise, row))
  {
    CaseFromIsPick(Case(branches, otherwise), 0, row);
    assert branches[0..] == branches;
  }

  lemma {:induction false} PickConcat(a: seq<Branch>, b: seq<Branch>, row: JoinRow)
    ensures Pick(a + b, row) == OrElse(Pick(a, row), Pick(b, row))
  {
    if a == [] {
      assert a + b == b;
    } else {
      assert (a + b)[1..] == a[1..] + b;
      PickConcat(a[1..], b, row);
    }
  }

  /** Left fold of OR starting from FALSE, as the merge flags are built. */
  function OrAll(ops: seq<Expr>): Expr {
    if ops == [] then Lit(FALSE) else Or(OrAll(ops[..|ops| - 1]), ops[|ops| - 1])
  }

  predicate AnyOpTrue(ops: seq<Expr>, row: JoinRow) {
    exists i :: 0 <= i < |ops| && Eval(ops[i], row) == TRUE
  }

  /** The folded OR is FALSE exactly when every operand is FALSE, so without operands. */
  lemma {:induction false} OrAllFalse(ops: seq<Expr>, row: JoinRow)
    ensures Eval(OrAll(ops), row) == FALSE <==> forall i :: 0 <= i < |ops| ==> Eval(ops[i], row) == FALSE
  {
    if ops != [] {
      OrAllFalse(ops[..|ops| - 1], row);
      assert forall i :: 0 <= i < |ops| - 1 ==> ops[..|ops| - 1][i] == ops[i];
    }
  }

  /** The folded OR is TRUE exactly when some operand is TRUE. */
  lemma {:induction false} OrAllTrue(ops: seq<Expr>, row: JoinRow)
    ensures Eval(OrAll(ops), row) == TRUE <==> AnyOpTrue(ops, row)
  {
    if ops != [] {
      var init, last := ops[..|ops| - 1], ops[|ops| - 1];
      OrAllTrue(init, row);
      if Eval(OrAll(init), row) == TRUE {
        var i :| 0 <= i < |init| && Eval(init[i], row) == TRUE;
        assert ops[i] == init[i];
      }
      if i :| 0 <= i < |ops| && Eval(ops[i], row) == TRUE {
        if i < |init| {
          assert init[i] == ops[i];
        }
      }
    }
  }
}
