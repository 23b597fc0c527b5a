/**
 * Scanning a table whose column names are not lowercase: filters are rewritten to the table's own
 * column names and the result is renamed, by position, to the lowercased ones.
 */
module ScanRewrite {
  import opened Common
  import opened AsciiCase

  datatype Value = Null | Bool(b: bool) | Other(id: int)

  datatype Expr = Column(name: Name) | Literal(value: Value) | Call(f: seq<Value> -> Value, args: seq<Expr>)

  /** Column names by position and the rows below them. */
  datatype Relation = Relation(names: seq<Name>, rows: seq<seq<Value>>)

  predicate WellFormed(rel: Relation) {
    forall i :: 0 <= i < |rel.rows| ==> |rel.rows[i]| == |rel.names|
  }

  function LowerAll(names: seq<Name>): (r: seq<Name>)
    ensures |r| == |names| && forall i :: 0 <= i < |names| ==> r[i] == Lower(names[i])
  {
    seq(|names|, i requires 0 <= i < |names| => Lower(names[i]))
  }

  /** The relation as the catalog presents it: the same rows under lowercased names. */
  function Lowered(rel: Relation): Relation { Relation(LowerAll(rel.names), rel.rows) }

  // ----------------------------------------------------------------- what a table's own scan does

  /** The first column of that exact name. */
  function Resolve(names: seq<Name>, name: Name): (r: Option<nat>)
    ensures r.Some? ==> r.value < |names| && names[r.value] == name && name !in names[..r.value]
    ensures r.None? ==> name !in names
  {
    if names == [] then None
    else if names[0] == name then Some(0)
    else
      var rest := Resolve(names[1..], name);
      if rest.None? then None
      else
        assert names[..rest.value + 1] == [names[0]] + names[1..][..rest.value];
        Some(rest.value + 1)
  }

  predicate Resolved(names: seq<Name>, e: Expr) {
    match e
    case Column(name) => Resolve(names, name).Some?
    case Literal(_) => true
    case Call(_, args) => forall i :: 0 <= i < |args| ==> Resolved(names, args[i])
  }

  function Eval(names: seq<Name>, row: seq<Value>, e: Expr): Value
    requires Resolved(names, e) && |row| == |names|
  {
    match e
    case Column(name) => row[Resolve(names, name).value]
    case Literal(v) => v
    case Call(f, args) => f(seq(|args|, i requires 0 <= i < |args| => Eval(names, row, args[i])))
  }

  predicate AllResolved(names: seq<Name>, filters: seq<Expr>) {
    forall i :: 0 <= i < |filters| ==> Resolved(names, filters[i])
  }

  predicate Passes(names: seq<Name>, row: seq<Value>, filters: seq<Expr>)
    requires AllResolved(names, filters) && |row| == |names|
  {
    forall i :: 0 <= i < |filters| ==> Eval(names, row, filters[i]) == Bool(true)
  }

  function Kept(rel: Relation, filters: seq<Expr>): (r: seq<seq<Value>>)
    requires WellFormed(rel) && AllResolved(rel.names, filters)
    ensures forall i :: 0 <= i < |r| ==> |r[i]| == |rel.names|
    decreases rel.rows
  {
    if rel.rows == [] then []
    else
      var rest := Kept(Relation(rel.names, rel.rows[1..]), filters);
      if Passes(rel.names, rel.rows[0], filters) then [rel.rows[0]] + rest else rest
  }

  function Take<A>(xs: seq<A>, limit: Option<nat>): seq<A> {
    if limit.Some? && limit.value < |xs| then xs[..limit.value] else xs
  }

  predicate InRange(projection: Option<seq<nat>>, width: nat) {
    projection.Some? ==> forall i :: 0 <= i < |projection.value| ==> projection.value[i] < width
  }

  function Pick<A>(xs: seq<A>, projection: Option<seq<nat>>): seq<A>
    requires InRange(projection, |xs|)
  {
    if projection.None? then xs
    else seq(|projection.value|, i requires 0 <= i < |projection.value| => xs[projection.value[i]])
  }

  function PickRows(rows: seq<seq<Value>>, projection: Option<seq<nat>>, width: nat): seq<seq<Value>>
    requires InRange(projection, width) && forall i :: 0 <= i < |rows| ==> |rows[i]| == width
  {
    seq(|rows|, i requires 0 <= i < |rows| => Pick(rows[i], projection))
  }

  /** Filter, limit and project; None when a column or a projected position does not exist. */
  function Scan(rel: Relation, projection: Option<seq<nat>>, filters: seq<Expr>, limit: Option<nat>): Option<Relation>
    requires WellFormed(rel)
  {
    if !AllResolved(rel.names, filters) || !InRange(projection, |rel.names|) then None
    else
      Some(Relation(Pick(rel.names, projection),
                    PickRows(Take(Kept(rel, filters), limit), projection, |rel.names|)))
  }

  predicate Ascending(positions: seq<nat>) {
    forall i, j :: 0 <= i < j < |positions| ==> positions[i] < positions[j]
  }

  /** The positions of the rows that pass, in order. */
  ghost predicate PassingAt(rel: Relation, filters: seq<Expr>, positions: seq<nat>)
    requires WellFormed(rel) && AllResolved(rel.names, filters)
  {
    && Ascending(positions)
    && (forall k :: 0 <= k < |positions| ==> positions[k] < |rel.rows|)
    && (forall r: nat :: r < |rel.rows| ==>
          (r in positions <==>
           forall i :: 0 <= i < |filters| ==> Eval(rel.names, rel.rows[r], filters[i]) == Bool(true)))
  }

  function Tail(rel: Relation): Relation
    requires rel.rows != []
  {
    Relation(rel.names, rel.rows[1..])
  }

  function Shift(positions: seq<nat>): (r: seq<nat>)
    ensures |r| == |positions| && forall i :: 0 <= i < |r| ==> r[i] == positions[i] + 1
  {
    seq(|positions|, i requires 0 <= i < |positions| => positions[i] + 1)
  }

  lemma ShiftHas(positions: seq<nat>, x: nat)
    ensures x in Shift(positions) <==> x > 0 && x - 1 in positions
  {
    if x > 0 && x - 1 in positions {
      var i :| 0 <= i < |positions| && positions[i] == x - 1;
      assert Shift(positions)[i] == x;
    }
  }

  /** The positions that pass, from those of the tail. */
  function Onto(rel: Relation, filters: seq<Expr>, rest: seq<nat>): seq<nat>
    requires WellFormed(rel) && AllResolved(rel.names, filters) && rel.rows != []
  {
    (if Passes(rel.names, rel.rows[0], filters) then [0] else []) + Shift(rest)
  }

  lemma PassingOnto(rel: Relation, filters: seq<Expr>, rest: seq<nat>)
    requires WellFormed(rel) && AllResolved(rel.names, filters) && rel.rows != []
    requires PassingAt(Tail(rel), filters, rest)
    ensures PassingAt(rel, filters, Onto(rel, filters, rest))
  {
    forall r: nat | r < |rel.rows|
      ensures r in Onto(rel, filters, rest) <==> Passes(rel.names, rel.rows[r], filters)
    {
      ShiftHas(rest, r);
      if r > 0 {
        assert Tail(rel).rows[r - 1] == rel.rows[r];
      }
    }
  }

  lemma {:induction false} KeptRows(rel: Relation, filters: seq<Expr>) returns (positions: seq<nat>)
    requires WellFormed(rel) && AllResolved(rel.names, filters)
    ensures PassingAt(rel, filters, positions)
    ensures |Kept(rel, filters)| == |positions|
    ensures forall k :: 0 <= k < |positions| ==> Kept(rel, filters)[k] == rel.rows[positions[k]]
    decreases rel.rows
  {
    if rel.rows == [] {
      positions := [];
    } else {
      var rest := KeptRows(Tail(rel), filters);
      positions := Onto(rel, filters, rest);
      PassingOnto(rel, filters, rest);
      forall k | 0 <= k < |rest|
        ensures Kept(Tail(rel), filters)[k] == rel.rows[Shift(rest)[k]]
      {
      }
    }
  }

  /** A scan returns the first rows that pass every filter, in order and up to the limit, with the columns asked for. */
  lemma ScanReturns(rel: Relation, projection: seq<nat>, filters: seq<Expr>, limit: nat) returns (positions: seq<nat>)
    requires WellFormed(rel) && Scan(rel, Some(projection), filters, Some(limit)).Some?
    ensures AllResolved(rel.names, filters) && PassingAt(rel, filters, positions)
    ensures
      var out := Scan(rel, Some(projection), filters, Some(limit)).value;
      && |out.names| == |projection| && |out.rows| == (if limit < |positions| then limit else |positions|)
      && (forall c :: 0 <= c < |projection| ==> projection[c] < |rel.names| && out.names[c] == rel.names[projection[c]])
      && (forall k :: 0 <= k < |out.rows| ==> |out.rows[k]| == |projection|)
      && (forall k, c :: 0 <= k < |out.rows| && 0 <= c < |projection| ==>
                           out.rows[k][c] == rel.rows[positions[k]][projection[c]])
  {
    positions := KeptRows(rel, filters);
  }

  // ------------------------------------------------------------------------------ the rewriting

  /** The first column whose name equals the given one ignoring ASCII case. */
  function FindIgnoringCase(names: seq<Name>, name: Name): Option<nat> {
    Resolve(LowerAll(names), Lower(name))
  }

  function Rewrite(names: seq<Name>, e: Expr): Expr {
    match e
    case Column(name) =>
      var found := FindIgnoringCase(names, name);
      if found.Some? then Column(names[found.value]) else e
    case Literal(_) => e
    case Call(f, args) => Call(f, seq(|args|, i requires 0 <= i < |args| => Rewrite(names, args[i])))
  }

  function RewriteAll(names: seq<Name>, filters: seq<Expr>): (r: seq<Expr>)
    ensures |r| == |filters|
  {
    seq(|filters|, i requires 0 <= i < |filters| => Rewrite(names, filters[i]))
  }

  /** Some column is named as its own uppercase form. */
  predicate CaseSensitiveSchema(names: seq<Name>) {
    exists i :: 0 <= i < |names| && IsUpper(names[i])
  }

  function UpperChar(c: char): char {
    if 'a' <= c <= 'z' then (c as int - 32) as char else c
  }

  predicate IsUpper(name: Name) {
    forall i :: 0 <= i < |name| ==> UpperChar(name[i]) == name[i]
  }

  function RewrittenScan(
    rel: Relation, projection: Option<seq<nat>>, filters: seq<Expr>, limit: Option<nat>): Option<Relation>
    requires WellFormed(rel)
  {
    var own := Scan(rel, projection, RewriteAll(rel.names, filters), limit);
    if own.None? then None else Some(Relation(Pick(LowerAll(rel.names), projection), own.value.rows))
  }

  // A projection expression reads an input column by position and gives it a new name.
  datatype ProjectionExpr = ProjectionExpr(source: Name, index: nat, target: Name)

  function Execute(exprs: seq<ProjectionExpr>, rel: Relation): Relation
    requires WellFormed(rel) && forall i :: 0 <= i < |exprs| ==> exprs[i].index < |rel.names|
  {
    Relation(seq(|exprs|, i requires 0 <= i < |exprs| => exprs[i].target),
             seq(|rel.rows|, r requires 0 <= r < |rel.rows| =>
                   seq(|exprs|, i requires 0 <= i < |exprs| => rel.rows[r][exprs[i].index])))
  }

  method RewriteCaseSensitiveScan(rel: Relation, projection: Option<seq<nat>>, filters: seq<Expr>, limit: Option<nat>)
      returns (r: Option<Relation>)
    requires WellFormed(rel)
    ensures r == RewrittenScan(rel, projection, filters, limit)
  {
    var own := Scan(rel, projection, RewriteAll(rel.names, filters), limit);
    if own.None? {
      return None;
    }
    var plan := own.value;
    var targets := Pick(LowerAll(rel.names), projection);
    var exprs: seq<ProjectionExpr> := [];
    for i := 0 to |plan.names|
      invariant |exprs| == i
      invariant forall k :: 0 <= k < i ==> exprs[k] == ProjectionExpr(plan.names[k], k, targets[k])
    {
      exprs := exprs + [ProjectionExpr(plan.names[i], i, targets[i])];
    }
    r := Some(Execute(exprs, plan));
    RenamedInPlace(exprs, plan, targets);
  }

  /** Reading every column at its own position changes only the names. */
  lemma RenamedInPlace(exprs: seq<ProjectionExpr>, rel: Relation, targets: seq<Name>)
    requires WellFormed(rel) && |exprs| == |rel.names| == |targets|
    requires forall k :: 0 <= k < |exprs| ==> exprs[k] == ProjectionExpr(rel.names[k], k, targets[k])
    ensures Execute(exprs, rel) == Relation(targets, rel.rows)
  {
    var out := Execute(exprs, rel);
    assert out.names == targets;
    forall r | 0 <= r < |rel.rows|
      ensures out.rows[r] == rel.rows[r]
    {
    }
    assert out.rows == rel.rows;
  }

  /** The catalog table's scan: rewritten only when the schema counts as case sensitive. */
  function CatalogScan(
    rel: Relation, projection: Option<seq<nat>>, filters: seq<Expr>, limit: Option<nat>): Option<Relation>
    requires WellFormed(rel)
  {
    if CaseSensitiveSchema(rel.names) then RewrittenScan(rel, projection, filters, limit)
    else Scan(rel, projection, filters, limit)
  }

  // ------------------------------------------------------------------------ meaning is preserved

  lemma {:induction false} FirstOccurrence(names: seq<Name>, i: nat)
    requires i < |names| && forall j :: 0 <= j < i ==> names[j] != names[i]
    ensures Resolve(names, names[i]) == Some(i)
  {
    if i > 0 {
      assert names[0] != names[i];
      FirstOccurrence(names[1..], i - 1);
    }
  }

  /** A lowercase column resolves in the lowered schema exactly where its rewriting resolves in the table's own. */
  lemma ColumnMeaning(names: seq<Name>, name: Name)
    requires IsLower(name)
    ensures Rewrite(names, Column(name)).Column?
    ensures Resolve(names, Rewrite(names, Column(name)).name) == Resolve(LowerAll(names), name)
  {
    var found := FindIgnoringCase(names, name);
    if found.Some? {
      var i := found.value;
      forall j | 0 <= j < i
        ensures names[j] != names[i]
      {
        assert LowerAll(names)[..i][j] == Lower(names[j]);
      }
      FirstOccurrence(names, i);
    } else {
      assert forall j :: 0 <= j < |names| ==> LowerAll(names)[j] != name;
    }
  }

  /** A filter's column is found whatever its case, and left as written when the table has no such column. */
  lemma RewriteIgnoresCase(names: seq<Name>, a: Name, b: Name, i: nat)
    requires Lower(a) == Lower(b)
    ensures i < |names| && Lower(names[i]) == Lower(a) && (forall j :: 0 <= j < i ==> Lower(names[j]) != Lower(a)) ==>
              Rewrite(names, Column(a)) == Rewrite(names, Column(b)) == Column(names[i])
    ensures (forall j :: 0 <= j < |names| ==> Lower(names[j]) != Lower(a)) ==> Rewrite(names, Column(a)) == Column(a)
  {
    if i < |names| && Lower(names[i]) == Lower(a) && forall j :: 0 <= j < i ==> Lower(names[j]) != Lower(a) {
      FirstOccurrence(LowerAll(names), i);
    }
  }

  predicate LowerColumns(e: Expr) {
    match e
    case Column(name) => IsLower(name)
    case Literal(_) => true
    case Call(_, args) => forall i :: 0 <= i < |args| ==> LowerColumns(args[i])
  }

  /** Rewriting keeps an expression resolvable or not, and its value on every row. */
  lemma {:induction false} RewriteMeaning(names: seq<Name>, e: Expr)
    requires LowerColumns(e)
    ensures Resolved(names, Rewrite(names, e)) <==> Resolved(LowerAll(names), e)
    ensures Resolved(LowerAll(names), e) ==>
              forall row: seq<Value> :: |row| == |names| ==>
                Eval(names, row, Rewrite(names, e)) == Eval(LowerAll(names), row, e)
  {
    match e
    case Column(name) => ColumnMeaning(names, name);
    case Literal(_) =>
    case Call(f, args) =>
      forall i | 0 <= i < |args|
        ensures Resolved(names, Rewrite(names, args[i])) <==> Resolved(LowerAll(names), args[i])
        ensures Resolved(LowerAll(names), args[i]) ==>
                  forall row: seq<Value> :: |row| == |names| ==>
                    Eval(names, row, Rewrite(names, args[i])) == Eval(LowerAll(names), row, args[i])
      {
        RewriteMeaning(names, args[i]);
      }
      var args' := Rewrite(names, e).args;
      assert forall i :: 0 <= i < |args| ==> args'[i] == Rewrite(names, args[i]);
      if Resolved(LowerAll(names), e) {
        forall row: seq<Value> | |row| == |names|
          ensures Eval(names, row, Rewrite(names, e)) == Eval(LowerAll(names), row, e)
        {
          CallMeaning(names, row, e);
        }
      }
  }

  lemma CallMeaning(names: seq<Name>, row: seq<Value>, e: Expr)
    requires e.Call? && |row| == |names| && Resolved(LowerAll(names), e) && Resolved(names, Rewrite(names, e))
    requires forall i :: 0 <= i < |e.args| ==>
               Resolved(names, Rewrite(names, e.args[i]))
               && Eval(names, row, Rewrite(names, e.args[i])) == Eval(LowerAll(names), row, e.args[i])
    ensures Eval(names, row, Rewrite(names, e)) == Eval(LowerAll(names), row, e)
  {
    var args' := Rewrite(names, e).args;
    var a := seq(|e.args|, i requires 0 <= i < |e.args| => Eval(LowerAll(names), row, e.args[i]));
    var b := seq(|args'|, i requires 0 <= i < |args'| => Eval(names, row, args'[i]));
    assert a == b;
  }

  /** An expression that resolves against lowercased names names only lowercase columns. */
  lemma {:induction false} ResolvedIsLower(names: seq<Name>, e: Expr)
    requires Resolved(LowerAll(names), e)
    ensures LowerColumns(e)
  {
    match e
    case Column(name) => LowerIsLower(names[Resolve(LowerAll(names), name).value]);
    case Literal(_) =>
    case Call(_, args) =>
      forall i | 0 <= i < |args|
        ensures LowerColumns(args[i])
      {
        ResolvedIsLower(names, args[i]);
      }
  }

  lemma {:induction false} KeptMeaning(rel: Relation, filters: seq<Expr>)
    requires WellFormed(rel) && AllResolved(LowerAll(rel.names), filters)
    requires forall i :: 0 <= i < |filters| ==> LowerColumns(filters[i])
    ensures AllResolved(rel.names, RewriteAll(rel.names, filters))
    ensures Kept(rel, RewriteAll(rel.names, filters)) == Kept(Lowered(rel), filters)
    decreases rel.rows
  {
    forall i | 0 <= i < |filters|
      ensures Resolved(rel.names, RewriteAll(rel.names, filters)[i])
    {
      RewriteMeaning(rel.names, filters[i]);
    }
    if rel.rows != [] {
      KeptMeaning(Relation(rel.names, rel.rows[1..]), filters);
      forall i | 0 <= i < |filters|
        ensures Eval(rel.names, rel.rows[0], RewriteAll(rel.names, filters)[i])
                == Eval(LowerAll(rel.names), rel.rows[0], filters[i])
      {
        RewriteMeaning(rel.names, filters[i]);
      }
    }
  }

  predicate AllLowerColumns(filters: seq<Expr>) {
    forall i :: 0 <= i < |filters| ==> LowerColumns(filters[i])
  }

  /**
   * For filters over lowercase column names, the rewritten scan is the scan of the lowered relation,
   * failures included, for every projection and limit.
   */
  lemma RewrittenScanIsLoweredScan(rel: Relation, projection: Option<seq<nat>>, filters: seq<Expr>, limit: Option<nat>)
    requires WellFormed(rel) && AllLowerColumns(filters)
    ensures RewrittenScan(rel, projection, filters, limit) == Scan(Lowered(rel), projection, filters, limit)
  {
    if AllResolved(LowerAll(rel.names), filters) {
      KeptMeaning(rel, filters);
    } else {
      var i :| 0 <= i < |filters| && !Resolved(LowerAll(rel.names), filters[i]);
      RewriteMeaning(rel.names, filters[i]);
      assert !Resolved(rel.names, RewriteAll(rel.names, filters)[i]);
    }
  }

  /** The scan answers every call that makes sense on the lowered relation as that relation would. */
  ghost predicate AnswersRight(rel: Relation)
    requires WellFormed(rel)
  {
    forall projection: Option<seq<nat>>, filters: seq<Expr>, limit: Option<nat> ::
      Scan(Lowered(rel), projection, filters, limit).Some? ==>
        CatalogScan(rel, projection, filters, limit) == Scan(Lowered(rel), projection, filters, limit)
  }

  predicate HasSmallLetter(name: Name) {
    exists i :: 0 <= i < |name| && 'a' <= name[i] <= 'z'
  }

  predicate HasCapital(name: Name) {
    exists i :: 0 <= i < |name| && 'A' <= name[i] <= 'Z'
  }

  lemma LettersOfCase(name: Name)
    ensures IsUpper(name) <==> !HasSmallLetter(name)
    ensures IsLower(name) <==> !HasCapital(name)
  {
    if !HasCapital(name) {
      assert forall i :: 0 <= i < |name| ==> Lower(name)[i] == name[i];
    }
  }

  /**
   * The catalog's scan is right for all calls exactly when some column name has no small letter or
   * no column name has a capital: where every name has a small letter, nothing is rewritten.
   */
  lemma ScanRightIff(rel: Relation)
    requires WellFormed(rel)
    ensures AnswersRight(rel)
            <==> (exists i :: 0 <= i < |rel.names| && !HasSmallLetter(rel.names[i]))
                 || (forall i :: 0 <= i < |rel.names| ==> !HasCapital(rel.names[i]))
  {
    ScanRightByGuard(rel);
    forall i | 0 <= i < |rel.names|
      ensures IsUpper(rel.names[i]) <==> !HasSmallLetter(rel.names[i])
      ensures IsLower(rel.names[i]) <==> !HasCapital(rel.names[i])
    {
      LettersOfCase(rel.names[i]);
    }
  }

  lemma ScanRightByGuard(rel: Relation)
    requires WellFormed(rel)
    ensures AnswersRight(rel)
            <==> CaseSensitiveSchema(rel.names) || (forall i :: 0 <= i < |rel.names| ==> IsLower(rel.names[i]))
  {
    if CaseSensitiveSchema(rel.names) {
      forall projection: Option<seq<nat>>, filters: seq<Expr>, limit: Option<nat> |
          Scan(Lowered(rel), projection, filters, limit).Some?
        ensures CatalogScan(rel, projection, filters, limit) == Scan(Lowered(rel), projection, filters, limit)
      {
        forall i | 0 <= i < |filters|
          ensures LowerColumns(filters[i])
        {
          ResolvedIsLower(rel.names, filters[i]);
        }
        RewrittenScanIsLoweredScan(rel, projection, filters, limit);
      }
    } else if forall i :: 0 <= i < |rel.names| ==> IsLower(rel.names[i]) {
      assert Lowered(rel) == rel;
    } else {
      var i :| 0 <= i < |rel.names| && !IsLower(rel.names[i]);
      var p: Option<seq<nat>>, l: Option<nat> := None, None;
      assert LowerAll(rel.names)[i] != rel.names[i];
      assert Scan(Lowered(rel), p, [], l).Some? && CatalogScan(rel, p, [], l) != Scan(Lowered(rel), p, [], l);
    }
  }

  /** One name in capitals is enough: a filter over the mixed-case name beside it is answered. */
  lemma CapitalNameRewrites(rows: seq<seq<Value>>)
    requires forall i :: 0 <= i < |rows| ==> |rows[i]| == 2
    ensures
      var rel := Relation(["ID", "Amount"], rows);
      && Scan(Lowered(rel), None, [Column("amount")], None).Some?
      && CatalogScan(rel, None, [Column("amount")], None) == Scan(Lowered(rel), None, [Column("amount")], None)
  {
    var rel := Relation(["ID", "Amount"], rows);
    assert !HasSmallLetter(rel.names[0]);
    ScanRightIff(rel);
    assert Lower("Amount") == "amount";
    assert LowerAll(rel.names)[1] == "amount";
    assert Resolved(LowerAll(rel.names), Column("amount"));
  }

  /** One mixed-case column: the scan fails on a filter over the name the catalog itself presents. */
  lemma MixedCaseFilterFails(rows: seq<seq<Value>>)
    requires forall i :: 0 <= i < |rows| ==> |rows[i]| == 1
    ensures
      var rel := Relation(["Amount"], rows);
      && Scan(Lowered(rel), None, [Column("amount")], None).Some?
      && CatalogScan(rel, None, [Column("amount")], None) == None
  {
    var rel := Relation(["Amount"], rows);
    assert Lower("Amount") == "amount";
    assert LowerAll(rel.names) == ["amount"];
    assert "Amount"[1] == 'm' && UpperChar('m') != 'm';
    assert "amount" != "Amount" by { assert "amount"[0] != "Amount"[0]; }
    assert Resolved(LowerAll(rel.names), Column("amount"));
    var filters := [Column("amount")];
    assert !Resolved(rel.names, filters[0]);
  }
}
