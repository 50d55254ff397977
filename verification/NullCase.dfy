/** A CASE with an argument is printed only when its argument is not, as `CASE (null)`. What that is worth: DB2 always
    takes the ELSE branch, which is right exactly when PostgreSQL takes it, or a branch of the same value. */
module NullCase {
  import opened Nodes
  import opened RemoteSql
  import opened Deparse
  import opened Fragment
  import opened Grouping
  import opened Spoiling
  import opened Meaning
  import opened Preservation
  import opened Servers

  /** Nothing equals NULL, so a CASE of NULL takes its ELSE. */
  lemma {:induction false} NothingEqualsNull(ws: seq<SqlWhen>, env: RemoteEnv, db: Db2Semantics)
    requires UsualEquality(db)
    ensures EvalSimpleWhens(NullV, ws, env, db) == None
    decreases |ws|
  {
    if ws != [] {
      assert db.infix(OpEq, NullV, EvalSql(ws[0].cond, env, db)).NullV?;
      NothingEqualsNull(ws[1..], env, db);
    }
  }

  lemma NullCaseTakesElse(ws: seq<SqlWhen>, els: Option<Sql>, env: RemoteEnv, db: Db2Semantics)
    requires UsualEquality(db)
    ensures EvalSql(SimpleCase(NullLit, ws, els), env, db) == if els.Some? then EvalSql(els.value, env, db) else NullV
  {
    NothingEqualsNull(ws, env, db);
    assert EvalSql(NullLit, env, db) == NullV;
  }

  /** Every CASE with an argument that is printed at all has the value of its ELSE on DB2. */
  lemma SimpleCaseTakesElse(e: Expr, w: Setting)
    requires e.CaseExpr? && e.casearg.Some? && Readable(e, w.scan) && UsualEquality(w.db)
    ensures ParseExpression(Text(e, w.scan, w.ps)) == Some(Read(e, w.scan, w.ps))
    ensures EvalSql(Read(e, w.scan, w.ps), w.remote, w.db)
         == if e.def.Some? then EvalSql(Read(e.def.value, w.scan, w.ps), w.remote, w.db) else NullV
  {
    PrintParse(e, w.scan, w.ps);
    var els := if e.def.Some? then Some(Read(e.def.value, w.scan, w.ps)) else None;
    NullCaseTakesElse(ReadWhens(e.whens, true, w.scan, w.ps), els, w.remote, w.db);
  }

  /** The argument's value, and the branch that PostgreSQL takes. */
  function Chosen(e: Expr, w: Setting): Option<Value>
    requires e.CaseExpr? && e.casearg.Some?
  {
    EvalWhens(e.whens, w.env, w.env.(caseVal := w.Local(e.casearg.value)), w.pg)
  }

  function LocalElse(e: Expr, w: Setting): Value
    requires e.CaseExpr?
  {
    if e.def.Some? then w.Local(e.def.value) else NullV
  }

  /** For every such CASE: DB2 computes PostgreSQL's value if and only if PostgreSQL takes no branch, or one whose value is
      that of the ELSE. */
  lemma SimpleCaseIsRight(e: Expr, qs: seq<Expr>, w: Setting)
    requires e.CaseExpr? && e.casearg.Some? && Readable(e, w.scan) && UsualEquality(w.db)
    requires (e.def.Some? ==> Covers(w, e.def.value)) && Params(e, w.scan, qs) <= w.ps
    ensures ParseExpression(Text(e, w.scan, w.ps)) == Some(Read(e, w.scan, w.ps))
    ensures w.Shipped(e) == w.Local(e) <==> Chosen(e, w).None? || Chosen(e, w).value == LocalElse(e, w)
  {
    SimpleCaseTakesElse(e, w);
    if e.def.Some? {
      ElseMeans(e, qs, w);
    }
    CaseLocally(e, w);
  }

  lemma ElseMeans(e: Expr, qs: seq<Expr>, w: Setting)
    requires e.CaseExpr? && e.casearg.Some? && e.def.Some? && Readable(e, w.scan)
    requires Covers(w, e.def.value) && Params(e, w.scan, qs) <= w.ps
    ensures w.Shipped(e.def.value) == w.Local(e.def.value)
  {
    var start := Params(e.casearg.value, w.scan, qs);
    ReadIsMeant(e.def.value, w.scan, w.ps);
    ExprMeans(e.def.value, ParamsOfWhens(e.whens, true, w.scan, start), w);
  }

  lemma CaseLocally(e: Expr, w: Setting)
    requires e.CaseExpr? && e.casearg.Some?
    ensures w.Local(e) == if Chosen(e, w).Some? then Chosen(e, w).value else LocalElse(e, w)
  {
  }
}
