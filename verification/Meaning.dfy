/** The three-valued meaning of PostgreSQL expressions and of remote expressions. What operators,
    functions, casts and aggregates compute is a parameter on both sides. */
module Meaning {
  import opened Nodes
  import opened RemoteSql

  datatype Value = NullV | BoolV(b: bool) | RealV(r: real) | StringV(s: string) | MomentV(t: SqlType, s: string) | SpanV(iv: Interval)

  // ----- three-valued logic

  function Not3(a: Value): Value {
    if a.BoolV? then BoolV(!a.b) else NullV
  }

  function And3(a: Value, b: Value): Value {
    if a == BoolV(false) || b == BoolV(false) then BoolV(false)
    else if a == BoolV(true) && b == BoolV(true) then BoolV(true)
    else NullV
  }

  function Or3(a: Value, b: Value): Value {
    if a == BoolV(true) || b == BoolV(true) then BoolV(true)
    else if a == BoolV(false) && b == BoolV(false) then BoolV(false)
    else NullV
  }

  function AndAll(vs: seq<Value>): Value {
    if vs == [] then BoolV(true) else if |vs| == 1 then vs[0] else And3(vs[0], AndAll(vs[1..]))
  }

  function OrAll(vs: seq<Value>): Value {
    if vs == [] then BoolV(false) else if |vs| == 1 then vs[0] else Or3(vs[0], OrAll(vs[1..]))
  }

  /** IS DISTINCT FROM, given the value of the equality. */
  function Distinct3(a: Value, b: Value, equal: Value): Value {
    if a.NullV? && b.NullV? then BoolV(false)
    else if a.NullV? || b.NullV? then BoolV(true)
    else Not3(equal)
  }

  // What these are, said in another way: with false below unknown below true, AND is the lower and OR the upper of two.

  predicate IsTruth(v: Value) {
    v.BoolV? || v.NullV?
  }

  function Rank3(v: Value): int {
    if v == BoolV(false) then 0 else if v == BoolV(true) then 2 else 1
  }

  lemma Connectives(a: Value, b: Value)
    requires IsTruth(a) && IsTruth(b)
    ensures IsTruth(And3(a, b)) && Rank3(And3(a, b)) == if Rank3(a) <= Rank3(b) then Rank3(a) else Rank3(b)
    ensures IsTruth(Or3(a, b)) && Rank3(Or3(a, b)) == if Rank3(a) <= Rank3(b) then Rank3(b) else Rank3(a)
    ensures IsTruth(Not3(a)) && Rank3(Not3(a)) == 2 - Rank3(a)
  {
  }

  /** AND of a list is true if all are and false if one is; OR the other way round. */
  lemma {:induction false} Lists(vs: seq<Value>)
    requires vs != [] && forall i | 0 <= i < |vs| :: IsTruth(vs[i])
    ensures IsTruth(AndAll(vs)) && IsTruth(OrAll(vs))
    ensures AndAll(vs) == BoolV(true) <==> forall i | 0 <= i < |vs| :: vs[i] == BoolV(true)
    ensures AndAll(vs) == BoolV(false) <==> exists i | 0 <= i < |vs| :: vs[i] == BoolV(false)
    ensures OrAll(vs) == BoolV(true) <==> exists i | 0 <= i < |vs| :: vs[i] == BoolV(true)
    ensures OrAll(vs) == BoolV(false) <==> forall i | 0 <= i < |vs| :: vs[i] == BoolV(false)
    decreases |vs|
  {
    if |vs| > 1 {
      Lists(vs[1..]);
      assert forall i | 0 < i < |vs| :: vs[i] == vs[1..][i - 1];
      assert forall i | 0 <= i < |vs[1..]| :: vs[1..][i] == vs[i + 1];
    }
  }

  /** Two values are not distinct if both are NULL, or neither is and they are equal; otherwise they are, and never unknown. */
  lemma DistinctIsKnown(a: Value, b: Value, equal: Value)
    requires !a.NullV? && !b.NullV? ==> equal.BoolV?
    ensures Distinct3(a, b, equal) == BoolV(!((a.NullV? && b.NullV?) || (!a.NullV? && !b.NullV? && equal.b)))
  {
  }

  // ----- PostgreSQL

  type Row = (nat, int) -> Value

  /** What operators, functions, casts and aggregates compute, each under its input collation. An aggregate gets
      its DISTINCT flag and one value list per input row. */
  datatype PgSemantics = PgSemantics(
    binary: (BinName, Operator, Oid, Value, Value) -> Value,
    unary: (UnName, Operator, Oid, Value) -> Value,
    call: (Function, Oid, seq<Value>) -> Value,
    cast: (Function, Oid, seq<Value>) -> Value,
    aggregate: (AggName, Oid, Oid, bool, seq<seq<Value>>) -> Value)

  /** The relations of the scan, the current row, the rows of its group, the values of parameters and
      of other relations' columns, and the value a CASE compares with. */
  datatype Env = Env(relids: set<nat>, row: Row, group: seq<Row>, outer: Expr -> Value, caseVal: Value)

  function MomentKind(t: PgType): SqlType {
    if t.Date? then DateType else if t.Time? then TimeType else TimestampType
  }

  function DatumValue(d: Datum, t: PgType): Value {
    match d
    case Number(r) => RealV(r)
    case Chars(s) => StringV(s)
    case Moment(s) => MomentV(MomentKind(t), s)
    case Span(iv) => SpanV(iv.(seen := true))
    case _ => NullV
  }

  function DatumValues(ds: seq<Datum>, t: PgType): seq<Value> {
    if ds == [] then [] else [DatumValue(ds[0], t)] + DatumValues(ds[1..], t)
  }

  /** The executor's loop for `x op ANY (array)` (useOr) and `x op ALL (array)`: an element that
      decides the result ends it, a null comparison is remembered. */
  function ArrayLoop(compare: (Value, Value) -> Value, useOr: bool, x: Value, es: seq<Value>, sawNull: bool): Value {
    if es == [] then (if sawNull then NullV else BoolV(!useOr))
    else
      var v := if es[0].NullV? then NullV else compare(x, es[0]);
      if v == BoolV(useOr) then v
      else ArrayLoop(compare, useOr, x, es[1..], sawNull || v.NullV?)
  }

  /** A null array gives null, an empty one the neutral value, a null left operand null. */
  function ArrayOp(compare: (Value, Value) -> Value, useOr: bool, x: Value, arr: Option<seq<Value>>): Value {
    if arr.None? then NullV
    else if arr.value == [] then BoolV(!useOr)
    else if x.NullV? then NullV
    else ArrayLoop(compare, useOr, x, arr.value, false)
  }

  /** One operator under one collation. */
  function Comparison(pg: PgSemantics, name: BinName, op: Operator, coll: Oid): (Value, Value) -> Value {
    (a, b) => pg.binary(name, op, coll, a, b)
  }

  function EvalPg(e: Expr, env: Env, pg: PgSemantics): Value
    decreases e, 1
  {
    match e
    case Var(varno, attno, levelsup, _, _) =>
      if varno in env.relids && levelsup == 0 then env.row(varno, attno) else env.outer(e)
    case Const(t, _, d) => DatumValue(d, t)
    case Param(_, _, _, _) => env.outer(e)
    case BinaryOp(name, op, l, r, _, _, coll) => pg.binary(name, op, coll, EvalPg(l, env, pg), EvalPg(r, env, pg))
    case UnaryOp(name, op, a, _, _, coll) => pg.unary(name, op, coll, EvalPg(a, env, pg))
    case DistinctExpr(_, op, l, r, _, coll) =>
      var a, b := EvalPg(l, env, pg), EvalPg(r, env, pg);
      Distinct3(a, b, pg.binary(Eq, op, coll, a, b))
    case ScalarArrayOp(name, op, useOr, l, arr, coll) =>
      ArrayOp(Comparison(pg, name, op, coll), useOr, EvalPg(l, env, pg), EvalArray(op.left, arr, env, pg))
    case NotExpr(a) => Not3(EvalPg(a, env, pg))
    case AndOrExpr(isAnd, first, rest) =>
      var vs := [EvalPg(first, env, pg)] + EvalPgs(rest, env, pg);
      if isAnd then AndAll(vs) else OrAll(vs)
    case NullTest(a, isNull, _) => BoolV(EvalPg(a, env, pg).NullV? == isNull)
    case RelabelType(a, _, _) => EvalPg(a, env, pg)
    case CaseExpr(_, _, casearg, whens, def) =>
      var inner := if casearg.Some? then env.(caseVal := EvalPg(casearg.value, env, pg)) else env;
      var w := EvalWhens(whens, env, inner, pg);
      if w.Some? then w.value else if def.Some? then EvalPg(def.value, env, pg) else NullV
    case CaseTestExpr(_, _) => env.caseVal
    case FuncExpr(fn, args, _, _, coll) => pg.call(fn, coll, EvalPgs(args, env, pg))
    case ImplicitCast(fn, first, rest, _, _, coll) => pg.cast(fn, coll, [EvalPg(first, env, pg)] + EvalPgs(rest, env, pg))
    case Aggref(agg, aggoid, _, distinct, _, _, _, _, _, coll) =>
      pg.aggregate(agg, aggoid, coll, distinct, EvalGroup(e, env, env.group, pg))
    case _ => NullV
  }

  function EvalPgs(es: seq<Expr>, env: Env, pg: PgSemantics): seq<Value>
    decreases es
  {
    if es == [] then [] else [EvalPg(es[0], env, pg)] + EvalPgs(es[1..], env, pg)
  }

  /** The first WHEN that is true; conditions see the CASE argument. */
  function EvalWhens(ws: seq<CaseWhen>, env: Env, inner: Env, pg: PgSemantics): Option<Value>
    decreases ws
  {
    if ws == [] then None
    else if EvalWhenCond(ws[0], inner, pg) then Some(EvalWhenResult(ws[0], env, pg))
    else EvalWhens(ws[1..], env, inner, pg)
  }

  predicate EvalWhenCond(w: CaseWhen, env: Env, pg: PgSemantics)
    decreases w
  {
    EvalPg(w.cond, env, pg) == BoolV(true)
  }

  function EvalWhenResult(w: CaseWhen, env: Env, pg: PgSemantics): Value
    decreases w
  {
    EvalPg(w.result, env, pg)
  }

  function EvalArray(elem: PgType, arr: Expr, env: Env, pg: PgSemantics): Option<seq<Value>>
    decreases arr
  {
    match arr
    case Const(_, _, d) => if d.Elements? then Some(DatumValues(d.items, elem)) else None
    case ArrayExpr(es, _, _) => Some(EvalPgs(es, env, pg))
    case ArrayCoerceExpr(a, _, _, _) => if a.ArrayExpr? then Some(EvalPgs(a.elements, env, pg)) else None
    case _ => None
  }

  /** The argument values of the group's rows that pass the FILTER clause. */
  function EvalGroup(e: Expr, env: Env, rows: seq<Row>, pg: PgSemantics): seq<seq<Value>>
    requires e.Aggref?
    decreases e, 0, |rows|
  {
    if rows == [] then []
    else
      var arguments := [if e.star then [] else EvalPgs(e.args, env.(row := rows[0]), pg)];
      (if PassesFilter(e, env, rows[0], pg) then arguments else []) + EvalGroup(e, env, rows[1..], pg)
  }

  predicate PassesFilter(e: Expr, env: Env, row: Row, pg: PgSemantics)
    requires e.Aggref?
    decreases e, 0, 0
  {
    e.filter.None? || EvalPg(e.filter.value, env.(row := row), pg) == BoolV(true)
  }

  // ----- DB2

  type RemoteRow = (Option<nat>, string) -> Value

  datatype Db2Semantics = Db2Semantics(
    infix: (SqlOp, Value, Value) -> Value,
    like: (Value, Value) -> Value,
    sign: (SqlOp, Value) -> Value,
    call: (SqlFn, seq<Value>) -> Value,
    extract: (string, Value) -> Value,
    castTo: (SqlType, Value) -> Value,
    duration: (int, TimeUnit) -> Value,
    aggregate: (AggName, bool, seq<seq<Value>>) -> Value)

  /** The current row, the rows of its group, the values bound for the parameter list, and the text
      of the transaction timestamp. */
  datatype RemoteEnv = RemoteEnv(row: RemoteRow, group: seq<RemoteRow>, binds: seq<Value>, now: string)

  /** Dates and times are sent as text. */
  function Sent(v: Value): Value {
    if v.MomentV? then StringV(v.s) else v
  }

  function Bound(binds: seq<Value>, n: nat): Value {
    if 1 <= n <= |binds| then binds[n - 1] else NullV
  }

  /** x IN (a, b, ..) is x = a OR x = b OR ..., section 8.4 of ISO/IEC 9075-2. */
  function EqualAny(x: Value, es: seq<Value>, db: Db2Semantics): Value {
    if es == [] then BoolV(false) else Or3(db.infix(OpEq, x, es[0]), EqualAny(x, es[1..], db))
  }

  function EvalSql(t: Sql, env: RemoteEnv, db: Db2Semantics): Value
    decreases t, 1
  {
    match t
    case Column(rel, name) => env.row(rel, name)
    case NumLit(r) => RealV(r)
    case StrLit(s) => StringV(s)
    case NullLit => NullV
    case SpecialLit(_) => NullV
    case NoForm => NullV
    case MarkerRef(n) => Sent(Bound(env.binds, n))
    case NamedRef(n) => Bound(env.binds, n)
    case NowRef => StringV(env.now)
    case Duration(n, unit) => db.duration(n, unit)
    case CastTo(e, ty) => db.castTo(ty, EvalSql(e, env, db))
    case Call(f, args) => db.call(f, EvalSqls(args, env, db))
    case ExtractField(field, e) => db.extract(field, EvalSql(e, env, db))
    case Signed(op, e) => db.sign(op, EvalSql(e, env, db))
    case Infix(op, l, r) => db.infix(op, EvalSql(l, env, db), EvalSql(r, env, db))
    case LikePred(negated, l, r) =>
      var v := db.like(EvalSql(l, env, db), EvalSql(r, env, db));
      if negated then Not3(v) else v
    case InPred(negated, l, items) =>
      var v := EqualAny(EvalSql(l, env, db), EvalSqls(items, env, db), db);
      if negated then Not3(v) else v
    case IsNullPred(negated, e) => BoolV(EvalSql(e, env, db).NullV? != negated)
    case DistinctPred(negated, l, r) =>
      var a, b := EvalSql(l, env, db), EvalSql(r, env, db);
      var v := Distinct3(a, b, db.infix(OpEq, a, b));
      if negated then Not3(v) else v
    case NotCond(e) => Not3(EvalSql(e, env, db))
    case AndCond(es) => AndAll(EvalSqls(es, env, db))
    case OrCond(es) => OrAll(EvalSqls(es, env, db))
    case Case(whens, els) =>
      var w := EvalSqlWhens(whens, env, db);
      if w.Some? then w.value else if els.Some? then EvalSql(els.value, env, db) else NullV
    case SimpleCase(arg, whens, els) =>
      var w := EvalSimpleWhens(EvalSql(arg, env, db), whens, env, db);
      if w.Some? then w.value else if els.Some? then EvalSql(els.value, env, db) else NullV
    case Aggregate(agg, distinct, _, _, _) =>
      db.aggregate(agg, distinct, EvalSqlGroup(t, env, env.group, db))
  }

  function EvalSqls(ts: seq<Sql>, env: RemoteEnv, db: Db2Semantics): seq<Value>
    decreases ts
  {
    if ts == [] then [] else [EvalSql(ts[0], env, db)] + EvalSqls(ts[1..], env, db)
  }

  function EvalSqlWhens(ws: seq<SqlWhen>, env: RemoteEnv, db: Db2Semantics): Option<Value>
    decreases ws
  {
    if ws == [] then None
    else if EvalSqlWhenCond(ws[0], env, db) then Some(EvalSqlWhenResult(ws[0], env, db))
    else EvalSqlWhens(ws[1..], env, db)
  }

  /** The first WHEN whose value equals that of the argument. */
  function EvalSimpleWhens(v: Value, ws: seq<SqlWhen>, env: RemoteEnv, db: Db2Semantics): Option<Value>
    decreases ws
  {
    if ws == [] then None
    else if EvalWhenEquals(v, ws[0], env, db) then Some(EvalSqlWhenResult(ws[0], env, db))
    else EvalSimpleWhens(v, ws[1..], env, db)
  }

  predicate EvalWhenEquals(v: Value, w: SqlWhen, env: RemoteEnv, db: Db2Semantics)
    decreases w
  {
    db.infix(OpEq, v, EvalSql(w.cond, env, db)) == BoolV(true)
  }

  predicate EvalSqlWhenCond(w: SqlWhen, env: RemoteEnv, db: Db2Semantics)
    decreases w
  {
    EvalSql(w.cond, env, db) == BoolV(true)
  }

  function EvalSqlWhenResult(w: SqlWhen, env: RemoteEnv, db: Db2Semantics): Value
    decreases w
  {
    EvalSql(w.result, env, db)
  }

  function EvalSqlGroup(t: Sql, env: RemoteEnv, rows: seq<RemoteRow>, db: Db2Semantics): seq<seq<Value>>
    requires t.Aggregate?
    decreases t, 0, |rows|
  {
    if rows == [] then []
    else
      var arguments := [if t.star then [] else EvalSqls(t.args, env.(row := rows[0]), db)];
      (if PassesSqlFilter(t, env, rows[0], db) then arguments else []) + EvalSqlGroup(t, env, rows[1..], db)
  }

  predicate PassesSqlFilter(t: Sql, env: RemoteEnv, row: RemoteRow, db: Db2Semantics)
    requires t.Aggregate?
    decreases t, 0, 0
  {
    t.filter.None? || EvalSql(t.filter.value, env.(row := row), db) == BoolV(true)
  }
}
