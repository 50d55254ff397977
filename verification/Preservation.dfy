/** Meaning preservation: on every row and every group, the shipped text has the three-valued value of
    the PostgreSQL expression, provided that the two servers agree on the primitive operations that occur in it. */
module Preservation {
  import opened Nodes
  import opened RemoteSql
  import opened Deparse
  import opened Fragment
  import opened Grouping
  import opened Meaning
  import opened Primitives
  import opened ParamList
  import opened Spoiling

  // ----- when two environments agree

  ghost predicate RowsMatch(row: Row, remote: RemoteRow, scan: Scan) {
    forall varno: nat, attno: int | varno in scan.relids && attno > 0 ::
      row(varno, attno) == remote(if |scan.relids| > 1 then Some(varno) else None, scan.colName(varno, attno))
  }

  ghost predicate GroupsMatch(rows: seq<Row>, remote: seq<RemoteRow>, scan: Scan) {
    |rows| == |remote| && forall i | 0 <= i < |rows| :: RowsMatch(rows[i], remote[i], scan)
  }

  /** A date or time parameter holds a date or time of its own kind, other parameters hold none. */
  predicate ParamFits(e: Expr, v: Value) {
    e.Param? ==>
      if e.ptype.Date? || e.ptype.Time? || e.ptype.Timestamp? || e.ptype.TimestampTz? then
        v.NullV? || (v.MomentV? && v.t == MomentKind(e.ptype))
      else
        !v.MomentV?
  }

  /** Every entry of the parameter list is bound to its own value. */
  ghost predicate BindsMatch(env: Env, binds: seq<Value>, ps: seq<Expr>) {
    && |binds| == |ps|
    && forall i | 0 <= i < |ps| :: binds[i] == env.outer(ps[i]) && ParamFits(ps[i], binds[i])
  }

  ghost predicate Matches(env: Env, remote: RemoteEnv, scan: Scan, ps: seq<Expr>) {
    && env.relids == scan.relids
    && RowsMatch(env.row, remote.row, scan) && GroupsMatch(env.group, remote.group, scan)
    && BindsMatch(env, remote.binds, ps)
  }

  /** One evaluation on both sides: ps is the finished parameter list. */
  datatype Setting = Setting(scan: Scan, ps: seq<Expr>, env: Env, remote: RemoteEnv, pg: PgSemantics, db: Db2Semantics) {
    /** Both sides see the same rows and parameters. */
    ghost predicate Sound() {
      Matches(env, remote, scan, ps)
    }

    ghost predicate Agrees(prims: set<Primitive>) {
      Agree(prims, pg, db, remote.now)
    }

    function Local(e: Expr): Value {
      EvalPg(e, env, pg)
    }

    /** What DB2 would compute from what is meant. */
    function Remote(e: Expr): Value {
      EvalSql(Tr(e, scan, ps), remote, db)
    }

    /** What DB2 computes from what it reads. */
    function Shipped(e: Expr): Value {
      EvalSql(Read(e, scan, ps), remote, db)
    }
  }

  // ----- = ANY and <> ALL

  /** The executor's loop computes IN, with unknown for every null comparison it passes. */
  lemma {:induction false} LoopIsIn(compare: (Value, Value) -> Value, db: Db2Semantics, x: Value, es: seq<Value>, sawNull: bool)
    requires MemberAgrees(compare, Eq, db)
    ensures ArrayLoop(compare, true, x, es, sawNull)
         == Or3(if sawNull then NullV else BoolV(false), EqualAny(x, es, db))
  {
    if es != [] {
      assert compare(x, es[0]) == db.infix(OpEq, x, es[0]);
      LoopIsIn(compare, db, x, es[1..], sawNull || db.infix(OpEq, x, es[0]).NullV?);
    }
  }

  lemma {:induction false} LoopIsNotIn(compare: (Value, Value) -> Value, db: Db2Semantics, x: Value, es: seq<Value>, sawNull: bool)
    requires MemberAgrees(compare, Ne, db)
    ensures ArrayLoop(compare, false, x, es, sawNull)
         == Not3(Or3(if sawNull then NullV else BoolV(false), EqualAny(x, es, db)))
  {
    if es != [] {
      assert compare(x, es[0]) == Not3(db.infix(OpEq, x, es[0]));
      LoopIsNotIn(compare, db, x, es[1..], sawNull || db.infix(OpEq, x, es[0]).NullV?);
    }
  }

  lemma {:induction false} NullInAny(compare: (Value, Value) -> Value, name: BinName, db: Db2Semantics, x: Value, es: seq<Value>)
    requires MemberAgrees(compare, name, db) && x.NullV? && es != []
    ensures EqualAny(x, es, db) == NullV
  {
    assert compare(x, es[0]) == compare(x, es[0]);
    if |es| > 1 {
      NullInAny(compare, name, db, x, es[1..]);
    }
  }

  /** The list that an array operand is printed as: a null array is a list of one null. */
  function ItemsOf(arr: Option<seq<Value>>): seq<Value> {
    if arr.Some? then arr.value else [NullV]
  }

  /** IN or NOT IN. */
  function InValue(useOr: bool, x: Value, es: seq<Value>, db: Db2Semantics): Value {
    if useOr then EqualAny(x, es, db) else Not3(EqualAny(x, es, db))
  }

  /** IN and NOT IN mean = ANY and <> ALL for every operand and every non-empty list, nulls included. */
  lemma ArrayOpIsIn(compare: (Value, Value) -> Value, db: Db2Semantics, name: BinName, useOr: bool, x: Value, arr: Option<seq<Value>>)
    requires MemberAgrees(compare, name, db) && IsInOrNotIn(name, useOr) && arr != Some([])
    ensures ArrayOp(compare, useOr, x, arr) == InValue(useOr, x, ItemsOf(arr), db)
  {
    if arr.None? {
      assert compare(x, NullV) == compare(x, NullV);
      assert EqualAny(x, [NullV], db) == Or3(db.infix(OpEq, x, NullV), EqualAny(x, [], db));
    } else if x.NullV? {
      NullInAny(compare, name, db, x, arr.value);
    } else if useOr {
      LoopIsIn(compare, db, x, arr.value, false);
      EqualAnyIsTruth(x, arr.value, db);
    } else {
      LoopIsNotIn(compare, db, x, arr.value, false);
      EqualAnyIsTruth(x, arr.value, db);
    }
  }

  lemma EqualAnyIsTruth(x: Value, es: seq<Value>, db: Db2Semantics)
    ensures EqualAny(x, es, db).NullV? || EqualAny(x, es, db).BoolV?
  {
  }

  // ----- leaves

  lemma DatumMeans(d: Datum, t: PgType, w: Setting)
    requires w.Agrees(DatumPrims(d, t)) && DatumIntact(d) && ElementText(d, t).Some?
    ensures EvalSql(MeantDatum(d, t), w.remote, w.db) == DatumValue(d, t)
  {
    if d.Number? {
      NumberMeans(d.r, w);
    } else if d.Moment? {
      assert PrimAgrees(Temporal(MomentKind(t)), w.pg, w.db, w.remote.now);
      MomentMeans(d.text, MomentKind(t), w);
    } else if d.Span? {
      assert PrimAgrees(Lasting(d.iv), w.pg, w.db, w.remote.now);
      SpanMeans(d.iv, t, w);
    }
  }

  lemma SpanMeans(iv: Interval, t: PgType, w: Setting)
    ensures EvalSql(MeantDatum(Span(iv), t), w.remote, w.db) == DurationsValue(MeantPieces(iv), w.db)
  {
    var ps := MeantPieces(iv);
    if ps != [] {
      FoldedMeans(Duration(ps[0].count, ps[0].unit), ps[1..], w);
    }
  }

  lemma OneMoreDuration(op: SqlOp, head: Sql, n: int, unit: TimeUnit, w: Setting)
    ensures EvalSql(Infix(op, head, Duration(n, unit)), w.remote, w.db)
         == w.db.infix(op, EvalSql(head, w.remote, w.db), w.db.duration(n, unit))
  {
    assert EvalSql(Duration(n, unit), w.remote, w.db) == w.db.duration(n, unit);
  }

  lemma {:induction false} FoldedMeans(head: Sql, rest: seq<Piece>, w: Setting)
    ensures EvalSql(Folded(head, rest), w.remote, w.db) == AddDurations(EvalSql(head, w.remote, w.db), rest, w.db)
    decreases |rest|
  {
    hide EvalSql;
    if rest != [] {
      var op := if rest[0].sign.Some? then rest[0].sign.value else OpAdd;
      OneMoreDuration(op, head, rest[0].count, rest[0].unit, w);
      FoldedMeans(Infix(op, head, Duration(rest[0].count, rest[0].unit)), rest[1..], w);
    }
  }

  lemma NumberMeans(r: real, w: Setting)
    requires r < 0.0 ==> w.Agrees({Negative})
    ensures EvalSql(NumberTree(r), w.remote, w.db) == RealV(r)
  {
    if r < 0.0 {
      NegativeMeans(-r, w);
    }
  }

  lemma NegativeMeans(r: real, w: Setting)
    requires w.Agrees({Negative})
    ensures EvalSql(Signed(OpSub, NumLit(r)), w.remote, w.db) == RealV(-r)
  {
    assert PrimAgrees(Negative, w.pg, w.db, w.remote.now);
  }

  lemma MomentMeans(text: string, kind: SqlType, w: Setting)
    requires w.db.castTo(kind, StringV(text)) == MomentV(kind, text)
    ensures EvalSql(CastTo(StrLit(text), kind), w.remote, w.db) == MomentV(kind, text)
  {
    assert EvalSql(StrLit(text), w.remote, w.db) == StringV(text);
  }

  lemma {:induction false} DatumsMean(ds: seq<Datum>, t: PgType, w: Setting)
    requires w.Agrees(DatumsPrims(ds, t)) && AllDatumsIntact(ds) && ElementsReadable(ds, t)
    ensures EvalSqls(MeantDatums(ds, t), w.remote, w.db) == DatumValues(ds, t)
  {
    if ds != [] {
      DatumMeans(ds[0], t, w);
      DatumsMean(ds[1..], t, w);
      EvalSqlsCons(MeantDatum(ds[0], t), MeantDatums(ds[1..], t), w);
    }
  }

  /** A parameter is found in the list under the number that was printed for it. */
  lemma BoundToItself(e: Expr, w: Setting)
    requires w.Sound() && e in w.ps
    ensures Bound(w.remote.binds, ParamIndex(e, w.ps)) == w.env.outer(e)
    ensures ParamFits(e, w.env.outer(e))
  {
    IndexNamesParam(e, w.ps, w.ps);
    assert w.ps[ParamIndex(e, w.ps) - 1] == e;
  }

  lemma VarMeans(e: Expr, qs: seq<Expr>, w: Setting)
    requires w.Sound() && e.Var? && Faithful(e, w.scan) && Params(e, w.scan, qs) <= w.ps
    ensures w.Remote(e) == w.Local(e)
  {
    if IsForeignVar(e, w.scan) {
      assert RowsMatch(w.env.row, w.remote.row, w.scan);
    } else {
      assert e in Params(e, w.scan, qs);
      BoundToItself(e, w);
    }
  }

  lemma ParamMeans(e: Expr, qs: seq<Expr>, w: Setting)
    requires w.Sound() && w.Agrees(Prims(e)) && e.Param? && Printable(e) && Params(e, w.scan, qs) <= w.ps
    ensures w.Remote(e) == w.Local(e)
  {
    assert e in Params(e, w.scan, qs);
    BoundToItself(e, w);
    var v := w.env.outer(e);
    if IsTemporal(e.ptype) {
      assert Temporal(MomentKind(e.ptype)) in Prims(e);
      assert v.MomentV? ==> w.db.castTo(v.t, StringV(v.s)) == v;
    }
    ParamTreeMeans(e.ptype, ParamIndex(e, w.ps), w);
  }

  lemma ParamTreeMeans(t: PgType, n: nat, w: Setting)
    ensures var v := Bound(w.remote.binds, n);
      EvalSql(ParamTree(t, n), w.remote, w.db)
        == if IsTemporal(t) then w.db.castTo(MomentKind(t), Sent(v)) else Sent(v)
  {
  }

  // ----- operations, given that their operands keep their values

  lemma BinaryMeans(e: Expr, w: Setting)
    requires e.BinaryOp? && w.Agrees({Compute(e.bname, e.op, e.inputcoll)})
    requires w.Remote(e.left) == w.Local(e.left) && w.Remote(e.right) == w.Local(e.right)
    ensures w.Remote(e) == w.Local(e)
  {
    var l, r := Tr(e.left, w.scan, w.ps), Tr(e.right, w.scan, w.ps);
    assert PrimAgrees(Compute(e.bname, e.op, e.inputcoll), w.pg, w.db, w.remote.now);
    assert w.Local(e) == BinaryMeaning(e.bname, w.Local(e.left), w.Local(e.right), w.db);
    BinaryTreeMeans(e.bname, l, r, w);
  }

  lemma BinaryTreeMeans(name: BinName, l: Sql, r: Sql, w: Setting)
    ensures EvalSql(BinaryTree(name, l, r), w.remote, w.db)
         == BinaryMeaning(name, EvalSql(l, w.remote, w.db), EvalSql(r, w.remote, w.db), w.db)
  {
    hide EvalSql, UpperOf;
    UpperMeans(l, w);
    UpperMeans(r, w);
    match name
    case Like => LikeMeans(false, l, r, w);
    case NotLike => LikeMeans(true, l, r, w);
    case ILike => LikeMeans(false, UpperOf(l), UpperOf(r), w);
    case NotILike => LikeMeans(true, UpperOf(l), UpperOf(r), w);
    case Pow => CallTwoMeans(F(Power), l, r, w);
    case Mod => CallTwoMeans(F(ModFn), l, r, w);
    case BitAnd => CallTwoMeans(BitAndFn, l, r, w);
    case _ => InfixMeans(SqlOpOf(name), l, r, w);
  }

  lemma LikeMeans(negated: bool, l: Sql, r: Sql, w: Setting)
    ensures var v := w.db.like(EvalSql(l, w.remote, w.db), EvalSql(r, w.remote, w.db));
      EvalSql(LikePred(negated, l, r), w.remote, w.db) == if negated then Not3(v) else v
  {
  }

  lemma CallTwoMeans(f: SqlFn, l: Sql, r: Sql, w: Setting)
    ensures EvalSql(Call(f, [l, r]), w.remote, w.db) == w.db.call(f, [EvalSql(l, w.remote, w.db), EvalSql(r, w.remote, w.db)])
  {
    TwoArgs(l, r, w);
  }

  lemma InfixMeans(op: SqlOp, l: Sql, r: Sql, w: Setting)
    ensures EvalSql(Infix(op, l, r), w.remote, w.db) == w.db.infix(op, EvalSql(l, w.remote, w.db), EvalSql(r, w.remote, w.db))
  {
  }

  lemma UpperMeans(a: Sql, w: Setting)
    ensures EvalSql(UpperOf(a), w.remote, w.db) == w.db.call(F(Upper), [EvalSql(a, w.remote, w.db)])
  {
    OneArg(a, w);
  }

  lemma OneArg(a: Sql, w: Setting)
    ensures EvalSqls([a], w.remote, w.db) == [EvalSql(a, w.remote, w.db)]
  {
  }

  lemma TwoArgs(a: Sql, b: Sql, w: Setting)
    ensures EvalSqls([a, b], w.remote, w.db) == [EvalSql(a, w.remote, w.db), EvalSql(b, w.remote, w.db)]
  {
    assert [a, b][1..] == [b];
    OneArg(b, w);
  }

  lemma UnaryMeans(e: Expr, w: Setting)
    requires e.UnaryOp? && w.Agrees({Prefix(e.uname, e.op, e.inputcoll)}) && w.Remote(e.arg) == w.Local(e.arg)
    ensures w.Remote(e) == w.Local(e)
  {
    assert PrimAgrees(Prefix(e.uname, e.op, e.inputcoll), w.pg, w.db, w.remote.now);
    assert w.Local(e) == UnaryMeaning(e.uname, w.Local(e.arg), w.db);
    OneArg(Tr(e.arg, w.scan, w.ps), w);
  }

  lemma DistinctMeans(e: Expr, w: Setting)
    requires e.DistinctExpr? && w.Agrees({Equal(e.op, e.inputcoll)})
    requires w.Remote(e.left) == w.Local(e.left) && w.Remote(e.right) == w.Local(e.right)
    ensures w.Remote(e) == w.Local(e)
  {
    assert PrimAgrees(Equal(e.op, e.inputcoll), w.pg, w.db, w.remote.now);
  }

  function AndOrValue(isAnd: bool, vs: seq<Value>): Value {
    if isAnd then AndAll(vs) else OrAll(vs)
  }

  lemma ConnectiveMeans(e: Expr, w: Setting)
    requires e.AndOrExpr? && w.Remote(e.first) == w.Local(e.first)
    requires EvalSqls(Trs(e.rest, w.scan, w.ps), w.remote, w.db) == EvalPgs(e.rest, w.env, w.pg)
    ensures w.Remote(e) == w.Local(e)
  {
    var f, r := Tr(e.first, w.scan, w.ps), Trs(e.rest, w.scan, w.ps);
    ConnectiveTreeMeans(e.isAnd, f, r, w);
    assert w.Local(e) == AndOrValue(e.isAnd, [w.Local(e.first)] + EvalPgs(e.rest, w.env, w.pg));
    assert w.Remote(e) == EvalSql(if r == [] then f else if e.isAnd then AndCond([f] + r) else OrCond([f] + r), w.remote, w.db);
  }

  lemma ConnectiveTreeMeans(isAnd: bool, f: Sql, r: seq<Sql>, w: Setting)
    ensures EvalSql(if r == [] then f else if isAnd then AndCond([f] + r) else OrCond([f] + r), w.remote, w.db)
         == AndOrValue(isAnd, [EvalSql(f, w.remote, w.db)] + EvalSqls(r, w.remote, w.db))
  {
    if r == [] {
      assert EvalSqls(r, w.remote, w.db) == [];
    } else {
      EvalSqlsCons(f, r, w);
    }
  }

  lemma EvalSqlsCons(f: Sql, r: seq<Sql>, w: Setting)
    ensures EvalSqls([f] + r, w.remote, w.db) == [EvalSql(f, w.remote, w.db)] + EvalSqls(r, w.remote, w.db)
  {
    assert ([f] + r)[1..] == r;
  }

  lemma NotMeans(e: Expr, w: Setting)
    requires e.NotExpr? && w.Remote(e.arg) == w.Local(e.arg)
    ensures w.Remote(e) == w.Local(e)
  {
    assert Tr(e, w.scan, w.ps) == NotCond(Tr(e.arg, w.scan, w.ps));
  }

  lemma NullTestMeans(e: Expr, w: Setting)
    requires e.NullTest? && w.Remote(e.arg) == w.Local(e.arg)
    ensures w.Remote(e) == w.Local(e)
  {
    var a := Tr(e.arg, w.scan, w.ps);
    assert Tr(e, w.scan, w.ps) == NullTestTree(e.isNull, e.plainForm, a);
    NullTestTreeMeans(e.isNull, e.plainForm, a, w);
    assert w.Local(e) == BoolV(w.Local(e.arg).NullV? == e.isNull);
  }

  /** A null test of a row is printed as IS [NOT] DISTINCT FROM NULL. */
  lemma NullTestTreeMeans(isNull: bool, plainForm: bool, a: Sql, w: Setting)
    ensures EvalSql(NullTestTree(isNull, plainForm, a), w.remote, w.db)
         == BoolV(EvalSql(a, w.remote, w.db).NullV? == isNull)
  {
    if !plainForm {
      assert EvalSql(NullLit, w.remote, w.db) == NullV;
    }
  }

  lemma ArrayOpMeans(e: Expr, w: Setting)
    requires e.ScalarArrayOp? && w.Agrees({Member(e.sname, e.op, e.inputcoll)}) && IsInOrNotIn(e.sname, e.useOr)
    requires w.Remote(e.left) == w.Local(e.left)
    requires var items := EvalSqls(ArrayTrees(e.op.left, e.arr, w.scan, w.ps), w.remote, w.db);
      var es := EvalArray(e.op.left, e.arr, w.env, w.pg);
      es != Some([]) && items == ItemsOf(es)
    ensures w.Remote(e) == w.Local(e)
  {
    ArrayOpRemote(e, w);
    ArrayOpLocal(e, w);
    assert PrimAgrees(Member(e.sname, e.op, e.inputcoll), w.pg, w.db, w.remote.now);
    ArrayOpIsIn(Comparison(w.pg, e.sname, e.op, e.inputcoll), w.db, e.sname, e.useOr, w.Local(e.left),
                EvalArray(e.op.left, e.arr, w.env, w.pg));
  }

  lemma ArrayOpRemote(e: Expr, w: Setting)
    requires e.ScalarArrayOp?
    ensures w.Remote(e)
         == InValue(e.useOr, w.Remote(e.left), EvalSqls(ArrayTrees(e.op.left, e.arr, w.scan, w.ps), w.remote, w.db), w.db)
  {
    assert Tr(e, w.scan, w.ps)
        == InPred(!e.useOr, Tr(e.left, w.scan, w.ps), ArrayTrees(e.op.left, e.arr, w.scan, w.ps));
  }

  lemma ArrayOpLocal(e: Expr, w: Setting)
    requires e.ScalarArrayOp?
    ensures w.Local(e)
         == ArrayOp(Comparison(w.pg, e.sname, e.op, e.inputcoll), e.useOr, w.Local(e.left), EvalArray(e.op.left, e.arr, w.env, w.pg))
  {
  }

  /** A function call, given that the function agrees. */
  ghost predicate CallAgrees(e: Expr, w: Setting)
    requires e.FuncExpr?
  {
    FunctionAgrees(e.fn, |e.args|, e.inputcoll, w.pg, w.db, w.remote.now)
  }

  lemma FunctionMeans(e: Expr, w: Setting)
    requires e.FuncExpr? && CallAgrees(e, w) && TranslatableFunction(e.fn, e.args, e.rtype)
    requires EvalSqls(Trs(e.args, w.scan, w.ps), w.remote, w.db) == EvalPgs(e.args, w.env, w.pg)
    requires forall i | 0 <= i < |e.args| :: w.Remote(e.args[i]) == w.Local(e.args[i])
    ensures w.Remote(e) == w.Local(e)
  {
    if e.fn.name.Translate? {
      TranslateMeans(e, w);
    } else if e.fn.name.DatePart? {
      ExtractMeans(e, w);
    } else if e.fn.name.Now? || e.fn.name.TransactionTimestamp? {
      NowMeans(e, w);
    } else {
      NormalFunctionMeans(e, w);
    }
  }

  /** The timestamp of the local transaction is sent as text. */
  lemma NowMeans(e: Expr, w: Setting)
    requires e.FuncExpr? && CallAgrees(e, w) && e.args == [] && (e.fn.name.Now? || e.fn.name.TransactionTimestamp?)
    ensures w.Remote(e) == w.Local(e)
  {
    assert Tr(e, w.scan, w.ps) == CastTo(NowRef, TimestampType);
    assert w.Remote(e) == MomentV(TimestampType, w.remote.now);
    assert EvalPgs(e.args, w.env, w.pg) == [];
  }

  lemma NormalFunctionMeans(e: Expr, w: Setting)
    requires e.FuncExpr? && CallAgrees(e, w) && TranslatableNormalFunction(e.fn.name, |e.args|)
    requires EvalSqls(Trs(e.args, w.scan, w.ps), w.remote, w.db) == EvalPgs(e.args, w.env, w.pg)
    ensures w.Remote(e) == w.Local(e)
  {
    EvalKeepsLength(e.args, w);
    assert Tr(e, w.scan, w.ps) == Call(RemoteFn(e.fn.name), Trs(e.args, w.scan, w.ps));
  }

  lemma {:induction false} EvalKeepsLength(es: seq<Expr>, w: Setting)
    ensures |EvalPgs(es, w.env, w.pg)| == |es|
    decreases es
  {
    if es != [] {
      EvalKeepsLength(es[1..], w);
    }
  }

  lemma EvalTwo(es: seq<Expr>, w: Setting)
    requires |es| == 2
    ensures EvalPgs(es, w.env, w.pg) == [w.Local(es[0]), w.Local(es[1])]
  {
    assert EvalPgs(es[1..], w.env, w.pg) == [w.Local(es[1])];
  }

  lemma EvalThree(es: seq<Expr>, w: Setting)
    requires |es| == 3
    ensures EvalPgs(es, w.env, w.pg) == [w.Local(es[0]), w.Local(es[1]), w.Local(es[2])]
  {
    EvalTwo(es[1..], w);
  }

  lemma ThreeArgs(a: Sql, b: Sql, c: Sql, w: Setting)
    ensures EvalSqls([a, b, c], w.remote, w.db)
         == [EvalSql(a, w.remote, w.db), EvalSql(b, w.remote, w.db), EvalSql(c, w.remote, w.db)]
  {
    assert [a, b, c][1..] == [b, c];
    TwoArgs(b, c, w);
  }

  /** TRANSLATE takes its last two arguments in the other order, and the translation swaps them. */
  lemma TranslateMeans(e: Expr, w: Setting)
    requires e.FuncExpr? && CallAgrees(e, w) && e.fn.name.Translate? && |e.args| == 3
    requires forall i | 0 <= i < |e.args| :: w.Remote(e.args[i]) == w.Local(e.args[i])
    ensures w.Remote(e) == w.Local(e)
  {
    var s, from, to := e.args[0], e.args[1], e.args[2];
    EvalThree(e.args, w);
    var ts, tt, tf := Tr(s, w.scan, w.ps), Tr(to, w.scan, w.ps), Tr(from, w.scan, w.ps);
    ThreeArgs(ts, tt, tf, w);
    assert Tr(e, w.scan, w.ps) == Call(TranslateFn, [ts, tt, tf]);
    assert w.Remote(e) == w.db.call(TranslateFn, [w.Remote(s), w.Remote(to), w.Remote(from)]);
    assert w.Local(e) == w.pg.call(e.fn, e.inputcoll, [w.Local(s), w.Local(from), w.Local(to)]);
  }

  lemma ExtractMeans(e: Expr, w: Setting)
    requires e.FuncExpr? && CallAgrees(e, w) && e.fn.name.DatePart? && TranslatableDatePart(e.args)
    requires w.Remote(e.args[1]) == w.Local(e.args[1])
    ensures w.Remote(e) == w.Local(e)
  {
    var field := e.args[0].datum.s;
    EvalTwo(e.args, w);
    assert Tr(e, w.scan, w.ps) == ExtractField(field, Tr(e.args[1], w.scan, w.ps));
    assert w.Remote(e) == w.db.extract(field, w.Remote(e.args[1]));
    assert w.Local(e) == w.pg.call(e.fn, e.inputcoll, [StringV(field), w.Local(e.args[1])]);
  }

  // ----- main result

  /** What the theorem assumes of an expression: it is read as it is meant, everything in it has a counterpart, and the
      servers agree on its primitives. */
  ghost predicate Covers(w: Setting, e: Expr) {
    w.Sound() && w.Agrees(Prims(e)) && Readable(e, w.scan) && Intact(e) && Faithful(e, w.scan)
  }

  ghost predicate CoversAll(w: Setting, es: seq<Expr>) {
    w.Sound() && w.Agrees(AllPrims(es)) && AllReadable(es, w.scan) && AllIntact(es) && AllFaithful(es, w.scan)
  }

  /** The translation has the value of the expression. */
  lemma {:induction false} ExprMeans(e: Expr, qs: seq<Expr>, w: Setting)
    requires Covers(w, e) && Params(e, w.scan, qs) <= w.ps
    ensures w.Remote(e) == w.Local(e)
    decreases e, 2
  {
    if e.Var? {
      VarMeans(e, qs, w);
    } else if e.Const? {
      DatumMeans(e.datum, e.ctype, w);
    } else if e.Param? {
      ParamMeans(e, qs, w);
    } else if e.BinaryOp? || e.UnaryOp? || e.DistinctExpr? || e.ScalarArrayOp? {
      OperationMeans(e, qs, w);
    } else if e.NotExpr? || e.NullTest? {
      TestMeans(e, qs, w);
    } else if e.AndOrExpr? {
      AndOrMeans(e, qs, w);
    } else if e.CaseExpr? {
      CaseMeans(e, qs, w);
    } else if e.RelabelType? {
      ExprMeans(e.arg, qs, w);
    } else if e.FuncExpr? {
      CallMeans(e, qs, w);
    } else if e.ImplicitCast? {
      CastMeans(e, qs, w);
    } else {
      AggregateMeans(e, qs, w);
    }
  }

  lemma {:induction false} CallMeans(e: Expr, qs: seq<Expr>, w: Setting)
    requires Covers(w, e) && Params(e, w.scan, qs) <= w.ps && e.FuncExpr?
    ensures w.Remote(e) == w.Local(e)
    decreases e, 1
  {
    assert CallAgrees(e, w) by {
      assert Apply(e.fn, |e.args|, e.inputcoll) in Prims(e);
    }
    if e.fn.name.Translate? {
      ThreeIsList(e.args, w.scan, qs);
    }
    ListMeans(e.args, qs, w);
    FunctionMeans(e, w);
  }

  lemma {:induction false} CastMeans(e: Expr, qs: seq<Expr>, w: Setting)
    requires Covers(w, e) && Params(e, w.scan, qs) <= w.ps && e.ImplicitCast?
    ensures w.Remote(e) == w.Local(e)
    decreases e, 1
  {
    assert PrimAgrees(Convert(e.fn, e.inputcoll), w.pg, w.db, w.remote.now) by {
      assert Convert(e.fn, e.inputcoll) in Prims(e);
    }
    ExprMeans(e.first, qs, w);
  }

  lemma {:induction false} AggregateMeans(e: Expr, qs: seq<Expr>, w: Setting)
    requires Covers(w, e) && Params(e, w.scan, qs) <= w.ps && e.Aggref?
    ensures w.Remote(e) == w.Local(e)
    decreases e, 1
  {
    GroupMeans(e, qs, w, w.env.group, w.remote.group);
    assert Collect(e.agg, e.aggoid, e.distinct, e.inputcoll) in Prims(e);
    AggregateValue(e, w);
  }

  lemma AggregateValue(e: Expr, w: Setting)
    requires e.Aggref? && PrimAgrees(Collect(e.agg, e.aggoid, e.distinct, e.inputcoll), w.pg, w.db, w.remote.now)
    requires EvalSqlGroup(Tr(e, w.scan, w.ps), w.remote, w.remote.group, w.db) == EvalGroup(e, w.env, w.env.group, w.pg)
    ensures w.Remote(e) == w.Local(e)
  {
  }

  lemma {:induction false} OperationMeans(e: Expr, qs: seq<Expr>, w: Setting)
    requires Covers(w, e) && Params(e, w.scan, qs) <= w.ps
    requires e.BinaryOp? || e.UnaryOp? || e.DistinctExpr? || e.ScalarArrayOp?
    ensures w.Remote(e) == w.Local(e)
    decreases e, 1
  {
    if e.UnaryOp? {
      ExprMeans(e.arg, qs, w);
      UnaryMeans(e, w);
    } else {
      ExprMeans(e.left, qs, w);
      var rs := Params(e.left, w.scan, qs);
      if e.BinaryOp? {
        ExprMeans(e.right, rs, w);
        BinaryMeans(e, w);
      } else if e.DistinctExpr? {
        ExprMeans(e.right, rs, w);
        DistinctMeans(e, w);
      } else {
        ArrayMeans(e.op.left, e.arr, rs, w);
        ArrayOpMeans(e, w);
      }
    }
  }

  lemma {:induction false} AndOrMeans(e: Expr, qs: seq<Expr>, w: Setting)
    requires Covers(w, e) && Params(e, w.scan, qs) <= w.ps && e.AndOrExpr?
    ensures w.Remote(e) == w.Local(e)
    decreases e, 1
  {
    ExprMeans(e.first, qs, w);
    ListMeans(e.rest, Params(e.first, w.scan, qs), w);
    ConnectiveMeans(e, w);
  }

  lemma {:induction false} TestMeans(e: Expr, qs: seq<Expr>, w: Setting)
    requires Covers(w, e) && Params(e, w.scan, qs) <= w.ps
    requires e.NotExpr? || e.NullTest?
    ensures w.Remote(e) == w.Local(e)
    decreases e, 1
  {
    hide EvalSql, EvalPg, Tr;
    ExprMeans(e.arg, qs, w);
    if e.NullTest? {
      NullTestMeans(e, w);
    } else {
      NotMeans(e, w);
    }
  }

  lemma {:induction false} CaseMeans(e: Expr, qs: seq<Expr>, w: Setting)
    requires Covers(w, e) && Params(e, w.scan, qs) <= w.ps && e.CaseExpr?
    ensures w.Remote(e) == w.Local(e)
    decreases e, 1
  {
    WhensMean(e.whens, qs, w);
    if e.def.Some? {
      ExprMeans(e.def.value, ParamsOfWhens(e.whens, false, w.scan, qs), w);
    }
    CaseRemote(e, w);
    CaseLocal(e, w);
  }

  lemma CaseRemote(e: Expr, w: Setting)
    requires e.CaseExpr? && e.casearg.None?
    ensures var chosen := EvalSqlWhens(TrWhens(e.whens, false, w.scan, w.ps), w.remote, w.db);
      w.Remote(e) == if chosen.Some? then chosen.value else if e.def.Some? then w.Remote(e.def.value) else NullV
  {
    assert Tr(e, w.scan, w.ps)
        == Case(TrWhens(e.whens, false, w.scan, w.ps), if e.def.Some? then Some(Tr(e.def.value, w.scan, w.ps)) else None);
  }

  lemma CaseLocal(e: Expr, w: Setting)
    requires e.CaseExpr? && e.casearg.None?
    ensures var chosen := EvalWhens(e.whens, w.env, w.env, w.pg);
      w.Local(e) == if chosen.Some? then chosen.value else if e.def.Some? then w.Local(e.def.value) else NullV
  {
  }

  lemma {:induction false} ListMeans(es: seq<Expr>, qs: seq<Expr>, w: Setting)
    requires CoversAll(w, es) && ParamsOfList(es, w.scan, qs) <= w.ps
    ensures EvalSqls(Trs(es, w.scan, w.ps), w.remote, w.db) == EvalPgs(es, w.env, w.pg)
    ensures forall i | 0 <= i < |es| :: w.Remote(es[i]) == w.Local(es[i])
    decreases es
  {
    if es != [] {
      ExprMeans(es[0], qs, w);
      ListMeans(es[1..], Params(es[0], w.scan, qs), w);
      EvalSqlsCons(Tr(es[0], w.scan, w.ps), Trs(es[1..], w.scan, w.ps), w);
      forall i | 0 <= i < |es|
        ensures w.Remote(es[i]) == w.Local(es[i])
      {
        if i > 0 {
          assert es[i] == es[1..][i - 1];
        }
      }
    }
  }

  lemma {:induction false} ArrayMeans(elem: PgType, arr: Expr, qs: seq<Expr>, w: Setting)
    requires w.Sound() && w.Agrees(ArrayPrims(elem, arr)) && ArrayReadable(elem, arr, w.scan) && ArrayIntact(arr) && ArrayFaithful(arr, w.scan)
    requires ParamsOfArray(arr, w.scan, qs) <= w.ps
    ensures var items := EvalSqls(ArrayTrees(elem, arr, w.scan, w.ps), w.remote, w.db);
      var es := EvalArray(elem, arr, w.env, w.pg);
      es != Some([]) && items == ItemsOf(es)
    decreases arr
  {
    if arr.Const? {
      if arr.datum.Elements? {
        DatumsMean(arr.datum.items, elem, w);
      } else {
        OneArg(NullLit, w);
      }
    } else if arr.ArrayExpr? {
      ListMeans(arr.elements, qs, w);
    } else {
      ListMeans(arr.arg.elements, qs, w);
    }
  }

  lemma {:induction false} WhensMean(ws: seq<CaseWhen>, qs: seq<Expr>, w: Setting)
    requires w.Sound() && w.Agrees(WhensPrims(ws)) && WhensReadable(ws, false, w.scan) && WhensIntact(ws, false) && WhensFaithful(ws, w.scan)
    requires ParamsOfWhens(ws, false, w.scan, qs) <= w.ps
    ensures EvalSqlWhens(TrWhens(ws, false, w.scan, w.ps), w.remote, w.db) == EvalWhens(ws, w.env, w.env, w.pg)
    ensures WhensPrintable(ws, false)
    decreases ws
  {
    if ws != [] {
      WhenMeans(ws[0], qs, w);
      WhensMean(ws[1..], ParamsOfWhen(ws[0], false, w.scan, qs), w);
      EvalSqlWhensCons(TrWhen(ws[0], false, w.scan, w.ps), TrWhens(ws[1..], false, w.scan, w.ps), w);
    }
  }

  lemma EvalSqlWhensCons(f: SqlWhen, r: seq<SqlWhen>, w: Setting)
    ensures EvalSqlWhens([f] + r, w.remote, w.db)
         == if EvalSqlWhenCond(f, w.remote, w.db) then Some(EvalSqlWhenResult(f, w.remote, w.db))
            else EvalSqlWhens(r, w.remote, w.db)
  {
    assert ([f] + r)[1..] == r;
  }

  lemma {:induction false} WhenMeans(c: CaseWhen, qs: seq<Expr>, w: Setting)
    requires w.Sound() && w.Agrees(WhenPrims(c)) && WhenReadable(c, false, w.scan) && WhenIntact(c, false) && WhenFaithful(c, w.scan)
    requires ParamsOfWhen(c, false, w.scan, qs) <= w.ps
    ensures EvalSqlWhenCond(TrWhen(c, false, w.scan, w.ps), w.remote, w.db) == EvalWhenCond(c, w.env, w.pg)
    ensures EvalSqlWhenResult(TrWhen(c, false, w.scan, w.ps), w.remote, w.db) == EvalWhenResult(c, w.env, w.pg)
    ensures WhenPrintable(c, false)
    decreases c
  {
    ExprMeans(c.cond, qs, w);
    ExprMeans(c.result, Params(c.cond, w.scan, qs), w);
  }

  /** The aggregate sees the same argument values, row by row. */
  lemma {:induction false} GroupMeans(e: Expr, qs: seq<Expr>, w: Setting, rows: seq<Row>, remote: seq<RemoteRow>)
    requires Covers(w, e) && e.Aggref? && Params(e, w.scan, qs) <= w.ps
    requires GroupsMatch(rows, remote, w.scan)
    ensures EvalSqlGroup(Tr(e, w.scan, w.ps), w.remote, remote, w.db) == EvalGroup(e, w.env, rows, w.pg)
    decreases e, 0, |rows|
  {
    if rows != [] {
      var here := w.(env := w.env.(row := rows[0]), remote := w.remote.(row := remote[0]));
      assert RowsMatch(rows[0], remote[0], w.scan);
      if !e.star {
        ListMeans(e.args, qs, here);
      }
      GroupMeans(e, qs, w, rows[1..], remote[1..]);
    }
  }

  /** What DB2 parses out of the shipped text has the value of the PostgreSQL expression, when the list
      of bound parameters is the one that deparsing it, after any earlier expressions, leaves behind. */
  lemma ShippedTextMeans(e: Expr, earlier: seq<Expr>, w: Setting)
    requires Covers(w, e) && Params(e, w.scan, earlier) <= w.ps
    ensures var parsed := ParseExpression(Text(e, w.scan, Params(e, w.scan, earlier)));
      parsed.Some? && EvalSql(parsed.value, w.remote, w.db) == EvalPg(e, w.env, w.pg)
  {
    TextStable(e, w.scan, earlier, w.ps);
    PrintParse(e, w.scan, w.ps);
    ExprMeans(e, earlier, w);
  }

  // ----- FILTER

  /** What is printed and read of an aggregate does not depend on its FILTER clause. */
  lemma FilterIsNotPrinted(e: Expr, f: Option<Expr>, scan: Scan, ps: seq<Expr>)
    requires e.Aggref?
    ensures Text(e.(filter := f), scan, ps) == Text(e, scan, ps)
    ensures Params(e.(filter := f), scan, ps) == Params(e, scan, ps)
    ensures Read(e.(filter := f), scan, ps) == Read(e, scan, ps)
  {
  }

  lemma {:induction false} GroupSizes(e: Expr, env: Env, rows: seq<Row>, pg: PgSemantics)
    requires e.Aggref?
    ensures |EvalGroup(e, env, rows, pg)| <= |rows|
    ensures e.filter.None? ==> |EvalGroup(e, env, rows, pg)| == |rows|
    decreases |rows|
  {
    if rows != [] {
      GroupSizes(e, env, rows[1..], pg);
    }
  }

  /** The aggregate sees what it would see without FILTER if and only if every row of the group passes. */
  lemma {:induction false} FilterKeepsAll(e: Expr, env: Env, rows: seq<Row>, pg: PgSemantics)
    requires e.Aggref?
    ensures EvalGroup(e, env, rows, pg) == EvalGroup(e.(filter := None), env, rows, pg)
        <==> forall i | 0 <= i < |rows| :: PassesFilter(e, env, rows[i], pg)
    decreases |rows|
  {
    if rows != [] {
      var plain := e.(filter := None);
      var rest, all := EvalGroup(e, env, rows[1..], pg), EvalGroup(plain, env, rows[1..], pg);
      var here := if e.star then [] else EvalPgs(e.args, env.(row := rows[0]), pg);
      FilterKeepsAll(e, env, rows[1..], pg);
      GroupSizes(e, env, rows[1..], pg);
      GroupSizes(plain, env, rows[1..], pg);
      assert EvalGroup(plain, env, rows, pg) == [here] + all;
      assert ([here] + all)[1..] == all && ([here] + rest)[1..] == rest;
      assert forall i | 0 < i < |rows| :: rows[i] == rows[1..][i - 1];
      assert forall i | 0 <= i < |rows[1..]| :: rows[1..][i] == rows[i + 1];
    }
  }

  /** For every aggregate that is covered but for its FILTER: DB2 parses the text, and aggregates what PostgreSQL
      aggregates if and only if every row of the group passes the FILTER. */
  lemma FilterIsLost(e: Expr, qs: seq<Expr>, w: Setting)
    requires e.Aggref? && Covers(w, e.(filter := None)) && Params(e, w.scan, qs) <= w.ps
    ensures ParseExpression(Text(e, w.scan, w.ps)) == Some(Read(e, w.scan, w.ps))
    ensures EvalSqlGroup(Read(e, w.scan, w.ps), w.remote, w.remote.group, w.db) == EvalGroup(e, w.env, w.env.group, w.pg)
        <==> forall i | 0 <= i < |w.env.group| :: PassesFilter(e, w.env, w.env.group[i], w.pg)
  {
    var plain := e.(filter := None);
    FilterIsNotPrinted(e, None, w.scan, w.ps);
    FilterIsNotPrinted(e, None, w.scan, qs);
    PrintParse(plain, w.scan, w.ps);
    GroupMeans(plain, qs, w, w.env.group, w.remote.group);
    FilterKeepsAll(e, w.env, w.env.group, w.pg);
  }
}
