/** The primitive operations that occur in an expression, each with the collation it works under, and when the
    two servers agree on one. */
module Primitives {
  import opened Nodes
  import opened RemoteSql
  import opened Deparse
  import opened Meaning
  import opened Walker
  import opened Collation

  datatype Primitive =
    | Compute(name: BinName, op: Operator, coll: Oid)
    | Prefix(uname: UnName, op: Operator, coll: Oid)
    | Equal(op: Operator, coll: Oid)
    | Member(name: BinName, op: Operator, coll: Oid)
    | Apply(fn: Function, nargs: nat, coll: Oid)
    | Convert(fn: Function, coll: Oid)
    | Collect(agg: AggName, aggoid: Oid, distinct: bool, coll: Oid)
    | Negative
    | Temporal(kind: SqlType)
    | Lasting(iv: Interval)

  function CollationOf(p: Primitive): Oid {
    if p.Negative? || p.Temporal? || p.Lasting? then INVALID_OID else p.coll
  }

  predicate IsTemporal(t: PgType) {
    t.Date? || t.Time? || t.Timestamp? || t.TimestampTz?
  }

  // ----- what occurs

  function DatumPrims(d: Datum, t: PgType): set<Primitive> {
    if d.Number? && d.r < 0.0 then {Negative} else if d.Moment? then {Temporal(MomentKind(t))} else if d.Span? then {Lasting(d.iv)} else {}
  }

  function DatumsPrims(ds: seq<Datum>, t: PgType): set<Primitive> {
    if ds == [] then {} else DatumPrims(ds[0], t) + DatumsPrims(ds[1..], t)
  }

  /** The operations that are evaluated on both sides. */
  function Prims(e: Expr): set<Primitive>
    decreases e
  {
    match e
    case Const(t, _, d) => DatumPrims(d, t)
    case Param(_, _, t, _) => if IsTemporal(t) then {Temporal(MomentKind(t))} else {}
    case BinaryOp(name, op, l, r, _, _, coll) => {Compute(name, op, coll)} + Prims(l) + Prims(r)
    case UnaryOp(name, op, a, _, _, coll) => {Prefix(name, op, coll)} + Prims(a)
    case DistinctExpr(_, op, l, r, _, coll) => {Equal(op, coll)} + Prims(l) + Prims(r)
    case ScalarArrayOp(name, op, _, l, arr, coll) => {Member(name, op, coll)} + Prims(l) + ArrayPrims(op.left, arr)
    case NotExpr(a) => Prims(a)
    case AndOrExpr(_, first, rest) => Prims(first) + AllPrims(rest)
    case NullTest(a, _, _) => Prims(a)
    case RelabelType(a, _, _) => Prims(a)
    case CaseExpr(_, _, _, whens, def) => WhensPrims(whens) + if def.Some? then Prims(def.value) else {}
    case FuncExpr(fn, args, _, _, coll) => {Apply(fn, |args|, coll)} + AllPrims(args)
    case ImplicitCast(fn, first, _, _, _, coll) => {Convert(fn, coll)} + Prims(first)
    case Aggref(agg, aggoid, _, distinct, star, args, _, _, _, coll) =>
      {Collect(agg, aggoid, distinct, coll)} + if star then {} else AllPrims(args)
    case _ => {}
  }

  function AllPrims(es: seq<Expr>): set<Primitive>
    decreases es
  {
    if es == [] then {} else Prims(es[0]) + AllPrims(es[1..])
  }

  function WhenPrims(w: CaseWhen): set<Primitive>
    decreases w
  {
    Prims(w.cond) + Prims(w.result)
  }

  function WhensPrims(ws: seq<CaseWhen>): set<Primitive>
    decreases ws
  {
    if ws == [] then {} else WhenPrims(ws[0]) + WhensPrims(ws[1..])
  }

  function ArrayPrims(elem: PgType, arr: Expr): set<Primitive>
    decreases arr
  {
    match arr
    case Const(_, _, d) => if d.Elements? then DatumsPrims(d.items, elem) else {}
    case ArrayExpr(es, _, _) => AllPrims(es)
    case ArrayCoerceExpr(a, _, _, _) => if a.ArrayExpr? then AllPrims(a.elements) else {}
    case _ => {}
  }

  // ----- agreement

  /** What the printed form of an infix operator computes. */
  function BinaryMeaning(name: BinName, a: Value, b: Value, db: Db2Semantics): Value {
    match name
    case Like => db.like(a, b)
    case NotLike => Not3(db.like(a, b))
    case ILike => db.like(db.call(F(Upper), [a]), db.call(F(Upper), [b]))
    case NotILike => Not3(db.like(db.call(F(Upper), [a]), db.call(F(Upper), [b])))
    case Pow => db.call(F(Power), [a, b])
    case Mod => db.call(F(ModFn), [a, b])
    case BitAnd => db.call(BitAndFn, [a, b])
    case _ => db.infix(SqlOpOf(name), a, b)
  }

  /** What the printed form of a prefix operator computes. */
  function UnaryMeaning(name: UnName, a: Value, db: Db2Semantics): Value {
    match name
    case SqrtOp => db.call(F(Sqrt), [a])
    case AbsOp => db.call(F(Abs), [a])
    case Minus => db.sign(OpSub, a)
    case _ => db.sign(OpAdd, a)
  }

  /** Equality is strict and yields a truth value, and inequality is its negation. */
  ghost predicate MemberAgrees(compare: (Value, Value) -> Value, name: BinName, db: Db2Semantics) {
    forall a: Value, b: Value ::
      var equal := db.infix(OpEq, a, b);
      && (a.NullV? || b.NullV? ==> equal.NullV?)
      && (equal.NullV? || equal.BoolV?)
      && compare(a, b) == if name.Eq? then equal else Not3(equal)
  }

  /** The functions with a printed form of their own, and those that keep their arguments. */
  ghost predicate FunctionAgrees(fn: Function, nargs: nat, coll: Oid, pg: PgSemantics, db: Db2Semantics, now: string) {
    if fn.name.Translate? then forall s, from, to :: pg.call(fn, coll, [s, from, to]) == db.call(TranslateFn, [s, to, from])
    else if fn.name.DatePart? then forall field: string, v :: pg.call(fn, coll, [StringV(field), v]) == db.extract(field, v)
    else if fn.name.Now? || fn.name.TransactionTimestamp? then
      pg.call(fn, coll, []) == MomentV(TimestampType, now) == db.castTo(TimestampType, StringV(now))
    else forall vs: seq<Value> | |vs| == nargs :: pg.call(fn, coll, vs) == db.call(RemoteFn(fn.name), vs)
  }

  /** What DB2 makes of durations that are added to a value. */
  function AddDurations(v: Value, rest: seq<Piece>, db: Db2Semantics): Value
    decreases |rest|
  {
    if rest == [] then v
    else
      var op := if rest[0].sign.Some? then rest[0].sign.value else OpAdd;
      AddDurations(db.infix(op, v, db.duration(rest[0].count, rest[0].unit)), rest[1..], db)
  }

  function DurationsValue(ps: seq<Piece>, db: Db2Semantics): Value {
    if ps == [] then db.duration(0, SECOND) else AddDurations(db.duration(ps[0].count, ps[0].unit), ps[1..], db)
  }

  /** The servers compute the same; casts that are dropped keep the value; the text of a date or time, cast,
      gives it back; the durations of an interval make up the interval. */
  ghost predicate PrimAgrees(p: Primitive, pg: PgSemantics, db: Db2Semantics, now: string) {
    match p
    case Compute(name, op, coll) => forall a, b :: pg.binary(name, op, coll, a, b) == BinaryMeaning(name, a, b, db)
    case Prefix(name, op, coll) => forall a :: pg.unary(name, op, coll, a) == UnaryMeaning(name, a, db)
    case Equal(op, coll) => forall a, b :: pg.binary(Eq, op, coll, a, b) == db.infix(OpEq, a, b)
    case Member(name, op, coll) => MemberAgrees(Comparison(pg, name, op, coll), name, db)
    case Apply(fn, nargs, coll) => FunctionAgrees(fn, nargs, coll, pg, db, now)
    case Convert(fn, coll) => forall v: Value, vs: seq<Value> {:trigger pg.cast(fn, coll, [v] + vs)} :: pg.cast(fn, coll, [v] + vs) == v
    case Collect(agg, aggoid, distinct, coll) =>
      forall rows: seq<seq<Value>> :: pg.aggregate(agg, aggoid, coll, distinct, rows) == db.aggregate(agg, distinct, rows)
    case Negative => forall r: real :: db.sign(OpSub, RealV(r)) == RealV(-r)
    case Temporal(kind) => db.castTo(kind, NullV) == NullV && forall s: string :: db.castTo(kind, StringV(s)) == MomentV(kind, s)
    case Lasting(iv) => DurationsValue(MeantPieces(iv), db) == SpanV(iv.(seen := true))
  }

  ghost predicate Agree(prims: set<Primitive>, pg: PgSemantics, db: Db2Semantics, now: string) {
    forall p | p in prims :: PrimAgrees(p, pg, db, now)
  }

  /** Agreement under the given collations only. */
  ghost predicate AgreeUnder(prims: set<Primitive>, colls: set<Oid>, pg: PgSemantics, db: Db2Semantics, now: string) {
    forall p | p in prims && FromColumn(CollationOf(p), colls) :: PrimAgrees(p, pg, db, now)
  }

  // ----- which collations occur

  /** The collations of all foreign columns in the expression. */
  function Columns(e: Expr, g: Glob): set<Oid>
    decreases e
  {
    match e
    case Var(varno, _, levelsup, _, coll) => if varno in g.relids && levelsup == 0 then {coll} else {}
    case BinaryOp(_, _, l, r, _, _, _) => Columns(l, g) + Columns(r, g)
    case UnaryOp(_, _, a, _, _, _) => Columns(a, g)
    case DistinctExpr(_, _, l, r, _, _) => Columns(l, g) + Columns(r, g)
    case ScalarArrayOp(_, _, _, l, arr, _) => Columns(l, g) + Columns(arr, g)
    case NotExpr(a) => Columns(a, g)
    case AndOrExpr(_, first, rest) => Columns(first, g) + ColumnsOfAll(rest, g)
    case NullTest(a, _, _) => Columns(a, g)
    case RelabelType(a, _, _) => Columns(a, g)
    case ArrayCoerceExpr(a, _, _, _) => Columns(a, g)
    case CaseExpr(_, _, casearg, whens, def) => ColumnsOfOption(casearg, g) + ColumnsOfWhens(whens, g) + ColumnsOfOption(def, g)
    case ArrayExpr(es, _, _) => ColumnsOfAll(es, g)
    case FuncExpr(_, args, _, _, _) => ColumnsOfAll(args, g)
    case ImplicitCast(_, first, rest, _, _, _) => Columns(first, g) + ColumnsOfAll(rest, g)
    case SubscriptingRef(_, upper, lower, a, _, _) => ColumnsOfAll(upper, g) + ColumnsOfAll(lower, g) + Columns(a, g)
    case Aggref(_, _, _, _, _, args, filter, _, _, _) => ColumnsOfAll(args, g) + ColumnsOfOption(filter, g)
    case _ => {}
  }

  function ColumnsOfAll(es: seq<Expr>, g: Glob): set<Oid>
    decreases es
  {
    if es == [] then {} else Columns(es[0], g) + ColumnsOfAll(es[1..], g)
  }

  function ColumnsOfOption(e: Option<Expr>, g: Glob): set<Oid>
    decreases e
  {
    if e.Some? then Columns(e.value, g) else {}
  }

  function ColumnsOfWhen(w: CaseWhen, g: Glob): set<Oid>
    decreases w
  {
    Columns(w.cond, g) + Columns(w.result, g)
  }

  function ColumnsOfWhens(ws: seq<CaseWhen>, g: Glob): set<Oid>
    decreases ws
  {
    if ws == [] then {} else ColumnsOfWhen(ws[0], g) + ColumnsOfWhens(ws[1..], g)
  }

  /** The collations that reach a value are among them. */
  lemma {:induction false} SourcesAreColumns(e: Expr, g: Glob, arg: set<Oid>)
    ensures Sources(e, g, arg) <= Columns(e, g) + arg
    decreases e, 1
  {
    if e.BinaryOp? || e.DistinctExpr? {
      SourcesAreColumns(e.left, g, arg);
      SourcesAreColumns(e.right, g, arg);
    } else if e.UnaryOp? || e.RelabelType? || e.ArrayCoerceExpr? || e.SubscriptingRef? {
      SourcesAreColumns(e.arg, g, arg);
    } else if e.CaseExpr? {
      WhenSourcesAreColumns(e.whens, g, arg);
      if e.def.Some? {
        SourcesAreColumns(e.def.value, g, arg);
      }
    } else if e.ArrayExpr? {
      AllSourcesAreColumns(e.elements, g, arg);
    } else if e.FuncExpr? {
      AllSourcesAreColumns(e.args, g, arg);
    } else if e.ImplicitCast? {
      SourcesAreColumns(e.first, g, arg);
      AllSourcesAreColumns(e.rest, g, arg);
    } else if e.Aggref? {
      AllSourcesAreColumns(e.args, g, arg);
      if e.filter.Some? {
        SourcesAreColumns(e.filter.value, g, arg);
      }
    }
  }

  lemma {:induction false} AllSourcesAreColumns(es: seq<Expr>, g: Glob, arg: set<Oid>)
    ensures SourcesOfAll(es, g, arg) <= ColumnsOfAll(es, g) + arg
    decreases es
  {
    if es != [] {
      SourcesAreColumns(es[0], g, arg);
      AllSourcesAreColumns(es[1..], g, arg);
    }
  }

  lemma {:induction false} WhenSourcesAreColumns(ws: seq<CaseWhen>, g: Glob, arg: set<Oid>)
    ensures SourcesOfWhens(ws, g, arg) <= ColumnsOfWhens(ws, g) + arg
    decreases ws
  {
    if ws != [] {
      ResultSourcesAreColumns(ws[0], g, arg);
      WhenSourcesAreColumns(ws[1..], g, arg);
    }
  }

  lemma {:induction false} ResultSourcesAreColumns(w: CaseWhen, g: Glob, arg: set<Oid>)
    ensures SourcesOfWhen(w, g, arg) <= ColumnsOfWhen(w, g) + arg
    decreases w
  {
    SourcesAreColumns(w.result, g, arg);
  }

  /** All primitives work under collations of the set, or under none. */
  ghost predicate Covered(prims: set<Primitive>, colls: set<Oid>) {
    forall p | p in prims :: FromColumn(CollationOf(p), colls)
  }

  lemma {:induction false} DatumsAreCovered(ds: seq<Datum>, t: PgType, colls: set<Oid>)
    ensures Covered(DatumsPrims(ds, t), colls)
  {
    if ds != [] {
      DatumsAreCovered(ds[1..], t, colls);
    }
  }

  /** Where every input collation derives from a foreign column, no primitive works under another collation. */
  lemma {:induction false} PrimsAreCovered(e: Expr, g: Glob, arg: set<Oid>, colls: set<Oid>)
    requires InputsDerive(e, g, arg) && Columns(e, g) + arg <= colls
    ensures Covered(Prims(e), colls)
    decreases e, 1
  {
    SourcesAreColumns(e, g, arg);
    if e.BinaryOp? || e.DistinctExpr? || e.ScalarArrayOp? {
      OperandsAreCovered(e, g, arg, colls);
    } else if e.UnaryOp? || e.NotExpr? || e.NullTest? || e.RelabelType? {
      PrimsAreCovered(e.arg, g, arg, colls);
    } else if e.AndOrExpr? {
      PrimsAreCovered(e.first, g, arg, colls);
      AllAreCovered(e.rest, g, arg, colls);
    } else if e.CaseExpr? {
      if e.casearg.Some? {
        SourcesAreColumns(e.casearg.value, g, arg);
      }
      WhensAreCovered(e.whens, g, arg, SourcesOfOption(e.casearg, g, arg), colls);
      if e.def.Some? {
        PrimsAreCovered(e.def.value, g, arg, colls);
      }
    } else if e.FuncExpr? || e.Aggref? {
      AllAreCovered(e.args, g, arg, colls);
    } else if e.ImplicitCast? {
      PrimsAreCovered(e.first, g, arg, colls);
    }
  }

  lemma {:induction false} OperandsAreCovered(e: Expr, g: Glob, arg: set<Oid>, colls: set<Oid>)
    requires e.BinaryOp? || e.DistinctExpr? || e.ScalarArrayOp?
    requires InputsDerive(e, g, arg) && Columns(e, g) + arg <= colls
    ensures Covered(Prims(e), colls)
    decreases e, 0
  {
    SourcesAreColumns(e.left, g, arg);
    PrimsAreCovered(e.left, g, arg, colls);
    if e.ScalarArrayOp? {
      SourcesAreColumns(e.arr, g, arg);
      ArrayIsCovered(e.op.left, e.arr, g, arg, colls);
    } else {
      SourcesAreColumns(e.right, g, arg);
      PrimsAreCovered(e.right, g, arg, colls);
    }
  }

  lemma {:induction false} AllAreCovered(es: seq<Expr>, g: Glob, arg: set<Oid>, colls: set<Oid>)
    requires AllInputsDerive(es, g, arg) && ColumnsOfAll(es, g) + arg <= colls
    ensures Covered(AllPrims(es), colls)
    decreases es
  {
    if es != [] {
      PrimsAreCovered(es[0], g, arg, colls);
      AllAreCovered(es[1..], g, arg, colls);
    }
  }

  lemma {:induction false} ArrayIsCovered(elem: PgType, arr: Expr, g: Glob, arg: set<Oid>, colls: set<Oid>)
    requires InputsDerive(arr, g, arg) && Columns(arr, g) + arg <= colls
    ensures Covered(ArrayPrims(elem, arr), colls)
    decreases arr, 0
  {
    if arr.Const? && arr.datum.Elements? {
      DatumsAreCovered(arr.datum.items, elem, colls);
    } else if arr.ArrayExpr? {
      AllAreCovered(arr.elements, g, arg, colls);
    } else if arr.ArrayCoerceExpr? && arr.arg.ArrayExpr? {
      assert InputsDerive(arr.arg, g, arg) && Columns(arr.arg, g) <= Columns(arr, g);
      AllAreCovered(arr.arg.elements, g, arg, colls);
    }
  }

  lemma {:induction false} WhensAreCovered(ws: seq<CaseWhen>, g: Glob, arg: set<Oid>, inner: set<Oid>, colls: set<Oid>)
    requires WhensInputsDerive(ws, g, arg, inner) && ColumnsOfWhens(ws, g) + arg + inner <= colls
    ensures Covered(WhensPrims(ws), colls)
    decreases ws
  {
    if ws != [] {
      WhenIsCovered(ws[0], g, arg, inner, colls);
      WhensAreCovered(ws[1..], g, arg, inner, colls);
    }
  }

  lemma {:induction false} WhenIsCovered(w: CaseWhen, g: Glob, arg: set<Oid>, inner: set<Oid>, colls: set<Oid>)
    requires WhenInputsDerive(w, g, arg, inner) && ColumnsOfWhen(w, g) + arg + inner <= colls
    ensures Covered(WhenPrims(w), colls)
    decreases w
  {
    PrimsAreCovered(w.cond, g, inner, colls);
    PrimsAreCovered(w.result, g, arg, colls);
  }

  /** An accepted expression works under no collation but those of its foreign columns. So agreement under these is
      agreement on the whole expression. */
  lemma AcceptedIsCovered(e: Expr, g: Glob, mutable: bool)
    requires IsForeignExpr(e, g, mutable)
    ensures Covered(Prims(e), Columns(e, g))
  {
    WalkIsSound(e, g, None, {});
    PrimsAreCovered(e, g, {}, Columns(e, g));
  }
}
