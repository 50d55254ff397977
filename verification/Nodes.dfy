/** The PostgreSQL expression nodes that `foreign_expr_walker` and the `deparse*` family inspect,
    with the catalog facts both of them look up carried inside the nodes. */
module Nodes {

  type Oid = nat

  const INVALID_OID: Oid := 0
  const DEFAULT_COLLATION_OID: Oid := 100
  const FIRST_GENBKI_OBJECT_ID: Oid := 10000

  datatype Option<+T> = None | Some(value: T) {
    predicate IsFailure() {
      None?
    }

    function PropagateFailure<U>(): Option<U>
      requires None?
    {
      None
    }

    function Extract(): T
      requires Some?
    {
      value
    }
  }

  datatype PgType =
    | TextType | Char | BpChar | VarChar | Name
    | Int8 | Int2 | Int4 | ObjectId | Float4 | Float8 | Numeric
    | Date | Time | Timestamp | TimestampTz | Interval
    | Bool
    | OtherType(oid: Oid)

  /** The types the macro `canHandleType` accepts. */
  predicate CanHandleType(t: PgType) {
    !t.Bool? && !t.OtherType?
  }

  predicate IsTextLike(t: PgType) {
    t.TextType? || t.Char? || t.BpChar? || t.VarChar? || t.Name?
  }

  predicate IsNumberLike(t: PgType) {
    t.Int8? || t.Int2? || t.Int4? || t.ObjectId? || t.Float4? || t.Float8? || t.Numeric?
  }

  /** Every type with a constructor of its own is built in. */
  function TypeOid(t: PgType): Oid {
    match t
    case OtherType(oid) => oid
    case _ => 1
  }

  /** Binary operator names the translation knows: `>` `<` `>=` `<=` `=` `<>` `+` `-` `*`, the four
      LIKE operators `~~` `!~~` `~~*` `!~~*`, and `^` `%` `&`. */
  datatype BinName =
    | Gt | Lt | Ge | Le | Eq | Ne | Add | Sub | Mul
    | Like | NotLike | ILike | NotILike
    | Pow | Mod | BitAnd
    | OtherBin(name: string)

  /** Prefix operator names: `-` `+` `|/` `@`. */
  datatype UnName = Minus | Plus | SqrtOp | AbsOp | OtherUn(name: string)

  /** A row of pg_operator (the name is in the node, since prefix and infix operators differ). */
  datatype Operator = Operator(oid: Oid, left: PgType, right: PgType, inPgCatalog: bool)

  /** Functions whose DB2 name is their own. */
  datatype PlainFn =
    | Abs | Acos | Asin | Atan | Atan2 | Ceil | Concat | Cos | Exp | InitCap | Length | Lower | LPad
    | LTrim | ModFn | Power | Replace | Round | RPad | RTrim | Sign | Sin | Sqrt | Substr | Tan
    | ToChar | ToDate | ToNumber | ToTimestamp | Trunc | Upper

  datatype FnName =
    | Plain(fn: PlainFn)
    | Ceiling | CharLength | CharacterLength | PowFn | OctetLength | Position | StrPos | Substring
    | Translate | DatePart | Now | TransactionTimestamp
    | OtherFn(name: string)

  /** A row of pg_proc. */
  datatype Function = Function(oid: Oid, name: FnName, inPgCatalog: bool)

  datatype AggName = Count | Sum | Avg | Min | Max | OtherAgg(name: string)

  /** An interval as PostgreSQL breaks it down, with its fraction of a second in microseconds, which the deparser only looks
      at (`seen`) before PostgreSQL 15. */
  datatype Interval = TimeSpan(
    years: int, months: int, days: int, hours: int, minutes: int, seconds: int, fraction: int, seen: bool)

  /** A constant's value. Numbers are reals; `Special` is a number whose text is a name, `NaN` or
      `Infinity`, possibly negative; the text of a date or time is what `deparseDate` and
      `deparseTimestamp` produce. `Unrendered` is a value of a type that `datumToString` does not know. */
  datatype Datum =
    | NullDatum
    | Number(r: real)
    | Special(negative: bool, name: string)
    | Chars(s: string)
    | Moment(text: string)
    | Elements(items: seq<Datum>)
    | Span(iv: Interval)
    | Unrendered

  datatype CaseWhen = CaseWhen(cond: Expr, result: Expr)

  datatype Expr =
    | Var(varno: nat, attno: int, levelsup: nat, vtype: PgType, vcoll: Oid)
    | Const(ctype: PgType, ccoll: Oid, datum: Datum)
    | Param(multi: bool, id: nat, ptype: PgType, pcoll: Oid)
    | BinaryOp(bname: BinName, op: Operator, left: Expr, right: Expr, rtype: PgType, rcoll: Oid, inputcoll: Oid)
    | UnaryOp(uname: UnName, op: Operator, arg: Expr, rtype: PgType, rcoll: Oid, inputcoll: Oid)
    | DistinctExpr(dname: BinName, op: Operator, left: Expr, right: Expr, rcoll: Oid, inputcoll: Oid)
    | ScalarArrayOp(sname: BinName, op: Operator, useOr: bool, left: Expr, arr: Expr, inputcoll: Oid)
    | NotExpr(arg: Expr)
    | AndOrExpr(isAnd: bool, first: Expr, rest: seq<Expr>)
    | NullTest(arg: Expr, isNull: bool, plainForm: bool)
    | RelabelType(arg: Expr, rtype: PgType, rcoll: Oid)
    | ArrayCoerceExpr(arg: Expr, binaryOnly: bool, rtype: PgType, rcoll: Oid)
    | CaseExpr(casetype: PgType, rcoll: Oid, casearg: Option<Expr>, whens: seq<CaseWhen>, def: Option<Expr>)
    | CaseTestExpr(ttype: PgType, tcoll: Oid)
    | ArrayExpr(elements: seq<Expr>, rtype: PgType, rcoll: Oid)
    | FuncExpr(fn: Function, args: seq<Expr>, rtype: PgType, rcoll: Oid, inputcoll: Oid)
    | ImplicitCast(fn: Function, first: Expr, rest: seq<Expr>, rtype: PgType, rcoll: Oid, inputcoll: Oid)
    | SubscriptingRef(assigns: bool, upper: seq<Expr>, lower: seq<Expr>, arg: Expr, rtype: PgType, rcoll: Oid)
    | Aggref(agg: AggName, aggoid: Oid, simple: bool, distinct: bool, star: bool, args: seq<Expr>,
             filter: Option<Expr>, rtype: PgType, rcoll: Oid, inputcoll: Oid)
    | OtherExpr(otype: PgType)

  /** `exprType`. */
  function ExprType(e: Expr): PgType {
    match e
    case Var(_, _, _, t, _) => t
    case Const(t, _, _) => t
    case Param(_, _, t, _) => t
    case BinaryOp(_, _, _, _, t, _, _) => t
    case UnaryOp(_, _, _, t, _, _) => t
    case RelabelType(_, t, _) => t
    case ArrayCoerceExpr(_, _, t, _) => t
    case CaseExpr(t, _, _, _, _) => t
    case CaseTestExpr(t, _) => t
    case ArrayExpr(_, t, _) => t
    case FuncExpr(_, _, t, _, _) => t
    case ImplicitCast(_, _, _, t, _, _) => t
    case SubscriptingRef(_, _, _, _, t, _) => t
    case Aggref(_, _, _, _, _, _, _, t, _, _) => t
    case OtherExpr(t) => t
    case _ => PgType.Bool
  }

  /** The relations of the underlying scan, the remote name of each of their columns, and their local table
      OIDs. */
  datatype Scan = Scan(relids: set<nat>, colName: (nat, int) -> string, tableOid: nat -> Oid)

  /** A Var of a relation that the scan covers; any other Var is a value to be sent. */
  predicate IsForeignVar(e: Expr, scan: Scan)
    requires e.Var?
  {
    e.varno in scan.relids && e.levelsup == 0
  }
}
