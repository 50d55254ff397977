/** What the `deparse*` functions print. `Text` is the text of an expression once the parameter list
    is complete, `Params` is the list an expression leaves behind, `Printable` says whether anything
    is printed, and `Tr` is the remote expression that is meant, whatever the text says. */
module Deparse {
  import opened Nodes
  import opened RemoteSql

  // ----- translatability tests shared by the walker and the deparser

  predicate IsDateOrTimestamp(t: PgType) {
    t.Date? || t.Timestamp? || t.TimestampTz?
  }

  /** `isTranslatableOpExpr` for an infix operator. */
  predicate TranslatableBinary(name: BinName, op: Operator) {
    && !(op.left.Interval? && op.right.Interval?)
    && CanHandleType(op.right)
    && !name.OtherBin?
    && (name.Sub? ==> !IsDateOrTimestamp(op.right))
  }

  /** `isTranslatableOpExpr` for a prefix operator, whose left argument type is invalid. */
  predicate TranslatableUnary(name: UnName, op: Operator) {
    && CanHandleType(op.right)
    && !name.OtherUn?
    && (name.Minus? ==> !IsDateOrTimestamp(op.right))
  }

  /** `isTranslatableNormalFunction`. */
  predicate TranslatableNormalFunction(name: FnName, nargs: nat) {
    match name
    case Plain(_) => true
    case Substring => nargs == 3
    case Translate => false
    case DatePart => false
    case Now => false
    case TransactionTimestamp => false
    case OtherFn(_) => false
    case _ => true
  }

  predicate IsExtractField(s: string) {
    || s == "year" || s == "month" || s == "day" || s == "hour" || s == "minute" || s == "second"
    || s == "timezone_hour" || s == "timezone_minute"
  }

  /** `isTranslatableDatePart`. */
  predicate TranslatableDatePart(args: seq<Expr>) {
    && |args| == 2 && args[0].Const? && args[0].ctype.TextType?
    && args[0].datum.Chars? && IsExtractField(args[0].datum.s)
  }

  /** `isTranslatableFuncExpr` when the call is not an implicit cast. */
  predicate TranslatableFunction(fn: Function, args: seq<Expr>, rtype: PgType) {
    && CanHandleType(rtype) && fn.inPgCatalog
    && (|| TranslatableNormalFunction(fn.name, |args|)
        || (fn.name.Translate? && |args| == 3)
        || (fn.name.DatePart? && TranslatableDatePart(args))
        || ((fn.name.Now? || fn.name.TransactionTimestamp?) && args == []))
  }

  /** The only array comparisons printed are IN and NOT IN. */
  predicate IsInOrNotIn(name: BinName, useOr: bool) {
    (name.Eq? && useOr) || (name.Ne? && !useOr)
  }

  // ----- constants

  function CastTokens(s: string, t: SqlType): seq<Token> {
    [LP, Kw(CAST), LP, Str(s), Kw(AS), Ty(t), RP, RP]
  }

  function NumberTokens(r: real): seq<Token> {
    if r < 0.0 then [Op(OpSub), Num(-r)] else [Num(r)]
  }

  /** A number without digits is printed as its name, like a column. */
  function SpecialTokens(negative: bool, name: string): seq<Token> {
    if negative then [Op(OpSub), Ident(None, name)] else [Ident(None, name)]
  }

  /** A part of an interval: a number, its unit, and the sign in front of it, if any. */
  datatype Piece = Piece(sign: Option<SqlOp>, count: int, unit: TimeUnit)

  /** The positive parts. Only a part that follows parts with a positive sum gets a sign. */
  function Pieces(parts: seq<(int, TimeUnit)>, sum: int, sign: SqlOp): seq<Piece> {
    if parts == [] then []
    else
      var (n, unit) := parts[0];
      (if n > 0 then [Piece(if sum > 0 then Some(sign) else None, n, unit)] else []) + Pieces(parts[1..], sum + n, sign)
  }

  /** The fraction that the deparser sees. */
  function SeenFraction(iv: Interval): int {
    if iv.seen then iv.fraction else 0
  }

  predicate IsNegative(iv: Interval) {
    iv.days < 0 || iv.hours < 0 || iv.minutes < 0 || iv.seconds < 0 || SeenFraction(iv) < 0
  }

  /** The parts as they are printed: from the days on without their common sign. Years and months keep theirs. */
  function IntervalParts(iv: Interval): seq<(int, TimeUnit)> {
    var s := if IsNegative(iv) then -1 else 1;
    [(iv.years, YEAR), (iv.months, MONTH), (s * iv.days, DAY), (s * iv.hours, HOUR), (s * iv.minutes, MINUTE), (s * iv.seconds, SECOND)]
  }

  /** `deparseInterval`: all signs from the days on must be the same. */
  function IntervalPieces(iv: Interval): Option<seq<Piece>> {
    if IsNegative(iv) && (iv.days > 0 || iv.hours > 0 || iv.minutes > 0 || iv.seconds > 0 || SeenFraction(iv) > 0) then None
    else Some(Pieces(IntervalParts(iv), 0, if IsNegative(iv) then OpSub else OpAdd))
  }

  function PieceText(ps: seq<Piece>): seq<Token> {
    if ps == [] then []
    else (if ps[0].sign.Some? then [Op(ps[0].sign.value)] else []) + [Dur(ps[0].count, ps[0].unit)] + PieceText(ps[1..])
  }

  /** `datumToString`: none when the value cannot be rendered. */
  function DatumText(d: Datum, t: PgType): Option<seq<Token>> {
    if IsTextLike(t) && d.Chars? && d.s != "" then Some([Str(d.s)])
    else if IsNumberLike(t) && d.Number? then Some(NumberTokens(d.r))
    else if IsNumberLike(t) && d.Special? then Some(SpecialTokens(d.negative, d.name))
    else if t.Date? && d.Moment? then Some(CastTokens(d.text, DateType))
    else if (t.Timestamp? || t.TimestampTz?) && d.Moment? then Some(CastTokens(d.text, TimestampType))
    else if t.Time? && d.Moment? then Some(CastTokens(d.text, TimeType))
    else if t.Interval? && d.Span? && IntervalPieces(d.iv).Some? then Some(PieceText(IntervalPieces(d.iv).value))
    else None
  }

  /** `deparseConstExpr`. */
  function ConstText(t: PgType, d: Datum): seq<Token> {
    if d.NullDatum? then
      if CanHandleType(t) then [Kw(NULL)] else []
    else
      var r := DatumText(d, t);
      if r.Some? then r.value else []
  }

  /** An array element: NULL, or the rendered value. */
  function ElementText(d: Datum, t: PgType): Option<seq<Token>> {
    if d.NullDatum? then Some([Kw(NULL)]) else DatumText(d, t)
  }

  predicate ElementsRendered(ds: seq<Datum>, t: PgType) {
    ds == [] || (ElementText(ds[0], t).Some? && ElementsRendered(ds[1..], t))
  }

  function ElementsTail(ds: seq<Datum>, t: PgType): seq<Token>
    requires ElementsRendered(ds, t)
  {
    if ds == [] then [] else [Comma] + ElementText(ds[0], t).value + ElementsTail(ds[1..], t)
  }

  // ----- whether anything is printed

  /** True when deparsing the expression leaves text in the buffer. */
  predicate Printable(e: Expr)
    decreases e
  {
    match e
    case Var(_, _, _, _, _) => true
    case Const(t, _, d) => ConstText(t, d) != []
    case Param(_, _, t, _) => CanHandleType(t) && !t.Interval?
    case BinaryOp(name, op, l, r, _, _, _) =>
      op.inPgCatalog && TranslatableBinary(name, op) && Printable(l) && Printable(r)
    case UnaryOp(name, op, a, _, _, _) => op.inPgCatalog && TranslatableUnary(name, op) && Printable(a)
    case DistinctExpr(_, op, l, r, _, _) => CanHandleType(op.right) && Printable(l) && Printable(r)
    case ScalarArrayOp(name, op, useOr, l, arr, _) =>
      ArrayOpTried(name, op, useOr) && Printable(l) && ArrayPrintable(op.left, arr)
    case NotExpr(a) => Printable(a)
    case AndOrExpr(_, first, rest) => Printable(first) && AllPrintable(rest)
    case NullTest(_, _, _) => true
    case RelabelType(a, _, _) => Printable(a)
    case CaseExpr(t, _, casearg, whens, def) =>
      && CanHandleType(t) && (casearg.Some? ==> !Printable(casearg.value))
      && WhensPrintable(whens, casearg.Some?) && (def.Some? ==> Printable(def.value))
    case FuncExpr(fn, args, t, _, _) => TranslatableFunction(fn, args, t) && AllPrintable(args)
    case ImplicitCast(_, first, _, t, _, _) => CanHandleType(t) && Printable(first)
    case Aggref(agg, _, _, _, star, args, _, _, _, _) => !agg.OtherAgg? && (star || AllPrintable(args))
    case _ => false
  }

  predicate AllPrintable(es: seq<Expr>)
    decreases es
  {
    es == [] || (Printable(es[0]) && AllPrintable(es[1..]))
  }

  /** In a CASE with an argument (`simple`) only the right side of each comparison is printed. */
  predicate WhensPrintable(ws: seq<CaseWhen>, simple: bool)
    decreases ws
  {
    ws == [] || (WhenPrintable(ws[0], simple) && WhensPrintable(ws[1..], simple))
  }

  predicate WhenPrintable(w: CaseWhen, simple: bool)
    decreases w
  {
    (if simple then w.cond.BinaryOp? && Printable(w.cond.right) else Printable(w.cond)) && Printable(w.result)
  }

  /** The tests `deparseScalarArrayOpExpr` makes before it looks at the operands. */
  predicate ArrayOpTried(name: BinName, op: Operator, useOr: bool) {
    op.inPgCatalog && IsInOrNotIn(name, useOr) && CanHandleType(op.left)
  }

  /** True when the array operand of `= ANY` or `<> ALL` yields a list of items. */
  predicate ArrayPrintable(elem: PgType, arr: Expr)
    decreases arr
  {
    match arr
    case Const(_, _, d) => d.NullDatum? || (d.Elements? && d.items != [] && ElementsRendered(d.items, elem))
    case ArrayExpr(es, _, _) => es != [] && AllPrintable(es)
    case ArrayCoerceExpr(a, binaryOnly, _, _) => binaryOnly && a.ArrayExpr? && a.elements != [] && AllPrintable(a.elements)
    case _ => false
  }

  // ----- the parameter list

  /** A node that is sent as a parameter, which is looked up in the list and appended if missing. */
  function AddParam(e: Expr, ps: seq<Expr>): seq<Expr> {
    if e in ps then ps else ps + [e]
  }

  /** 1-based position of the first entry equal to the node. */
  function ParamIndex(e: Expr, ps: seq<Expr>): nat {
    if ps == [] || ps[0] == e then 1 else 1 + ParamIndex(e, ps[1..])
  }

  ghost predicate NoDuplicates(ps: seq<Expr>) {
    forall i, j :: 0 <= i < j < |ps| ==> ps[i] != ps[j]
  }

  /** The list only grows at its end, and gets no second copy of a parameter. */
  ghost predicate Grows(ps: seq<Expr>, qs: seq<Expr>) {
    ps <= qs && (NoDuplicates(ps) ==> NoDuplicates(qs))
  }

  /** The parameter list after deparsing the expression, starting from ps. A child that cannot be
      printed stops its parent, but what it added to the list stays. */
  function Params(e: Expr, scan: Scan, ps: seq<Expr>): (qs: seq<Expr>)
    ensures Grows(ps, qs)
    decreases e
  {
    match e
    case Var(_, _, _, _, _) => if IsForeignVar(e, scan) then ps else AddParam(e, ps)
    case Param(_, _, _, _) => if Printable(e) then AddParam(e, ps) else ps
    case BinaryOp(name, op, l, r, _, _, _) =>
      if op.inPgCatalog && TranslatableBinary(name, op) then
        var qs := Params(l, scan, ps);
        if Printable(l) then Params(r, scan, qs) else qs
      else ps
    case UnaryOp(name, op, a, _, _, _) =>
      if op.inPgCatalog && TranslatableUnary(name, op) then Params(a, scan, ps) else ps
    case DistinctExpr(_, op, l, r, _, _) =>
      if CanHandleType(op.right) then
        var qs := Params(l, scan, ps);
        if Printable(l) then Params(r, scan, qs) else qs
      else ps
    case ScalarArrayOp(name, op, useOr, l, arr, _) =>
      if ArrayOpTried(name, op, useOr) then
        var qs := Params(l, scan, ps);
        if Printable(l) then ParamsOfArray(arr, scan, qs) else qs
      else ps
    case NotExpr(a) => Params(a, scan, ps)
    case AndOrExpr(_, first, rest) =>
      var qs := Params(first, scan, ps);
      if Printable(first) then ParamsOfList(rest, scan, qs) else qs
    case NullTest(a, _, _) => Params(a, scan, ps)
    case RelabelType(a, _, _) => Params(a, scan, ps)
    case CaseExpr(t, _, casearg, whens, def) =>
      if !CanHandleType(t) then ps
      else
        var start := if casearg.Some? then Params(casearg.value, scan, ps) else ps;
        if casearg.Some? && Printable(casearg.value) then start
        else
          var qs := ParamsOfWhens(whens, casearg.Some?, scan, start);
          if WhensPrintable(whens, casearg.Some?) && def.Some? then Params(def.value, scan, qs) else qs
    case FuncExpr(fn, args, t, _, _) =>
      if !TranslatableFunction(fn, args, t) then ps
      else if fn.name.Translate? then ParamsOfThree(args, scan, ps)
      else ParamsOfList(args, scan, ps)
    case ImplicitCast(_, first, _, t, _, _) => if CanHandleType(t) then Params(first, scan, ps) else ps
    case Aggref(agg, _, _, _, star, args, _, _, _, _) =>
      if agg.OtherAgg? || star then ps else ParamsOfList(args, scan, ps)
    case _ => ps
  }

  function ParamsOfWhen(w: CaseWhen, simple: bool, scan: Scan, ps: seq<Expr>): (rs: seq<Expr>)
    ensures Grows(ps, rs)
    decreases w
  {
    if simple then
      if w.cond.BinaryOp? then
        var qs := Params(w.cond.right, scan, ps);
        if Printable(w.cond.right) then Params(w.result, scan, qs) else qs
      else ps
    else
      var qs := Params(w.cond, scan, ps);
      if Printable(w.cond) then Params(w.result, scan, qs) else qs
  }

  function ParamsOfList(es: seq<Expr>, scan: Scan, ps: seq<Expr>): (rs: seq<Expr>)
    ensures Grows(ps, rs)
    decreases es
  {
    if es == [] then ps
    else
      var qs := Params(es[0], scan, ps);
      if Printable(es[0]) then ParamsOfList(es[1..], scan, qs) else qs
  }

  /** All arguments of TRANSLATE are deparsed before the first one is looked at. */
  function ParamsOfThree(es: seq<Expr>, scan: Scan, ps: seq<Expr>): (rs: seq<Expr>)
    requires |es| == 3
    ensures Grows(ps, rs)
    decreases es
  {
    Params(es[2], scan, Params(es[1], scan, Params(es[0], scan, ps)))
  }

  function ParamsOfWhens(ws: seq<CaseWhen>, simple: bool, scan: Scan, ps: seq<Expr>): (rs: seq<Expr>)
    ensures Grows(ps, rs)
    decreases ws
  {
    if ws == [] then ps
    else
      var qs := ParamsOfWhen(ws[0], simple, scan, ps);
      if WhenPrintable(ws[0], simple) then ParamsOfWhens(ws[1..], simple, scan, qs) else qs
  }

  function ParamsOfArray(arr: Expr, scan: Scan, ps: seq<Expr>): (rs: seq<Expr>)
    ensures Grows(ps, rs)
    decreases arr
  {
    match arr
    case ArrayExpr(es, _, _) => ParamsOfList(es, scan, ps)
    case ArrayCoerceExpr(a, binaryOnly, _, _) =>
      if binaryOnly && a.ArrayExpr? then ParamsOfList(a.elements, scan, ps) else ps
    case _ => ps
  }

  // ----- the text

  function SqlOpOf(name: BinName): SqlOp {
    match name
    case Gt => OpGt
    case Lt => OpLt
    case Ge => OpGe
    case Le => OpLe
    case Ne => OpNe
    case Add => OpAdd
    case Sub => OpSub
    case Mul => OpMul
    case _ => OpEq
  }

  /** The DB2 name of a function printed with ordinary call syntax. */
  function RemoteFn(name: FnName): SqlFn {
    match name
    case Plain(fn) => F(fn)
    case Ceiling => F(Ceil)
    case CharLength => F(Length)
    case CharacterLength => F(Length)
    case PowFn => F(Power)
    case OctetLength => LengthB
    case Position => InStr
    case StrPos => InStr
    case _ => F(Substr)
  }

  function UpperText(a: seq<Token>): seq<Token> {
    [Fn(F(Upper)), LP] + a + [RP]
  }

  function LikeText(negated: bool, l: seq<Token>, r: seq<Token>): seq<Token> {
    if negated then
      [LP] + l + [Kw(NOT), Kw(LIKE)] + r + [Kw(ESCAPE), Str("\\"), RP]
    else
      [LP] + l + [Kw(LIKE)] + r + [Kw(ESCAPE), Str("\\"), RP]
  }

  /** An infix operator between two printed operands. */
  function BinaryText(name: BinName, l: seq<Token>, r: seq<Token>): seq<Token> {
    match name
    case Like => LikeText(false, l, r)
    case NotLike => LikeText(true, l, r)
    case ILike => LikeText(false, UpperText(l), UpperText(r))
    case NotILike => LikeText(true, UpperText(l), UpperText(r))
    case Pow => [Fn(F(Power)), LP] + l + [Comma] + r + [RP]
    case Mod => [Fn(F(ModFn)), LP] + l + [Comma] + r + [RP]
    case BitAnd => [Fn(BitAndFn), LP] + l + [Comma] + r + [RP]
    case _ => [LP] + l + [Op(SqlOpOf(name))] + r + [RP]
  }

  /** A sign is printed without a blank before its operand, so two minus signs open a comment. */
  function Glue(op: SqlOp, a: seq<Token>): seq<Token> {
    if op == OpSub && a != [] && a[0] == Op(OpSub) then [Comment] + a[1..] else [Op(op)] + a
  }

  function UnaryText(name: UnName, a: seq<Token>): seq<Token> {
    match name
    case SqrtOp => [Fn(F(Sqrt)), LP] + a + [RP]
    case AbsOp => [Fn(F(Abs)), LP] + a + [RP]
    case Minus => [LP] + Glue(OpSub, a) + [RP]
    case _ => [LP] + Glue(OpAdd, a) + [RP]
  }

  const CTID: int := -1
  const TABLE_OID: int := -6

  /** The number that stands for a system column. */
  function SystemValue(varno: nat, attno: int, scan: Scan): nat {
    if attno == TABLE_OID then scan.tableOid(varno) else 0
  }

  function Qualifier(varno: nat, scan: Scan): Option<nat> {
    if |scan.relids| > 1 then Some(varno) else None
  }

  /** `deparseColumnRef`: names are qualified when the scan covers several relations. System columns other
      than ctid are numbers, then wrapped in a test of the whole row; whole rows are `RowText`. */
  function ColumnText(varno: nat, attno: int, scan: Scan): seq<Token> {
    if attno > 0 then [Ident(Qualifier(varno, scan), scan.colName(varno, attno))]
    else if attno == CTID then [Ident(Qualifier(varno, scan), "ctid")]
    else if attno == 0 then [RowText(varno)]
    else if Qualifier(varno, scan).None? then [Num(SystemValue(varno, attno, scan) as real)]
    else
      [Kw(CASE), Kw(WHEN), RowText(varno), Kw(IS), Kw(NOT), Kw(NULL), Kw(THEN), Num(SystemValue(varno, attno, scan) as real), Kw(END)]
  }

  function ColumnTree(varno: nat, attno: int, scan: Scan): Sql {
    if attno > 0 then Column(Qualifier(varno, scan), scan.colName(varno, attno))
    else if attno == CTID then Column(Qualifier(varno, scan), "ctid")
    else NumLit(SystemValue(varno, attno, scan) as real)
  }

  /** `appendAsType`. */
  function ParamText(t: PgType, n: nat): seq<Token> {
    match t
    case Date => [Kw(CAST), LP, Marker(n), Kw(AS), Ty(DateType), RP]
    case Timestamp => [Kw(CAST), LP, Marker(n), Kw(AS), Ty(TimestampType), RP]
    case TimestampTz => [Kw(CAST), LP, Marker(n), Kw(AS), Ty(TimestampType), RP]
    case Time => [LP, Kw(CAST), LP, Marker(n), Kw(AS), Ty(TimeType), RP, RP]
    case _ => [Marker(n)]
  }

  const NOW_TEXT: seq<Token> := [LP, Kw(CAST), LP, NowMarker, Kw(AS), Ty(TimestampType), RP, RP]

  /** The text printed for the expression when the finished parameter list is ps. */
  function Text(e: Expr, scan: Scan, ps: seq<Expr>): seq<Token>
    decreases e
  {
    if !Printable(e) then [] else
    match e
    case Var(varno, attno, _, _, _) =>
      if IsForeignVar(e, scan) then ColumnText(varno, attno, scan) else [Named(ParamIndex(e, ps))]
    case Const(t, _, d) => ConstText(t, d)
    case Param(_, _, t, _) => ParamText(t, ParamIndex(e, ps))
    case BinaryOp(name, _, l, r, _, _, _) => BinaryText(name, Text(l, scan, ps), Text(r, scan, ps))
    case UnaryOp(name, _, a, _, _, _) => UnaryText(name, Text(a, scan, ps))
    case DistinctExpr(_, _, l, r, _, _) =>
      DistinctText(Text(l, scan, ps), Text(r, scan, ps))
    case ScalarArrayOp(_, op, useOr, l, arr, _) =>
      InText(useOr, Text(l, scan, ps), ArrayText(op.left, arr, scan, ps))
    case NotExpr(a) => [LP, Kw(NOT)] + Text(a, scan, ps) + [RP]
    case AndOrExpr(isAnd, first, rest) =>
      [LP] + Text(first, scan, ps) + ListTail(rest, Kw(if isAnd then AND else OR), scan, ps) + [RP]
    case NullTest(a, isNull, plainForm) =>
      NullTestText(isNull, plainForm, Text(a, scan, ps))
    case RelabelType(a, _, _) => Text(a, scan, ps)
    case CaseExpr(_, _, casearg, whens, def) =>
      CaseText(casearg.Some?, WhensText(whens, casearg.Some?, scan, ps), if def.Some? then Some(Text(def.value, scan, ps)) else None)
    case FuncExpr(fn, args, _, _, _) => FunctionText(fn, args, scan, ps)
    case ImplicitCast(_, first, _, _, _, _) => Text(first, scan, ps)
    case Aggref(agg, _, _, distinct, star, args, _, _, _, _) =>
      AggText(agg, distinct, if star then [Op(OpMul)] else AggArgsText(args, true, scan, ps))
    case _ => []
  }

  function NullTestSuffix(isNull: bool, plainForm: bool): seq<Token> {
    if plainForm then
      if isNull then [Kw(IS), Kw(NULL), RP] else [Kw(IS), Kw(NOT), Kw(NULL), RP]
    else if isNull then
      [Kw(IS), Kw(NOT), Kw(DISTINCT), Kw(FROM), Kw(NULL), RP]
    else
      [Kw(IS), Kw(DISTINCT), Kw(FROM), Kw(NULL), RP]
  }

  function NullTestText(isNull: bool, plainForm: bool, a: seq<Token>): seq<Token> {
    [LP] + a + NullTestSuffix(isNull, plainForm)
  }

  /** The argument of a CASE is only printed when it has no text, and then as a null pointer: `(null)`. */
  function CaseHead(simple: bool): seq<Token> {
    if simple then [Kw(CASE), LP, Kw(NULL), RP] else [Kw(CASE)]
  }

  function CaseText(simple: bool, whens: seq<Token>, els: Option<seq<Token>>): seq<Token> {
    if els.Some? then CaseHead(simple) + whens + [Kw(ELSE)] + els.value + [Kw(END)] else CaseHead(simple) + whens + [Kw(END)]
  }

  function AggText(agg: AggName, distinct: bool, a: seq<Token>): seq<Token> {
    (if distinct then [AggFn(agg), LP, Kw(DISTINCT)] else [AggFn(agg), LP]) + a + [RP]
  }

  function InText(useOr: bool, l: seq<Token>, items: seq<Token>): seq<Token> {
    [LP] + l + (if useOr then [Kw(IN), LP] else [Kw(NOT), Kw(IN), LP]) + items + [RP, RP]
  }

  function DistinctText(l: seq<Token>, r: seq<Token>): seq<Token> {
    [LP] + l + [Kw(IS), Kw(DISTINCT), Kw(FROM)] + r + [RP]
  }

  /** Each expression preceded by the separator. */
  function ListTail(es: seq<Expr>, sep: Token, scan: Scan, ps: seq<Expr>): seq<Token>
    decreases es
  {
    if es == [] then [] else [sep] + Text(es[0], scan, ps) + ListTail(es[1..], sep, scan, ps)
  }

  function CommaList(es: seq<Expr>, scan: Scan, ps: seq<Expr>): seq<Token>
    decreases es, 0
  {
    if es == [] then [] else Text(es[0], scan, ps) + ListTail(es[1..], Comma, scan, ps)
  }

  /** `deparseAggref` prints its comma after every argument but the first. */
  function AggArgsText(es: seq<Expr>, first: bool, scan: Scan, ps: seq<Expr>): seq<Token>
    decreases es
  {
    if es == [] then []
    else Text(es[0], scan, ps) + (if first then [] else [Comma]) + AggArgsText(es[1..], false, scan, ps)
  }

  function WhenText(w: CaseWhen, simple: bool, scan: Scan, ps: seq<Expr>): seq<Token>
    decreases w
  {
    if simple then
      if w.cond.BinaryOp? then [Kw(WHEN)] + Text(w.cond.right, scan, ps) + [Kw(THEN)] + Text(w.result, scan, ps) else []
    else [Kw(WHEN)] + Text(w.cond, scan, ps) + [Kw(THEN)] + Text(w.result, scan, ps)
  }

  function WhensText(ws: seq<CaseWhen>, simple: bool, scan: Scan, ps: seq<Expr>): seq<Token>
    decreases ws
  {
    if ws == [] then [] else WhenText(ws[0], simple, scan, ps) + WhensText(ws[1..], simple, scan, ps)
  }

  /** The items of an array operand. */
  function ArrayText(elem: PgType, arr: Expr, scan: Scan, ps: seq<Expr>): seq<Token>
    decreases arr
  {
    if !ArrayPrintable(elem, arr) then [] else
    match arr
    case Const(_, _, d) =>
      if d.NullDatum? then [Kw(NULL)] else ElementText(d.items[0], elem).value + ElementsTail(d.items[1..], elem)
    case ArrayExpr(es, _, _) => CommaList(es, scan, ps)
    case ArrayCoerceExpr(a, _, _, _) => if a.ArrayExpr? then CommaList(a.elements, scan, ps) else []
    case _ => []
  }

  function TranslateText(source: seq<Token>, from: seq<Token>, to: seq<Token>): seq<Token> {
    [Fn(TranslateFn), LP] + source + [Comma] + to + [Comma] + from + [RP]
  }

  function ExtractText(field: string, a: seq<Token>): seq<Token> {
    [Kw(EXTRACT), LP, Field(field), Kw(FROM)] + a + [RP]
  }

  /** `deparseFuncExpr` for an explicit call. TRANSLATE takes its last two arguments in the other
      order, EXTRACT takes its field without quotes. */
  function FunctionText(fn: Function, args: seq<Expr>, scan: Scan, ps: seq<Expr>): seq<Token>
    decreases args, 1
  {
    if fn.name.Translate? then
      if |args| == 3 then
        TranslateText(Text(args[0], scan, ps), Text(args[1], scan, ps), Text(args[2], scan, ps))
      else []
    else if fn.name.DatePart? then
      if TranslatableDatePart(args) then
        ExtractText(args[0].datum.s, Text(args[1], scan, ps))
      else []
    else if fn.name.Now? || fn.name.TransactionTimestamp? then NOW_TEXT
    else [Fn(RemoteFn(fn.name)), LP] + CommaList(args, scan, ps) + [RP]
  }

  /** `appendConditions`: every condition in parentheses, joined by AND. */
  function ConditionsText(es: seq<Expr>, first: bool, scan: Scan, ps: seq<Expr>): seq<Token> {
    if es == [] then []
    else
      var text := [LP] + Text(es[0], scan, ps) + [RP] + ConditionsText(es[1..], false, scan, ps);
      if first then text else [Kw(AND)] + text
  }

  /** The parameter list after a list of conditions, printed or not. */
  function ParamsOfConditions(es: seq<Expr>, scan: Scan, ps: seq<Expr>): (qs: seq<Expr>)
    ensures Grows(ps, qs)
  {
    if es == [] then ps else ParamsOfConditions(es[1..], scan, Params(es[0], scan, ps))
  }

  // ----- the remote expression a text denotes

  function NumberTree(r: real): Sql {
    if r < 0.0 then Signed(OpSub, NumLit(-r)) else NumLit(r)
  }

  function SpecialTree(negative: bool, name: string): Sql {
    if negative then Signed(OpSub, Column(None, name)) else Column(None, name)
  }

  /** A sum that is being read: what was read so far, and the durations still to be added. */
  datatype Chain = Chain(head: Sql, rest: seq<Piece>)

  function Folded(head: Sql, rest: seq<Piece>): Sql
    decreases |rest|
  {
    if rest == [] then head
    else Folded(Infix(if rest[0].sign.Some? then rest[0].sign.value else OpAdd, head, Duration(rest[0].count, rest[0].unit)), rest[1..])
  }

  /** The first duration and those still to be added. */
  function ChainOfPieces(ps: seq<Piece>): Chain {
    if ps == [] then Chain(NullLit, []) else Chain(Duration(ps[0].count, ps[0].unit), ps[1..])
  }

  /** The durations as they are printed. */
  function ChainOfInterval(iv: Interval): Chain {
    var ps := IntervalPieces(iv);
    if ps.Some? then ChainOfPieces(ps.value) else Chain(NullLit, [])
  }

  /** The parts of an interval, with their own signs. */
  function SignedParts(iv: Interval): seq<(int, TimeUnit)> {
    [(iv.years, YEAR), (iv.months, MONTH), (iv.days, DAY), (iv.hours, HOUR), (iv.minutes, MINUTE), (iv.seconds, SECOND),
     (iv.fraction, MICROSECOND)]
  }

  /** The parts other than zero: the first with its number as it is, the others added or taken away. */
  function SignedPieces(parts: seq<(int, TimeUnit)>, started: bool): seq<Piece> {
    if parts == [] then []
    else
      var (n, unit) := parts[0];
      if n == 0 then SignedPieces(parts[1..], started)
      else
        [if !started then Piece(None, n, unit) else if n > 0 then Piece(Some(OpAdd), n, unit) else Piece(Some(OpSub), -n, unit)]
          + SignedPieces(parts[1..], true)
  }

  function MeantPieces(iv: Interval): seq<Piece> {
    SignedPieces(SignedParts(iv), false)
  }

  /** The constant that is meant. */
  function MeantDatum(d: Datum, t: PgType): Sql {
    match d
    case Special(negative, name) => if negative then Signed(OpSub, SpecialLit(name)) else SpecialLit(name)
    case Span(iv) =>
      var ps := MeantPieces(iv);
      if ps == [] then Duration(0, SECOND) else Folded(Duration(ps[0].count, ps[0].unit), ps[1..])
    case Elements(_) => NoForm
    case Unrendered => NoForm
    case _ => DatumTree(d, t)
  }

  function MeantDatums(ds: seq<Datum>, t: PgType): seq<Sql> {
    if ds == [] then [] else [MeantDatum(ds[0], t)] + MeantDatums(ds[1..], t)
  }

  /** The constant that the text denotes. */
  function DatumTree(d: Datum, t: PgType): Sql {
    match d
    case Number(r) => NumberTree(r)
    case Special(negative, name) => SpecialTree(negative, name)
    case Span(iv) => Folded(ChainOfInterval(iv).head, ChainOfInterval(iv).rest)
    case Chars(s) => StrLit(s)
    case Moment(s) => CastTo(StrLit(s), if t.Date? then DateType else if t.Time? then TimeType else TimestampType)
    case _ => NullLit
  }

  function DatumTrees(ds: seq<Datum>, t: PgType): seq<Sql> {
    if ds == [] then [] else [DatumTree(ds[0], t)] + DatumTrees(ds[1..], t)
  }

  function ParamTree(t: PgType, n: nat): Sql {
    match t
    case Date => CastTo(MarkerRef(n), DateType)
    case Timestamp => CastTo(MarkerRef(n), TimestampType)
    case TimestampTz => CastTo(MarkerRef(n), TimestampType)
    case Time => CastTo(MarkerRef(n), TimeType)
    case _ => MarkerRef(n)
  }

  function UpperOf(e: Sql): Sql {
    Call(F(Upper), [e])
  }

  function BinaryTree(name: BinName, l: Sql, r: Sql): Sql {
    match name
    case Like => LikePred(false, l, r)
    case NotLike => LikePred(true, l, r)
    case ILike => LikePred(false, UpperOf(l), UpperOf(r))
    case NotILike => LikePred(true, UpperOf(l), UpperOf(r))
    case Pow => Call(F(Power), [l, r])
    case Mod => Call(F(ModFn), [l, r])
    case BitAnd => Call(BitAndFn, [l, r])
    case _ => Infix(SqlOpOf(name), l, r)
  }

  function UnaryTree(name: UnName, a: Sql): Sql {
    match name
    case SqrtOp => Call(F(Sqrt), [a])
    case AbsOp => Call(F(Abs), [a])
    case Minus => Signed(OpSub, a)
    case _ => Signed(OpAdd, a)
  }

  function CaseTree(simple: bool, whens: seq<SqlWhen>, els: Option<Sql>): Sql {
    if simple then SimpleCase(NullLit, whens, els) else Case(whens, els)
  }

  function NullTestTree(isNull: bool, plainForm: bool, a: Sql): Sql {
    if plainForm then IsNullPred(!isNull, a) else DistinctPred(isNull, a, NullLit)
  }

  /** The remote expression that is meant: intervals with their own signs as one operand, the argument of a CASE, the
      filter of an aggregate. Parameters are numbered by the finished list. */
  function Tr(e: Expr, scan: Scan, ps: seq<Expr>): Sql
    decreases e
  {
    match e
    case Var(varno, attno, _, _, _) =>
      if IsForeignVar(e, scan) then ColumnTree(varno, attno, scan) else NamedRef(ParamIndex(e, ps))
    case Const(t, _, d) => MeantDatum(d, t)
    case Param(_, _, t, _) => ParamTree(t, ParamIndex(e, ps))
    case BinaryOp(name, _, l, r, _, _, _) => BinaryTree(name, Tr(l, scan, ps), Tr(r, scan, ps))
    case UnaryOp(name, _, a, _, _, _) => UnaryTree(name, Tr(a, scan, ps))
    case DistinctExpr(_, _, l, r, _, _) => DistinctPred(false, Tr(l, scan, ps), Tr(r, scan, ps))
    case ScalarArrayOp(_, op, useOr, l, arr, _) =>
      InPred(!useOr, Tr(l, scan, ps), ArrayTrees(op.left, arr, scan, ps))
    case NotExpr(a) => NotCond(Tr(a, scan, ps))
    case AndOrExpr(isAnd, first, rest) =>
      var f := Tr(first, scan, ps);
      var r := Trs(rest, scan, ps);
      if r == [] then f else if isAnd then AndCond([f] + r) else OrCond([f] + r)
    case NullTest(a, isNull, plainForm) =>
      NullTestTree(isNull, plainForm, Tr(a, scan, ps))
    case RelabelType(a, _, _) => Tr(a, scan, ps)
    case CaseExpr(_, _, casearg, whens, def) =>
      var ws := TrWhens(whens, casearg.Some?, scan, ps);
      var els := if def.Some? then Some(Tr(def.value, scan, ps)) else None;
      if casearg.Some? then SimpleCase(Tr(casearg.value, scan, ps), ws, els) else Case(ws, els)
    case FuncExpr(fn, args, _, _, _) => FunctionTree(fn, args, scan, ps)
    case ImplicitCast(_, first, _, _, _, _) => Tr(first, scan, ps)
    case Aggref(agg, _, _, distinct, star, args, filter, _, _, _) =>
      Aggregate(agg, distinct, star, if star then [] else Trs(args, scan, ps), if filter.Some? then Some(Tr(filter.value, scan, ps)) else None)
    case _ => NoForm
  }

  function Trs(es: seq<Expr>, scan: Scan, ps: seq<Expr>): seq<Sql>
    decreases es, 0
  {
    if es == [] then [] else [Tr(es[0], scan, ps)] + Trs(es[1..], scan, ps)
  }

  function TrWhen(w: CaseWhen, simple: bool, scan: Scan, ps: seq<Expr>): SqlWhen
    decreases w
  {
    var tested := if !simple then Tr(w.cond, scan, ps) else if w.cond.BinaryOp? then Tr(w.cond.right, scan, ps) else NoForm;
    SqlWhen(tested, Tr(w.result, scan, ps))
  }

  function TrWhens(ws: seq<CaseWhen>, simple: bool, scan: Scan, ps: seq<Expr>): seq<SqlWhen>
    decreases ws
  {
    if ws == [] then [] else [TrWhen(ws[0], simple, scan, ps)] + TrWhens(ws[1..], simple, scan, ps)
  }

  function ArrayTrees(elem: PgType, arr: Expr, scan: Scan, ps: seq<Expr>): seq<Sql>
    decreases arr
  {
    match arr
    case Const(t, _, d) => if d.Elements? then MeantDatums(d.items, elem) else [MeantDatum(d, t)]
    case ArrayExpr(es, _, _) => Trs(es, scan, ps)
    case ArrayCoerceExpr(a, _, _, _) => if a.ArrayExpr? then Trs(a.elements, scan, ps) else []
    case _ => []
  }

  function FunctionTree(fn: Function, args: seq<Expr>, scan: Scan, ps: seq<Expr>): Sql
    decreases args, 1
  {
    if fn.name.Translate? then
      if |args| == 3 then
        Call(TranslateFn, [Tr(args[0], scan, ps), Tr(args[2], scan, ps), Tr(args[1], scan, ps)])
      else NoForm
    else if fn.name.DatePart? then
      if TranslatableDatePart(args) then ExtractField(args[0].datum.s, Tr(args[1], scan, ps)) else NoForm
    else if fn.name.Now? || fn.name.TransactionTimestamp? then CastTo(NowRef, TimestampType)
    else Call(RemoteFn(fn.name), Trs(args, scan, ps))
  }
}
