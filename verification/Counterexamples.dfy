/** Expressions that the walker accepts and whose text DB2 cannot parse, reads as something else, or gives another
    value. */
module Counterexamples {
  import opened Nodes
  import opened RemoteSql
  import opened Deparse
  import opened Fragment
  import opened Intervals
  import opened Grouping
  import opened Spoiling
  import opened Meaning
  import opened Primitives
  import opened Preservation
  import opened Servers
  import opened NullCase
  import opened Walker

  // ----- accepted, and not what is meant

  function IntervalConst(iv: Interval): Expr {
    Const(PgType.Interval, INVALID_OID, Span(iv))
  }

  /** An interval of days and hours, and perhaps years below zero, has two parts. */
  lemma DaysAndHours(years: int, d: nat, h: nat)
    requires years <= 0 && d > 0 && h > 0
    ensures var sign := if years + d > 0 then Some(OpAdd) else None;
      IntervalPieces(TimeSpan(years, 0, d, h, 0, 0, 0, false)) == Some([Piece(None, d, DAY), Piece(sign, h, HOUR)])
  {
    var iv := TimeSpan(years, 0, d, h, 0, 0, 0, false);
    var parts := IntervalParts(iv);
    var hours := [(h, HOUR), (0, MINUTE), (0, SECOND)];
    assert parts[1..] == [(0, MONTH), (d, DAY)] + hours;
    assert parts[1..][1..] == [(d, DAY)] + hours;
    HoursLast(years, d, h);
    assert Pieces(parts[1..], years, OpAdd) == Pieces([(d, DAY)] + hours, years, OpAdd);
    assert Pieces(parts, 0, OpAdd) == Pieces(parts[1..], years, OpAdd);
  }

  lemma HoursLast(sum: int, d: nat, h: nat)
    requires sum <= 0 && d > 0 && h > 0
    ensures Pieces([(d, DAY)] + [(h, HOUR), (0, MINUTE), (0, SECOND)], sum, OpAdd)
         == [Piece(None, d, DAY), Piece(if sum + d > 0 then Some(OpAdd) else None, h, HOUR)]
  {
    var hours := [(h, HOUR), (0, MINUTE), (0, SECOND)];
    assert hours[1..] == [(0, MINUTE), (0, SECOND)];
    NothingMore(sum + d + h, OpAdd);
    assert Pieces(hours, sum + d, OpAdd) == [Piece(if sum + d > 0 then Some(OpAdd) else None, h, HOUR)];
    assert ([(d, DAY)] + hours)[1..] == hours;
  }

  /** No minutes and no seconds. */
  lemma NothingMore(sum: int, sign: SqlOp)
    ensures Pieces([(0, MINUTE), (0, SECOND)], sum, sign) == []
  {
    assert [(0, MINUTE), (0, SECOND)][1..] == [(0, SECOND)];
    assert [(0, SECOND)][1..] == [];
    assert Pieces([(0, SECOND)], sum, sign) == [];
  }

  lemma TwoDurations(p: Piece, q: Piece)
    requires p.sign.None?
    ensures PieceText([p, q])
         == if q.sign.Some? then [Dur(p.count, p.unit), Op(q.sign.value), Dur(q.count, q.unit)]
            else [Dur(p.count, p.unit), Dur(q.count, q.unit)]
  {
    assert [p, q][1..] == [q] && [q][1..] == [];
    assert PieceText([q]) == (if q.sign.Some? then [Op(q.sign.value)] else []) + [Dur(q.count, q.unit)] + PieceText([]);
  }

  /** `interval '-5 years 3 days 4 hours'` is printed as `3 DAYS 4 HOURS`, two durations without a sign. */
  lemma SignIsMissing(g: Glob, scan: Scan, ps: seq<Expr>)
    ensures var e := IntervalConst(TimeSpan(-5, 0, 3, 4, 0, 0, 0, false));
      && IsForeignExpr(e, g, false)
      && Text(e, scan, ps) == [Dur(3, DAY), Dur(4, HOUR)]
      && ParseExpression(Text(e, scan, ps)) == None
  {
    hide ParseExpression;
    DaysAndHours(-5, 3, 4);
    TwoDurations(Piece(None, 3, DAY), Piece(None, 4, HOUR));
    AdjacentDurations(Dur(3, DAY), Dur(4, HOUR));
  }

  lemma AdjacentDurations(p: Token, q: Token)
    requires p.Dur? && q.Dur?
    ensures ParseExpression([p, q]) == None
  {
    assert [p, q][1] == q && SpoiltHere([p, q]);
    SpoiltFails([p, q]);
  }

  function DaysConst(days: int): Expr {
    IntervalConst(TimeSpan(0, 0, days, 0, 0, 0, 0, false))
  }

  /** Days alone are one part, whatever their sign. */
  lemma DaysAlone(days: int)
    requires days != 0
    ensures IntervalPieces(TimeSpan(0, 0, days, 0, 0, 0, 0, false)) == Some([Piece(None, if days > 0 then days else -days, DAY)])
  {
    var n := if days > 0 then days else -days;
    var parts := IntervalParts(TimeSpan(0, 0, days, 0, 0, 0, 0, false));
    var sign := if days < 0 then OpSub else OpAdd;
    var rest := [(0, HOUR), (0, MINUTE), (0, SECOND)];
    assert rest[1..] == [(0, MINUTE), (0, SECOND)];
    assert parts[1..] == [(0, MONTH), (n, DAY)] + rest && parts[1..][1..] == [(n, DAY)] + rest;
    assert ([(n, DAY)] + rest)[1..] == rest;
    NothingMore(n, sign);
    assert Pieces(rest, n, sign) == [];
    assert Pieces([(n, DAY)] + rest, 0, sign) == [Piece(None, n, DAY)];
    assert Pieces(parts[1..], 0, sign) == [Piece(None, n, DAY)];
  }

  /** The sign of the first part is never printed: a day back has the text of a day forward, and is read as one. */
  lemma SignIsDropped(days: int, g: Glob, scan: Scan, ps: seq<Expr>)
    requires days > 0
    ensures var back, forward := DaysConst(-days), DaysConst(days);
      && IsForeignExpr(back, g, false) && IsForeignExpr(forward, g, false)
      && Text(back, scan, ps) == Text(forward, scan, ps) == [Dur(days, DAY)]
      && ParseExpression(Text(back, scan, ps)) == Some(Tr(forward, scan, ps)) != Some(Tr(back, scan, ps))
  {
    hide ParseExpression;
    DaysAlone(days);
    DaysAlone(-days);
    var p := Piece(None, days, DAY);
    assert [p][1..] == [];
    assert PieceText([p]) == [Dur(days, DAY)];
    DaysRead(days, scan, ps);
  }

  /** Days alone are read as meant exactly if they are not negative. */
  lemma DaysRead(days: int, scan: Scan, ps: seq<Expr>)
    requires days > 0
    ensures var back, forward := DaysConst(-days), DaysConst(days);
      && ParseExpression(Text(forward, scan, ps)) == Some(Tr(forward, scan, ps))
      && ParseExpression(Text(back, scan, ps)) != Some(Tr(back, scan, ps))
  {
    hide ParseExpression, Text, Tr;
    DaysAlone(days);
    DaysAlone(-days);
    hide Pieces;
    assert [Piece(None, days, DAY)][1..] == [];
    PrintParse(DaysConst(days), scan, ps);
    PrintParse(DaysConst(-days), scan, ps);
  }

  /** `t - interval '1 day 2 hours'`. */
  function RegroupedInterval(rel: nat): Expr {
    BinaryOp(Sub, Operator(2068, PgType.Timestamp, PgType.Interval, true), Var(rel, 1, 0, PgType.Timestamp, INVALID_OID),
             IntervalConst(TimeSpan(0, 0, 1, 2, 0, 0, 0, false)), PgType.Timestamp, INVALID_OID, INVALID_OID)
  }

  lemma DayAndHours(scan: Scan, ps: seq<Expr>)
    ensures var e := IntervalConst(TimeSpan(0, 0, 1, 2, 0, 0, 0, false));
      && Readable(e, scan)
      && ChainOf(e, scan, ps) == Chain(Duration(1, DAY), [Piece(Some(OpAdd), 2, HOUR)])
      && Tr(e, scan, ps) == Infix(OpAdd, Duration(1, DAY), Duration(2, HOUR))
  {
    var pieces := [Piece(None, 1, DAY), Piece(Some(OpAdd), 2, HOUR)];
    DaysAndHours(0, 1, 2);
    assert pieces[1..] == [pieces[1]] && pieces[1..][1..] == [];
    assert Joined(pieces);
    TwoDurations(pieces[0], pieces[1]);
    AddDuration(Duration(1, DAY), pieces[1]);
  }

  lemma AddDuration(head: Sql, p: Piece)
    ensures Folded(head, [p]) == Infix(PieceOp(p), head, Duration(p.count, p.unit))
  {
    assert [p][1..] == [];
  }

  /** A difference of readable operands. */
  lemma Difference(e: Expr, scan: Scan, ps: seq<Expr>)
    requires e.BinaryOp? && e.bname.Sub? && e.op.inPgCatalog && TranslatableBinary(e.bname, e.op)
    requires Readable(e.left, scan) && Readable(e.right, scan)
    ensures ParseExpression(Text(e, scan, ps)) == Some(ReadInfix(OpSub, ChainOf(e.left, scan, ps), ChainOf(e.right, scan, ps)))
    ensures Tr(e, scan, ps) == Infix(OpSub, Tr(e.left, scan, ps), Tr(e.right, scan, ps))
  {
    hide ParseExpression, Text, ReadInfix;
    PrintParse(e, scan, ps);
  }

  /** DB2 reads `(t - 1 DAY + 2 HOURS)`: it takes away the day and adds the hours. */
  lemma HoursAreAdded(rel: nat, g: Glob, scan: Scan, ps: seq<Expr>)
    requires g.relids == scan.relids && rel in scan.relids
    ensures var t, e := ColumnTree(rel, 1, scan), RegroupedInterval(rel);
      && IsForeignExpr(e, g, false)
      && Tr(e, scan, ps) == Infix(OpSub, t, Infix(OpAdd, Duration(1, DAY), Duration(2, HOUR)))
      && ParseExpression(Text(e, scan, ps)) == Some(Infix(OpAdd, Infix(OpSub, t, Duration(1, DAY)), Duration(2, HOUR)))
  {
    hide ParseExpression, Text, IsForeignExpr, PieceText, Pieces, MeantPieces, DatumText;
    var e := RegroupedInterval(rel);
    DayAndHours(scan, ps);
    AddDuration(Infix(OpSub, ColumnTree(rel, 1, scan), Duration(1, DAY)), Piece(Some(OpAdd), 2, HOUR));
    Difference(e, scan, ps);
    HoursAccepted(rel, g);
  }

  lemma HoursAccepted(rel: nat, g: Glob)
    requires rel in g.relids
    ensures IsForeignExpr(RegroupedInterval(rel), g, false)
  {
    hide Pieces, IntervalParts, PieceText;
    var e := RegroupedInterval(rel);
    assert Walk(e.left, g, None) == Some(NO_COLLATION);
    assert Walk(e.right, g, None) == Some(NO_COLLATION);
  }

  /** `- (-1)`. */
  function TwoSigns(): Expr {
    UnaryOp(Minus, Operator(558, OtherType(0), Int4, true), Const(Int4, INVALID_OID, Number(-1.0)), Int4, INVALID_OID, INVALID_OID)
  }

  /** Minus a negative number is printed with two minus signs, which open a comment. */
  lemma MinusMinus(g: Glob, scan: Scan, ps: seq<Expr>)
    ensures IsForeignExpr(TwoSigns(), g, false)
    ensures Text(TwoSigns(), scan, ps) == [LP, Comment, Num(1.0), RP]
    ensures ParseExpression(Text(TwoSigns(), scan, ps)) == None
  {
    hide ParseExpression, Text;
    assert Walk(TwoSigns().arg, g, None) == Some(NO_COLLATION);
    TwoSignsText(scan, ps);
    CommentFails();
  }

  lemma TwoSignsText(scan: Scan, ps: seq<Expr>)
    ensures Text(TwoSigns(), scan, ps) == [LP, Comment, Num(1.0), RP]
  {
    assert ConstText(Int4, Number(-1.0)) == [Op(OpSub), Num(1.0)];
    assert UnaryText(Minus, [Op(OpSub), Num(1.0)]) == [LP, Comment, Num(1.0), RP];
  }

  lemma CommentFails()
    ensures ParseExpression([LP, Comment, Num(1.0), RP]) == None
  {
    ForeignSpoils([LP, Comment, Num(1.0), RP], 1);
    SpoiltFails([LP, Comment, Num(1.0), RP]);
  }

  /** `x > ANY ('{1}')` is accepted and has no text. */
  function GreaterAny(rel: nat): Expr {
    ScalarArrayOp(Gt, Operator(521, Int4, Int4, true), true, Var(rel, 1, 0, Int4, INVALID_OID),
                  Const(OtherType(1007), INVALID_OID, Elements([Number(1.0)])), INVALID_OID)
  }

  /** A test for NULL of something without text is printed without it. */
  lemma NullTestOfNothing(rel: nat, g: Glob, scan: Scan, ps: seq<Expr>)
    requires rel in g.relids
    ensures var e := NullTest(GreaterAny(rel), true, true);
      && IsForeignExpr(e, g, false)
      && Text(e, scan, ps) == [LP, Kw(IS), Kw(NULL), RP]
      && ParseExpression(Text(e, scan, ps)) == None
  {
    var e := GreaterAny(rel);
    assert Walk(e.left, g, None) == Some(NO_COLLATION);
    assert Walk(e.arr, g, None) == Some(NO_COLLATION);
    assert Walk(e, g, None) == Some(NO_COLLATION);
    assert !Printable(e);
    PrintParse(NullTest(e, true, true), scan, ps);
  }

  /** Accepted, and nothing is printed. */
  ghost predicate Silent(e: Expr, g: Glob, scan: Scan, ps: seq<Expr>) {
    IsForeignExpr(e, g, false) && Text(e, scan, ps) == []
  }

  /** Parameters of type boolean or interval. */
  lemma SilentParams(id: nat, g: Glob, scan: Scan, ps: seq<Expr>)
    ensures Silent(Param(false, id, PgType.Bool, INVALID_OID), g, scan, ps)
    ensures Silent(Param(false, id, PgType.Interval, INVALID_OID), g, scan, ps)
  {
  }

  /** The interval of no time. */
  lemma SilentInterval(g: Glob, scan: Scan, ps: seq<Expr>)
    ensures Silent(IntervalConst(TimeSpan(0, 0, 0, 0, 0, 0, 0, false)), g, scan, ps)
  {
    NoTime();
  }

  /** An array that is no operand of `= ANY`. */
  lemma SilentArray(g: Glob, scan: Scan, ps: seq<Expr>)
    ensures Silent(ArrayExpr([], OtherType(1007), INVALID_OID), g, scan, ps)
  {
  }

  lemma NoTime()
    ensures IntervalPieces(TimeSpan(0, 0, 0, 0, 0, 0, 0, false)) == Some([])
  {
    var parts := IntervalParts(TimeSpan(0, 0, 0, 0, 0, 0, 0, false));
    assert parts[1..][1..] == [(0, DAY), (0, HOUR), (0, MINUTE), (0, SECOND)];
    assert parts[1..][1..][1..] == [(0, HOUR), (0, MINUTE), (0, SECOND)];
    assert parts[1..][1..][1..][1..] == [(0, MINUTE), (0, SECOND)];
    NothingMore(0, OpAdd);
    assert Pieces(parts[1..][1..][1..], 0, OpAdd) == [];
    assert Pieces(parts[1..][1..], 0, OpAdd) == [];
    assert Pieces(parts[1..], 0, OpAdd) == [];
  }

  /** A whole row is accepted and printed as no DB2 expression. */
  lemma WholeRow(rel: nat, rowType: PgType, g: Glob, scan: Scan, ps: seq<Expr>)
    requires rel in g.relids && rel in scan.relids && IsBuiltin(TypeOid(rowType))
    ensures var e := Var(rel, 0, 0, rowType, INVALID_OID);
      && IsForeignExpr(e, g, false)
      && ParseExpression(Text(e, scan, ps)) == None
  {
    PrintParse(Var(rel, 0, 0, rowType, INVALID_OID), scan, ps);
  }

  /** `'NaN'::float8` is printed without quotes: a name, which may as well be that of a column. */
  lemma NotANumber(negative: bool, name: string, g: Glob, scan: Scan, ps: seq<Expr>)
    ensures var e := Const(Float8, INVALID_OID, Special(negative, name));
      && IsForeignExpr(e, g, false)
      && ParseExpression(Text(e, scan, ps)) == Some(SpecialTree(negative, name)) != Some(Tr(e, scan, ps))
  {
    hide ParseExpression;
    PrintParse(Const(Float8, INVALID_OID, Special(negative, name)), scan, ps);
  }

  /** Of the constants of a numeric type that are printed, exactly the numbers and NULL are read as what they are. */
  lemma NumbersKept(t: PgType, coll: Oid, d: Datum, scan: Scan, ps: seq<Expr>)
    requires IsNumberLike(t) && Printable(Const(t, coll, d))
    ensures var e := Const(t, coll, d);
      ParseExpression(Text(e, scan, ps)) == Some(Tr(e, scan, ps)) <==> d.Number? || d.NullDatum?
  {
    hide ParseExpression;
    PrintParse(Const(t, coll, d), scan, ps);
  }

  // ----- a CASE whose argument has no text

  const INT4_EQ := Operator(96, Int4, Int4, true)

  function IntConst(r: real): Expr {
    Const(Int4, INVALID_OID, Number(r))
  }

  /** `WHEN tested THEN result`, over integers. */
  function IntWhen(tested: real, result: real): CaseWhen {
    CaseWhen(BinaryOp(Eq, INT4_EQ, CaseTestExpr(Int4, INVALID_OID), IntConst(tested), PgType.Bool, INVALID_OID, INVALID_OID),
             IntConst(result))
  }

  /** `CASE arg WHEN tested THEN result ELSE other END`. */
  function IntCase(arg: Expr, tested: real, result: real, other: real): Expr {
    CaseExpr(Int4, INVALID_OID, Some(arg), [IntWhen(tested, result)], Some(IntConst(other)))
  }

  lemma WhenWalk(tested: real, result: real, g: Glob)
    ensures WalkWhens([IntWhen(tested, result)], g, None, NO_COLLATION, NO_COLLATION) == Some(NO_COLLATION)
  {
    var when := IntWhen(tested, result);
    assert Walk(when.cond.left, g, Some(NO_COLLATION)) == Some(NO_COLLATION);
    assert Walk(when.cond.right, g, Some(NO_COLLATION)) == Some(NO_COLLATION);
    assert Walk(when.cond, g, Some(NO_COLLATION)) == Some(NO_COLLATION);
    assert Walk(when.result, g, None) == Some(NO_COLLATION);
    assert [when][1..] == [];
    assert WalkWhens([when][1..], g, None, NO_COLLATION, NO_COLLATION) == Some(NO_COLLATION);
  }

  lemma {:induction false} WhenReads(tested: real, result: real, scan: Scan)
    ensures WhensReadable([IntWhen(tested, result)], true, scan) && WhensPrintable([IntWhen(tested, result)], true)
  {
    var when := IntWhen(tested, result);
    assert Readable(when.cond.right, scan) && Readable(when.result, scan);
    assert WhenReadable(when, true, scan) && WhenPrintable(when, true);
    assert [when][1..] == [];
    assert WhensReadable([when][1..], true, scan) && WhensPrintable([when][1..], true);
  }

  /** An accepted argument makes an accepted CASE. */
  lemma IntCaseWalk(arg: Expr, tested: real, result: real, other: real, g: Glob)
    requires Walk(arg, g, None) == Some(NO_COLLATION)
    ensures Walk(IntCase(arg, tested, result, other), g, None) == Some(NO_COLLATION)
  {
    WhenWalk(tested, result, g);
    assert Walk(IntConst(other), g, None) == Some(NO_COLLATION);
  }

  /** It is printed exactly when its argument is not. */
  lemma IntCaseReads(arg: Expr, tested: real, result: real, other: real, scan: Scan)
    ensures Readable(IntCase(arg, tested, result, other), scan) <==> !Printable(arg)
    ensures Printable(IntCase(arg, tested, result, other)) <==> !Printable(arg)
  {
    WhenReads(tested, result, scan);
    assert Readable(IntConst(other), scan);
  }

  lemma IntCaseLocal(arg: Expr, tested: real, result: real, other: real, env: Env, pg: PgSemantics)
    requires EvalPg(arg, env, pg).RealV? && forall x, y :: pg.binary(Eq, INT4_EQ, INVALID_OID, RealV(x), RealV(y)) == BoolV(x == y)
    ensures EvalPg(IntCase(arg, tested, result, other), env, pg) == RealV(if EvalPg(arg, env, pg).r == tested then result else other)
  {
    WhenLocal(tested, result, env, env.(caseVal := EvalPg(arg, env, pg)), pg);
    assert EvalPg(IntConst(other), env, pg) == RealV(other);
  }

  lemma WhenLocal(tested: real, result: real, env: Env, inner: Env, pg: PgSemantics)
    requires inner.caseVal.RealV? && forall x, y :: pg.binary(Eq, INT4_EQ, INVALID_OID, RealV(x), RealV(y)) == BoolV(x == y)
    ensures EvalWhens([IntWhen(tested, result)], env, inner, pg) == if inner.caseVal.r == tested then Some(RealV(result)) else None
  {
    var when := IntWhen(tested, result);
    assert EvalPg(when.cond.left, inner, pg) == inner.caseVal && EvalPg(when.cond.right, inner, pg) == RealV(tested);
    assert EvalPg(when.cond, inner, pg) == pg.binary(Eq, INT4_EQ, INVALID_OID, RealV(inner.caseVal.r), RealV(tested));
    assert EvalPg(when.result, env, pg) == RealV(result);
    assert [when][1..] == [];
    assert EvalWhens([when][1..], env, inner, pg) == None;
  }

  /** `CASE (CASE x WHEN 1 THEN 2 ELSE 0 END) WHEN 2 THEN 3 ELSE 4 END`. */
  function CaseOfCase(rel: nat): Expr {
    IntCase(IntCase(Var(rel, 1, 0, Int4, INVALID_OID), 1.0, 2.0, 0.0), 2.0, 3.0, 4.0)
  }

  /** It is accepted and parses, and where x is 1 its value is 3 in PostgreSQL and 4 on DB2. */
  lemma CaseOfCaseDiffers(rel: nat, g: Glob, w: Setting)
    requires rel in g.relids && rel in w.env.relids && UsualEquality(w.db) && w.env.row(rel, 1) == RealV(1.0)
    requires forall x, y :: w.pg.binary(Eq, INT4_EQ, INVALID_OID, RealV(x), RealV(y)) == BoolV(x == y)
    ensures var e := CaseOfCase(rel);
      && IsForeignExpr(e, g, false)
      && ParseExpression(Text(e, w.scan, w.ps)) == Some(Read(e, w.scan, w.ps))
      && w.Local(e) == RealV(3.0)
      && w.Shipped(e) == RealV(4.0)
  {
    hide Text, ParseExpression, EvalSql, EvalPg, Walk, Printable, Readable, Read;
    var x := Var(rel, 1, 0, Int4, INVALID_OID);
    var inner := IntCase(x, 1.0, 2.0, 0.0);
    ColumnFacts(rel, g, w);
    IntCaseWalk(x, 1.0, 2.0, 0.0, g);
    IntCaseWalk(inner, 2.0, 3.0, 4.0, g);
    IntCaseReads(x, 1.0, 2.0, 0.0, w.scan);
    IntCaseReads(inner, 2.0, 3.0, 4.0, w.scan);
    IntCaseLocal(x, 1.0, 2.0, 0.0, w.env, w.pg);
    IntCaseLocal(inner, 2.0, 3.0, 4.0, w.env, w.pg);
    SimpleCaseTakesElse(CaseOfCase(rel), w);
    FourIsFour(w);
  }

  lemma ColumnFacts(rel: nat, g: Glob, w: Setting)
    requires rel in g.relids && rel in w.env.relids
    ensures var x := Var(rel, 1, 0, Int4, INVALID_OID);
      Walk(x, g, None) == Some(NO_COLLATION) && Printable(x) && w.Local(x) == w.env.row(rel, 1)
  {
  }

  lemma FourIsFour(w: Setting)
    ensures EvalSql(Read(IntConst(4.0), w.scan, w.ps), w.remote, w.db) == RealV(4.0)
  {
    assert Read(IntConst(4.0), w.scan, w.ps) == NumLit(4.0);
  }

  /** A CASE whose argument has a text, such as a column, has none itself. */
  lemma CaseOfColumn(rel: nat, g: Glob, scan: Scan, ps: seq<Expr>)
    requires rel in g.relids
    ensures Silent(IntCase(Var(rel, 1, 0, Int4, INVALID_OID), 1.0, 2.0, 0.0), g, scan, ps)
  {
    var x := Var(rel, 1, 0, Int4, INVALID_OID);
    assert Walk(x, g, None) == Some(NO_COLLATION) && Printable(x);
    IntCaseWalk(x, 1.0, 2.0, 0.0, g);
    IntCaseReads(x, 1.0, 2.0, 0.0, scan);
  }

  // ----- FILTER

  const COUNT_ALL := Aggref(Count, 2803, true, false, true, [], None, Int8, INVALID_OID, INVALID_OID)

  /** `count(*) FILTER (WHERE x IS NULL)`. */
  function CountNulls(rel: nat): (e: Expr)
    ensures e.Aggref? && e.star && e.(filter := None) == COUNT_ALL
  {
    COUNT_ALL.(filter := Some(NullTest(Var(rel, 1, 0, Int4, INVALID_OID), true, true)))
  }

  /** Both servers count. */
  ghost predicate BothCount(w: Setting) {
    && (forall rows :: w.db.aggregate(Count, false, rows) == RealV(|rows| as real))
    && (forall rows :: w.pg.aggregate(Count, 2803, INVALID_OID, false, rows) == RealV(|rows| as real))
  }

  /** The aggregate is accepted, DB2 counts all rows, and that is right if and only if x is NULL in every row of the
      group. */
  lemma CountIgnoresFilter(rel: nat, g: Glob, w: Setting)
    requires g.upper && rel in g.relids && rel in w.env.relids && w.Sound() && BothCount(w)
    ensures var e := CountNulls(rel);
      && IsForeignExpr(e, g, false)
      && ParseExpression(Text(e, w.scan, w.ps)) == Some(Read(e, w.scan, w.ps))
      && w.Shipped(e) == RealV(|w.env.group| as real)
      && (w.Shipped(e) == w.Local(e) <==> forall i | 0 <= i < |w.env.group| :: w.env.group[i](rel, 1).NullV?)
  {
    hide Text, ParseExpression, Read, EvalSql, EvalPg, EvalGroup, EvalSqlGroup, PassesFilter, Covers, Walk;
    CountAccepted(rel, g);
    CountCovered(rel, w);
    FilterIsLost(CountNulls(rel), w.ps, w);
    FilterTests(rel, w);
    CountValues(rel, w);
  }

  lemma CountAccepted(rel: nat, g: Glob)
    requires g.upper && rel in g.relids
    ensures IsForeignExpr(CountNulls(rel), g, false)
  {
    var f := CountNulls(rel).filter.value;
    assert Walk(f.arg, g, None) == Some(NO_COLLATION);
    assert Walk(f, g, None) == Some(NO_COLLATION);
  }

  lemma CountCovered(rel: nat, w: Setting)
    requires w.Sound() && BothCount(w)
    ensures Covers(w, COUNT_ALL) && Params(CountNulls(rel), w.scan, w.ps) == w.ps
  {
    assert Prims(COUNT_ALL) == {Collect(Count, 2803, false, INVALID_OID)};
    assert PrimAgrees(Collect(Count, 2803, false, INVALID_OID), w.pg, w.db, w.remote.now);
  }

  lemma FilterTests(rel: nat, w: Setting)
    requires rel in w.env.relids
    ensures forall row: Row :: PassesFilter(CountNulls(rel), w.env, row, w.pg) <==> row(rel, 1).NullV?
  {
    forall row: Row ensures PassesFilter(CountNulls(rel), w.env, row, w.pg) <==> row(rel, 1).NullV? {
      var here := w.env.(row := row);
      assert EvalPg(CountNulls(rel).filter.value.arg, here, w.pg) == row(rel, 1);
    }
  }

  lemma CountValues(rel: nat, w: Setting)
    requires w.Sound() && BothCount(w)
    ensures var e := CountNulls(rel);
      && w.Shipped(e) == RealV(|w.env.group| as real)
      && (w.Shipped(e) == w.Local(e)
          <==> EvalSqlGroup(Read(e, w.scan, w.ps), w.remote, w.remote.group, w.db) == EvalGroup(e, w.env, w.env.group, w.pg))
  {
    var e := CountNulls(rel);
    var remote, mine := EvalSqlGroup(Read(e, w.scan, w.ps), w.remote, w.remote.group, w.db), EvalGroup(e, w.env, w.env.group, w.pg);
    CountLocal(rel, w);
    CountRemote(rel, w);
    hide EvalGroup, EvalSqlGroup, EvalPg, EvalSql, Read;
    assert |remote| == |mine| ==> remote == mine;
  }

  lemma CountLocal(rel: nat, w: Setting)
    requires BothCount(w)
    ensures var e := CountNulls(rel);
      var mine := EvalGroup(e, w.env, w.env.group, w.pg);
      w.Local(e) == RealV(|mine| as real) && forall i | 0 <= i < |mine| :: mine[i] == []
  {
    EmptyLists(CountNulls(rel), w.env, w.env.group, w.pg);
  }

  lemma CountRemote(rel: nat, w: Setting)
    requires w.Sound() && BothCount(w)
    ensures var e := CountNulls(rel);
      var remote := EvalSqlGroup(Read(e, w.scan, w.ps), w.remote, w.remote.group, w.db);
      && w.Shipped(e) == RealV(|remote| as real)
      && |remote| == |w.env.group| && forall i | 0 <= i < |remote| :: remote[i] == []
  {
    var t := Aggregate(Count, false, true, [], None);
    assert Read(CountNulls(rel), w.scan, w.ps) == t;
    RemoteLists(t, w.remote, w.remote.group, w.db);
  }

  lemma {:induction false} EmptyLists(e: Expr, env: Env, rows: seq<Row>, pg: PgSemantics)
    requires e.Aggref? && e.star
    ensures forall i | 0 <= i < |EvalGroup(e, env, rows, pg)| :: EvalGroup(e, env, rows, pg)[i] == []
    decreases |rows|
  {
    if rows != [] {
      EmptyLists(e, env, rows[1..], pg);
    }
  }

  lemma {:induction false} RemoteLists(t: Sql, env: RemoteEnv, rows: seq<RemoteRow>, db: Db2Semantics)
    requires t.Aggregate? && t.star && t.filter.None?
    ensures |EvalSqlGroup(t, env, rows, db)| == |rows|
    ensures forall i | 0 <= i < |rows| :: EvalSqlGroup(t, env, rows, db)[i] == []
    decreases |rows|
  {
    if rows != [] {
      RemoteLists(t, env, rows[1..], db);
    }
  }
}
