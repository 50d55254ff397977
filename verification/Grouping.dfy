/** What DB2 makes of a text. `Read` is the expression that is read, `Tr` the one that is meant. They differ where an
    interval of several parts, printed without parentheses, is regrouped by an arithmetic operator next to it, where a
    constant does not keep its value, and where a CASE argument or a FILTER is not printed, and nowhere else. */
module Grouping {
  import opened Nodes
  import opened RemoteSql
  import opened Deparse
  import opened Fragment
  import opened Intervals

  /** The text is a sum of several durations. */
  predicate Spreads(e: Expr)
    decreases e
  {
    match e
    case Const(t, _, d) => t.Interval? && d.Span? && IntervalPieces(d.iv).Some? && |IntervalPieces(d.iv).value| > 1
    case RelabelType(a, _, _) => Spreads(a)
    case ImplicitCast(_, first, _, _, _, _) => Spreads(first)
    case _ => false
  }

  /** `l op r`, read from left to right. */
  function ReadInfix(op: SqlOp, l: Chain, r: Chain): Sql {
    if op.OpMul? && l.rest != [] then
      var n := |l.rest| - 1;
      var last := l.rest[n];
      Folded(Infix(PieceOp(last), Folded(l.head, l.rest[..n]), Infix(OpMul, Duration(last.count, last.unit), r.head)), r.rest)
    else
      Folded(Infix(op, Folded(l.head, l.rest), r.head), r.rest)
  }

  function Whole(c: Chain): Sql {
    Folded(c.head, c.rest)
  }

  function ReadBinary(name: BinName, l: Chain, r: Chain): Sql {
    if name.Add? || name.Sub? || name.Mul? then ReadInfix(SqlOpOf(name), l, r) else BinaryTree(name, Whole(l), Whole(r))
  }

  function ReadUnary(name: UnName, a: Chain): Sql {
    match name
    case Minus => Folded(Signed(OpSub, a.head), a.rest)
    case Plus => Folded(Signed(OpAdd, a.head), a.rest)
    case _ => UnaryTree(name, Whole(a))
  }

  /** The expression as the beginning of a sum that may go on. */
  function ChainOf(e: Expr, scan: Scan, ps: seq<Expr>): Chain
    decreases e, 1
  {
    match e
    case Const(t, _, d) =>
      if d.Span? && DatumText(d, t).Some? then ChainOfInterval(d.iv) else Chain(DatumTree(d, t), [])
    case RelabelType(a, _, _) => ChainOf(a, scan, ps)
    case ImplicitCast(_, first, _, _, _, _) => ChainOf(first, scan, ps)
    case _ => Chain(Read(e, scan, ps), [])
  }

  /** The expression that DB2 reads. */
  function Read(e: Expr, scan: Scan, ps: seq<Expr>): Sql
    decreases e, 0
  {
    match e
    case Const(t, _, d) => DatumTree(d, t)
    case BinaryOp(name, _, l, r, _, _, _) => ReadBinary(name, ChainOf(l, scan, ps), ChainOf(r, scan, ps))
    case UnaryOp(name, _, a, _, _, _) => ReadUnary(name, ChainOf(a, scan, ps))
    case DistinctExpr(_, _, l, r, _, _) => DistinctPred(false, Read(l, scan, ps), Read(r, scan, ps))
    case ScalarArrayOp(_, op, useOr, l, arr, _) => InPred(!useOr, Read(l, scan, ps), ReadArray(op.left, arr, scan, ps))
    case NotExpr(a) => NotCond(Read(a, scan, ps))
    case AndOrExpr(isAnd, first, rest) =>
      var f := Read(first, scan, ps);
      var r := ReadAll(rest, scan, ps);
      if r == [] then f else if isAnd then AndCond([f] + r) else OrCond([f] + r)
    case NullTest(a, isNull, plainForm) => NullTestTree(isNull, plainForm, Read(a, scan, ps))
    case RelabelType(a, _, _) => Read(a, scan, ps)
    case CaseExpr(_, _, casearg, whens, def) =>
      CaseTree(casearg.Some?, ReadWhens(whens, casearg.Some?, scan, ps), if def.Some? then Some(Read(def.value, scan, ps)) else None)
    case FuncExpr(fn, args, _, _, _) => ReadFunction(fn, args, scan, ps)
    case ImplicitCast(_, first, _, _, _, _) => Read(first, scan, ps)
    case Aggref(agg, _, _, distinct, star, args, _, _, _, _) =>
      Aggregate(agg, distinct, star, if star then [] else ReadAll(args, scan, ps), None)
    case _ => Tr(e, scan, ps)
  }

  function ReadAll(es: seq<Expr>, scan: Scan, ps: seq<Expr>): seq<Sql>
    decreases es, 0
  {
    if es == [] then [] else [Read(es[0], scan, ps)] + ReadAll(es[1..], scan, ps)
  }

  function ReadWhen(w: CaseWhen, simple: bool, scan: Scan, ps: seq<Expr>): SqlWhen
    decreases w
  {
    var tested := if !simple then Read(w.cond, scan, ps) else if w.cond.BinaryOp? then Read(w.cond.right, scan, ps) else NullLit;
    SqlWhen(tested, Read(w.result, scan, ps))
  }

  function ReadWhens(ws: seq<CaseWhen>, simple: bool, scan: Scan, ps: seq<Expr>): seq<SqlWhen>
    decreases ws
  {
    if ws == [] then [] else [ReadWhen(ws[0], simple, scan, ps)] + ReadWhens(ws[1..], simple, scan, ps)
  }

  function ReadArray(elem: PgType, arr: Expr, scan: Scan, ps: seq<Expr>): seq<Sql>
    decreases arr
  {
    match arr
    case Const(_, _, d) => if d.Elements? then DatumTrees(d.items, elem) else [NullLit]
    case ArrayExpr(es, _, _) => ReadAll(es, scan, ps)
    case ArrayCoerceExpr(a, _, _, _) => if a.ArrayExpr? then ReadAll(a.elements, scan, ps) else []
    case _ => ArrayTrees(elem, arr, scan, ps)
  }

  function ReadFunction(fn: Function, args: seq<Expr>, scan: Scan, ps: seq<Expr>): Sql
    decreases args, 1
  {
    if fn.name.Translate? then
      if |args| == 3 then
        Call(TranslateFn, [Read(args[0], scan, ps), Read(args[2], scan, ps), Read(args[1], scan, ps)])
      else NullLit
    else if fn.name.DatePart? then
      if TranslatableDatePart(args) then ExtractField(args[0].datum.s, Read(args[1], scan, ps)) else NullLit
    else if fn.name.Now? || fn.name.TransactionTimestamp? then CastTo(NowRef, TimestampType)
    else Call(RemoteFn(fn.name), ReadAll(args, scan, ps))
  }

  // ----- when the two are the same

  /** The constant is no `NaN` or the like, and an interval keeps its signs. */
  predicate DatumIntact(d: Datum) {
    !d.Special? && (d.Span? ==> SignsKept(d.iv))
  }

  predicate AllDatumsIntact(ds: seq<Datum>) {
    ds == [] || (DatumIntact(ds[0]) && AllDatumsIntact(ds[1..]))
  }

  /** NULL, possibly below dropped casts or as the only operand of AND or OR. */
  predicate IsNullConst(e: Expr)
    decreases e
  {
    match e
    case Const(_, _, d) => d.NullDatum?
    case RelabelType(a, _, _) => IsNullConst(a)
    case ImplicitCast(_, first, _, _, _, _) => IsNullConst(first)
    case AndOrExpr(_, first, rest) => rest == [] && IsNullConst(first)
    case _ => false
  }

  /** No interval of several parts stands behind `+`, `-` or a sign, or on either side of `*`; every constant keeps its
      value; a CASE has no argument but NULL, and an aggregate no FILTER. */
  predicate Intact(e: Expr)
    decreases e
  {
    match e
    case Const(_, _, d) => DatumIntact(d)
    case BinaryOp(name, _, l, r, _, _, _) =>
      && Intact(l) && Intact(r)
      && (name.Add? || name.Sub? || name.Mul? ==> !Spreads(r)) && (name.Mul? ==> !Spreads(l))
    case UnaryOp(name, _, a, _, _, _) => Intact(a) && (name.Minus? || name.Plus? ==> !Spreads(a))
    case DistinctExpr(_, _, l, r, _, _) => Intact(l) && Intact(r)
    case ScalarArrayOp(_, _, _, l, arr, _) => Intact(l) && ArrayIntact(arr)
    case NotExpr(a) => Intact(a)
    case AndOrExpr(_, first, rest) => Intact(first) && AllIntact(rest)
    case NullTest(a, _, _) => Intact(a)
    case RelabelType(a, _, _) => Intact(a)
    case CaseExpr(_, _, casearg, whens, def) =>
      && (casearg.Some? ==> IsNullConst(casearg.value))
      && WhensIntact(whens, casearg.Some?) && (def.Some? ==> Intact(def.value))
    case FuncExpr(_, args, _, _, _) => AllIntact(args)
    case ImplicitCast(_, first, _, _, _, _) => Intact(first)
    case Aggref(_, _, _, _, star, args, filter, _, _, _) => filter.None? && (star || AllIntact(args))
    case _ => true
  }

  predicate AllIntact(es: seq<Expr>)
    decreases es
  {
    es == [] || (Intact(es[0]) && AllIntact(es[1..]))
  }

  predicate WhenIntact(w: CaseWhen, simple: bool)
    decreases w
  {
    (if simple then w.cond.BinaryOp? ==> Intact(w.cond.right) else Intact(w.cond)) && Intact(w.result)
  }

  predicate WhensIntact(ws: seq<CaseWhen>, simple: bool)
    decreases ws
  {
    ws == [] || (WhenIntact(ws[0], simple) && WhensIntact(ws[1..], simple))
  }

  predicate ArrayIntact(arr: Expr)
    decreases arr
  {
    match arr
    case Const(_, _, d) => d.Elements? ==> AllDatumsIntact(d.items)
    case ArrayExpr(es, _, _) => AllIntact(es)
    case ArrayCoerceExpr(a, _, _, _) => a.ArrayExpr? ==> AllIntact(a.elements)
    case _ => true
  }

  /** Adding durations gives a sum whose last summand is a duration. */
  lemma {:induction false} FoldedIsSum(head: Sql, rest: seq<Piece>)
    requires rest != []
    ensures Folded(head, rest).Infix? && Folded(head, rest).r.Duration?
    decreases |rest|
  {
    var p := rest[0];
    var next := Infix(PieceOp(p), head, Duration(p.count, p.unit));
    if rest[1..] == [] {
      assert Folded(next, rest[1..]) == next;
    } else {
      FoldedIsSum(next, rest[1..]);
    }
  }

  lemma {:induction false} SignedAt(ps: seq<Piece>, i: nat)
    requires AllSigned(ps) && i < |ps|
    ensures IsSign(PieceOp(ps[i]))
  {
    if i > 0 {
      SignedAt(ps[1..], i - 1);
    }
  }

  /** A whole chain is the expression. */
  lemma {:induction false} WholeIsRead(e: Expr, scan: Scan, ps: seq<Expr>)
    ensures Whole(ChainOf(e, scan, ps)) == Read(e, scan, ps)
    decreases e
  {
    if e.RelabelType? {
      WholeIsRead(e.arg, scan, ps);
    } else if e.ImplicitCast? {
      WholeIsRead(e.first, scan, ps);
    }
  }

  /** Only intervals of several parts are sums that go on. What is meant is a sum, too. */
  lemma {:induction false} SpreadsGoOn(e: Expr, scan: Scan, ps: seq<Expr>)
    requires Readable(e, scan)
    ensures var c := ChainOf(e, scan, ps); (Spreads(e) <==> c.rest != []) && AllSigned(c.rest)
    ensures Spreads(e) ==> Tr(e, scan, ps).Infix?
    decreases e
  {
    if e.RelabelType? {
      SpreadsGoOn(e.arg, scan, ps);
    } else if e.ImplicitCast? {
      SpreadsGoOn(e.first, scan, ps);
    } else if e.Const? && Spreads(e) {
      MeantIsSum(e.datum.iv, e.ctype);
    }
  }

  lemma MeantIsSum(iv: Interval, t: PgType)
    requires IntervalPieces(iv).Some? && |IntervalPieces(iv).value| > 1
    ensures MeantDatum(Span(iv), t).Infix?
  {
    MeantMore(iv);
    var m := MeantPieces(iv);
    FoldedIsSum(Duration(m[0].count, m[0].unit), m[1..]);
  }

  lemma InfixRead(op: SqlOp, l: Chain, r: Chain, lt: Sql, rt: Sql)
    requires op.OpAdd? || op.OpSub? || op.OpMul?
    requires AllSigned(l.rest) && (r.rest != [] ==> rt.Infix?)
    ensures ReadInfix(op, l, r) == Infix(op, lt, rt)
        <==> r.rest == [] && (op.OpMul? ==> l.rest == []) && Whole(l) == lt && Whole(r) == rt
  {
    if r.rest != [] {
      FoldedIsSum(r.head, r.rest);
      if op.OpMul? && l.rest != [] {
        var n := |l.rest| - 1;
        var last := l.rest[n];
        FoldedIsSum(Infix(PieceOp(last), Folded(l.head, l.rest[..n]), Infix(OpMul, Duration(last.count, last.unit), r.head)), r.rest);
      } else {
        FoldedIsSum(Infix(op, Folded(l.head, l.rest), r.head), r.rest);
      }
    } else if op.OpMul? && l.rest != [] {
      SignedAt(l.rest, |l.rest| - 1);
    }
  }

  lemma UnaryRead(name: UnName, a: Chain, at: Sql)
    ensures ReadUnary(name, a) == UnaryTree(name, at) <==> (name.Minus? || name.Plus? ==> a.rest == []) && Whole(a) == at
  {
    assert [Whole(a)][0] == Whole(a) && [at][0] == at;
    if a.rest != [] {
      FoldedIsSum(Signed(OpSub, a.head), a.rest);
      FoldedIsSum(Signed(OpAdd, a.head), a.rest);
    } else {
      assert Whole(a) == a.head;
      assert Folded(Signed(OpSub, a.head), a.rest) == Signed(OpSub, a.head);
      assert Folded(Signed(OpAdd, a.head), a.rest) == Signed(OpAdd, a.head);
    }
  }

  // ----- exactly then

  /** A readable text is read as it is meant if and only if the expression is intact. */
  lemma {:induction false} ReadIsMeant(e: Expr, scan: Scan, ps: seq<Expr>)
    requires Readable(e, scan)
    ensures Read(e, scan, ps) == Tr(e, scan, ps) <==> Intact(e)
    decreases e, 1
  {
    if e.Const? {
      ConstMeant(e.ctype, e.datum);
    } else if e.BinaryOp? || e.UnaryOp? {
      OperatorMeant(e, scan, ps);
    } else if e.DistinctExpr? {
      ReadIsMeant(e.left, scan, ps);
      ReadIsMeant(e.right, scan, ps);
    } else if e.ScalarArrayOp? {
      ReadIsMeant(e.left, scan, ps);
      ArrayMeant(e.op.left, e.arr, scan, ps);
    } else if e.NotExpr? || e.NullTest? || e.RelabelType? {
      ReadIsMeant(e.arg, scan, ps);
    } else if e.AndOrExpr? {
      ReadIsMeant(e.first, scan, ps);
      AllMeant(e.rest, scan, ps);
      ConnectiveMeant(e.isAnd, Read(e.first, scan, ps), ReadAll(e.rest, scan, ps), Tr(e.first, scan, ps), Trs(e.rest, scan, ps));
    } else if e.CaseExpr? {
      CaseMeant(e, scan, ps);
    } else if e.FuncExpr? {
      FunctionMeant(e.fn, e.args, e.rtype, scan, ps);
    } else if e.ImplicitCast? {
      ReadIsMeant(e.first, scan, ps);
    } else if e.Aggref? && !e.star {
      AllMeant(e.args, scan, ps);
    }
  }

  lemma ConstMeant(t: PgType, d: Datum)
    requires ConstText(t, d) != [] && DatumReadable(d)
    ensures DatumTree(d, t) == MeantDatum(d, t) <==> DatumIntact(d)
  {
    if !d.NullDatum? {
      DatumMeant(d, t);
    }
  }

  lemma DatumMeant(d: Datum, t: PgType)
    requires DatumText(d, t).Some? && DatumText(d, t).value != [] && DatumReadable(d)
    ensures DatumTree(d, t) == MeantDatum(d, t) <==> DatumIntact(d)
  {
    if d.Span? {
      IntervalStarts(d.iv);
      SpanKept(d.iv, t);
    }
  }

  lemma {:induction false} DatumsMeant(ds: seq<Datum>, t: PgType)
    requires ElementsReadable(ds, t)
    ensures |DatumTrees(ds, t)| == |MeantDatums(ds, t)|
    ensures DatumTrees(ds, t) == MeantDatums(ds, t) <==> AllDatumsIntact(ds)
    decreases |ds|
  {
    if ds != [] {
      if !ds[0].NullDatum? {
        DatumMeant(ds[0], t);
      }
      DatumsMeant(ds[1..], t);
      assert DatumTrees(ds, t)[0] == DatumTree(ds[0], t) && DatumTrees(ds, t)[1..] == DatumTrees(ds[1..], t);
      assert MeantDatums(ds, t)[0] == MeantDatum(ds[0], t) && MeantDatums(ds, t)[1..] == MeantDatums(ds[1..], t);
    }
  }

  /** Only NULL is meant to be NULL. */
  lemma {:induction false} NullMeant(e: Expr, scan: Scan, ps: seq<Expr>)
    ensures Tr(e, scan, ps) == NullLit <==> IsNullConst(e)
    decreases e
  {
    if e.RelabelType? {
      NullMeant(e.arg, scan, ps);
    } else if e.ImplicitCast? {
      NullMeant(e.first, scan, ps);
    } else if e.AndOrExpr? {
      NullMeant(e.first, scan, ps);
    } else if e.Const? {
      NullDatumMeant(e.datum, e.ctype);
    }
  }

  lemma NullDatumMeant(d: Datum, t: PgType)
    ensures MeantDatum(d, t) == NullLit <==> d.NullDatum?
  {
    if d.Span? && |MeantPieces(d.iv)| > 1 {
      var m := MeantPieces(d.iv);
      FoldedIsSum(Duration(m[0].count, m[0].unit), m[1..]);
    }
  }

  lemma {:induction false} CaseMeant(e: Expr, scan: Scan, ps: seq<Expr>)
    requires e.CaseExpr? && Readable(e, scan)
    ensures Read(e, scan, ps) == Tr(e, scan, ps) <==> Intact(e)
    decreases e, 0
  {
    WhensMeant(e.whens, e.casearg.Some?, scan, ps);
    if e.def.Some? {
      ReadIsMeant(e.def.value, scan, ps);
    }
    if e.casearg.Some? {
      NullMeant(e.casearg.value, scan, ps);
    }
  }

  lemma ConnectiveMeant(isAnd: bool, f: Sql, r: seq<Sql>, g: Sql, t: seq<Sql>)
    requires |r| == |t|
    ensures var read := if r == [] then f else if isAnd then AndCond([f] + r) else OrCond([f] + r);
      var meant := if t == [] then g else if isAnd then AndCond([g] + t) else OrCond([g] + t);
      read == meant <==> f == g && r == t
  {
    assert ([f] + r)[0] == f && ([f] + r)[1..] == r;
    assert ([g] + t)[0] == g && ([g] + t)[1..] == t;
  }

  lemma {:induction false} OperatorMeant(e: Expr, scan: Scan, ps: seq<Expr>)
    requires (e.BinaryOp? || e.UnaryOp?) && Readable(e, scan)
    ensures Read(e, scan, ps) == Tr(e, scan, ps) <==> Intact(e)
    decreases e, 0
  {
    if e.UnaryOp? {
      Operand(e.arg, scan, ps);
      UnaryRead(e.uname, ChainOf(e.arg, scan, ps), Tr(e.arg, scan, ps));
    } else {
      Operand(e.left, scan, ps);
      Operand(e.right, scan, ps);
      BinaryRead(e.bname, ChainOf(e.left, scan, ps), ChainOf(e.right, scan, ps), Tr(e.left, scan, ps), Tr(e.right, scan, ps));
    }
  }

  lemma {:induction false} Operand(e: Expr, scan: Scan, ps: seq<Expr>)
    requires Readable(e, scan)
    ensures var c := ChainOf(e, scan, ps);
      && (Whole(c) == Tr(e, scan, ps) <==> Intact(e)) && (Spreads(e) <==> c.rest != [])
      && AllSigned(c.rest) && (c.rest != [] ==> Tr(e, scan, ps).Infix?)
    decreases e, 2
  {
    ReadIsMeant(e, scan, ps);
    WholeIsRead(e, scan, ps);
    SpreadsGoOn(e, scan, ps);
  }

  lemma BinaryRead(name: BinName, l: Chain, r: Chain, lt: Sql, rt: Sql)
    requires AllSigned(l.rest) && (r.rest != [] ==> rt.Infix?)
    ensures ReadBinary(name, l, r) == BinaryTree(name, lt, rt)
        <==> && (name.Add? || name.Sub? || name.Mul? ==> r.rest == []) && (name.Mul? ==> l.rest == [])
             && Whole(l) == lt && Whole(r) == rt
  {
    if name.Add? || name.Sub? || name.Mul? {
      InfixRead(SqlOpOf(name), l, r, lt, rt);
    } else {
      assert UpperOf(lt).args[0] == lt && UpperOf(rt).args[0] == rt;
      assert UpperOf(Whole(l)).args[0] == Whole(l) && UpperOf(Whole(r)).args[0] == Whole(r);
      PairsEqual(Whole(l), Whole(r), lt, rt);
    }
  }

  lemma PairsEqual(a: Sql, b: Sql, c: Sql, d: Sql)
    ensures [a, b] == [c, d] <==> a == c && b == d
  {
    assert [a, b][0] == a && [a, b][1] == b && [c, d][0] == c && [c, d][1] == d;
  }

  lemma {:induction false} AllMeant(es: seq<Expr>, scan: Scan, ps: seq<Expr>)
    requires AllReadable(es, scan)
    ensures |ReadAll(es, scan, ps)| == |Trs(es, scan, ps)|
    ensures ReadAll(es, scan, ps) == Trs(es, scan, ps) <==> AllIntact(es)
    decreases es, 0
  {
    if es != [] {
      ReadIsMeant(es[0], scan, ps);
      AllMeant(es[1..], scan, ps);
      var rest, more := ReadAll(es[1..], scan, ps), Trs(es[1..], scan, ps);
      assert ReadAll(es, scan, ps)[0] == Read(es[0], scan, ps) && ReadAll(es, scan, ps)[1..] == rest;
      assert Trs(es, scan, ps)[0] == Tr(es[0], scan, ps) && Trs(es, scan, ps)[1..] == more;
    }
  }

  lemma {:induction false} WhensMeant(ws: seq<CaseWhen>, simple: bool, scan: Scan, ps: seq<Expr>)
    requires WhensReadable(ws, simple, scan)
    ensures |ReadWhens(ws, simple, scan, ps)| == |TrWhens(ws, simple, scan, ps)|
    ensures ReadWhens(ws, simple, scan, ps) == TrWhens(ws, simple, scan, ps) <==> WhensIntact(ws, simple)
    decreases ws
  {
    if ws != [] {
      WhenMeant(ws[0], simple, scan, ps);
      WhensMeant(ws[1..], simple, scan, ps);
      var rest, more := ReadWhens(ws[1..], simple, scan, ps), TrWhens(ws[1..], simple, scan, ps);
      assert ReadWhens(ws, simple, scan, ps)[0] == ReadWhen(ws[0], simple, scan, ps);
      assert ReadWhens(ws, simple, scan, ps)[1..] == rest;
      assert TrWhens(ws, simple, scan, ps)[0] == TrWhen(ws[0], simple, scan, ps);
      assert TrWhens(ws, simple, scan, ps)[1..] == more;
    }
  }

  lemma {:induction false} WhenMeant(w: CaseWhen, simple: bool, scan: Scan, ps: seq<Expr>)
    requires WhenReadable(w, simple, scan)
    ensures ReadWhen(w, simple, scan, ps) == TrWhen(w, simple, scan, ps) <==> WhenIntact(w, simple)
    decreases w
  {
    ReadIsMeant(w.result, scan, ps);
    if simple {
      ReadIsMeant(w.cond.right, scan, ps);
    } else {
      ReadIsMeant(w.cond, scan, ps);
    }
  }

  lemma {:induction false} ArrayMeant(elem: PgType, arr: Expr, scan: Scan, ps: seq<Expr>)
    requires ArrayReadable(elem, arr, scan)
    ensures ReadArray(elem, arr, scan, ps) == ArrayTrees(elem, arr, scan, ps) <==> ArrayIntact(arr)
    decreases arr
  {
    if arr.Const? {
      if arr.datum.Elements? {
        DatumsMeant(arr.datum.items, elem);
      }
    } else if arr.ArrayExpr? {
      AllMeant(arr.elements, scan, ps);
    } else if arr.ArrayCoerceExpr? {
      AllMeant(arr.arg.elements, scan, ps);
    }
  }

  lemma {:induction false} FunctionMeant(fn: Function, args: seq<Expr>, rtype: PgType, scan: Scan, ps: seq<Expr>)
    requires TranslatableFunction(fn, args, rtype) && AllReadable(args, scan)
    ensures ReadFunction(fn, args, scan, ps) == FunctionTree(fn, args, scan, ps) <==> AllIntact(args)
    decreases args, 1
  {
    if fn.name.Translate? {
      ThreeIntact(args);
      ReadableAt(args, 1, scan);
      ReadableAt(args, 2, scan);
      ReadIsMeant(args[0], scan, ps);
      ReadIsMeant(args[1], scan, ps);
      ReadIsMeant(args[2], scan, ps);
      TriplesEqual(Read(args[0], scan, ps), Read(args[2], scan, ps), Read(args[1], scan, ps),
                   Tr(args[0], scan, ps), Tr(args[2], scan, ps), Tr(args[1], scan, ps));
    } else if fn.name.DatePart? {
      ReadableAt(args, 1, scan);
      ReadIsMeant(args[1], scan, ps);
      TwoIntact(args);
    } else if !fn.name.Now? && !fn.name.TransactionTimestamp? {
      AllMeant(args, scan, ps);
    }
  }

  lemma TriplesEqual(a: Sql, b: Sql, c: Sql, d: Sql, e: Sql, f: Sql)
    ensures [a, b, c] == [d, e, f] <==> a == d && b == e && c == f
  {
    assert [a, b, c][0] == a && [a, b, c][1] == b && [a, b, c][2] == c;
    assert [d, e, f][0] == d && [d, e, f][1] == e && [d, e, f][2] == f;
  }

  lemma TwoIntact(es: seq<Expr>)
    requires |es| == 2
    ensures AllIntact(es) <==> Intact(es[0]) && Intact(es[1])
  {
    var rest := es[1..];
    assert rest[1..] == [] && rest[0] == es[1];
    assert AllIntact(rest) <==> Intact(rest[0]);
  }

  lemma ThreeIntact(es: seq<Expr>)
    requires |es| == 3
    ensures AllIntact(es) <==> Intact(es[0]) && Intact(es[1]) && Intact(es[2])
  {
    TwoIntact(es[1..]);
  }
}
