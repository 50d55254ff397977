/** Print/parse: the text of every readable expression is one operand, which DB2 reads as `Read` says. */
module RoundTrip {
  import opened Nodes
  import opened RemoteSql
  import opened Deparse
  import opened Fragment
  import opened Intervals
  import opened Grouping
  import opened Denotation

  /** What a printed constant starts with. */
  lemma ConstLeading(t: PgType, d: Datum)
    requires ConstText(t, d) != [] && DatumReadable(d)
    ensures ConstText(t, d)[0] == Op(OpSub) <==> (IsNumberLike(t) && ((d.Number? && d.r < 0.0) || (d.Special? && d.negative)))
    ensures ConstText(t, d)[0] != Op(OpMul) && ConstText(t, d)[0] != Kw(DISTINCT)
  {
    if d.Span? {
      IntervalStarts(d.iv);
    }
  }

  /** What an operator's text starts with: a parenthesis or a function name. */
  lemma OperatorLeading(bname: BinName, uname: UnName, l: seq<Token>, r: seq<Token>)
    ensures BinaryText(bname, l, r) != [] && UnaryText(uname, l) != []
    ensures var t := BinaryText(bname, l, r)[0]; t.LP? || t.Fn?
    ensures var t := UnaryText(uname, l)[0]; t.LP? || t.Fn?
  {
  }

  lemma FunctionLeading(fn: Function, args: seq<Expr>, rtype: PgType, scan: Scan, ps: seq<Expr>)
    requires TranslatableFunction(fn, args, rtype)
    ensures FunctionText(fn, args, scan, ps) != []
    ensures var t := FunctionText(fn, args, scan, ps)[0]; t.LP? || t.Fn? || t == Kw(EXTRACT)
  {
  }

  /** What a printed text starts with. */
  lemma {:induction false} LeadingToken(e: Expr, scan: Scan, ps: seq<Expr>)
    requires Readable(e, scan)
    ensures Text(e, scan, ps) != []
    ensures Text(e, scan, ps)[0] == Op(OpSub) <==> LeadsWithMinus(e)
    ensures Text(e, scan, ps)[0] != Op(OpMul) && Text(e, scan, ps)[0] != Kw(DISTINCT)
    decreases e
  {
    match e
    case RelabelType(a, _, _) => LeadingToken(a, scan, ps);
    case ImplicitCast(_, first, _, _, _, _) => LeadingToken(first, scan, ps);
    case Const(t, _, d) => ConstLeading(t, d);
    case BinaryOp(name, _, l, r, _, _, _) => OperatorLeading(name, Plus, Text(l, scan, ps), Text(r, scan, ps));
    case UnaryOp(name, _, a, _, _, _) => OperatorLeading(Eq, name, Text(a, scan, ps), []);
    case FuncExpr(fn, args, t, _, _) => FunctionLeading(fn, args, t, scan, ps);
    case _ =>
  }

  /** The text of a readable expression is an operand, or an operand followed by durations. */
  lemma {:induction false} ExprReads(e: Expr, scan: Scan, ps: seq<Expr>)
    requires Readable(e, scan)
    ensures Chains(Text(e, scan, ps), ChainOf(e, scan, ps))
    decreases e, 2
  {
    if e.Const? {
      ConstReads(e.ctype, e.datum);
    } else if e.RelabelType? {
      ExprReads(e.arg, scan, ps);
    } else if e.ImplicitCast? {
      ExprReads(e.first, scan, ps);
    } else {
      OperandDenotes(e, scan, ps);
      OperandChains(Text(e, scan, ps), Read(e, scan, ps));
    }
  }

  lemma ConstReads(t: PgType, d: Datum)
    requires ConstText(t, d) != [] && DatumReadable(d)
    ensures Chains(ConstText(t, d), DatumChain(d, t))
  {
    if d.NullDatum? {
      NullDenotes();
      OperandChains([Kw(NULL)], NullLit);
    } else {
      DatumChains(d, t);
    }
  }

  /** Wherever a sum may stand, the expression is read as a whole. */
  lemma {:induction false} ExprSums(e: Expr, scan: Scan, ps: seq<Expr>)
    requires Readable(e, scan)
    ensures Sums(Text(e, scan, ps), Read(e, scan, ps))
    decreases e, 3
  {
    ExprReads(e, scan, ps);
    ChainsSum(Text(e, scan, ps), ChainOf(e, scan, ps));
    WholeIsRead(e, scan, ps);
  }

  /** Anything but a constant or a cast is one operand. */
  lemma {:induction false} OperandDenotes(e: Expr, scan: Scan, ps: seq<Expr>)
    requires Readable(e, scan) && !e.Const? && !e.RelabelType? && !e.ImplicitCast?
    ensures Denotes(Text(e, scan, ps), Read(e, scan, ps))
    decreases e, 1
  {
    if e.Var? {
      VarDenotes(e, scan, ps);
    } else if e.Param? {
      ParamDenotes(e.ptype, ParamIndex(e, ps));
    } else if e.NotExpr? || e.AndOrExpr? || e.NullTest? {
      ConditionDenotes(e, scan, ps);
    } else if e.CaseExpr? {
      CaseReads(e, scan, ps);
    } else if e.FuncExpr? {
      FunctionDenotes(e.fn, e.args, e.rtype, scan, ps);
    } else if e.Aggref? {
      if e.star {
        AggStarDenotes(e.agg, e.distinct);
      } else {
        AggregateDenotes(e.agg, e.distinct, e.args, scan, ps);
      }
    } else {
      OperationDenotes(e, scan, ps);
    }
  }

  lemma VarDenotes(e: Expr, scan: Scan, ps: seq<Expr>)
    requires e.Var? && Readable(e, scan)
    ensures Denotes(Text(e, scan, ps), Read(e, scan, ps))
  {
    if IsForeignVar(e, scan) {
      TokenDenotes(ColumnText(e.varno, e.attno, scan)[0], ColumnTree(e.varno, e.attno, scan));
    } else {
      TokenDenotes(Named(ParamIndex(e, ps)), NamedRef(ParamIndex(e, ps)));
    }
  }

  lemma {:induction false} OperationDenotes(e: Expr, scan: Scan, ps: seq<Expr>)
    requires e.BinaryOp? || e.UnaryOp? || e.DistinctExpr? || e.ScalarArrayOp?
    requires Readable(e, scan)
    ensures Denotes(Text(e, scan, ps), Read(e, scan, ps))
    decreases e, 0
  {
    match e
    case BinaryOp(name, _, l, r, _, _, _) =>
      ExprReads(l, scan, ps);
      ExprReads(r, scan, ps);
      BinaryDenotes(name, Text(l, scan, ps), ChainOf(l, scan, ps), Text(r, scan, ps), ChainOf(r, scan, ps));
    case UnaryOp(name, _, a, _, _, _) =>
      ExprReads(a, scan, ps);
      LeadingToken(a, scan, ps);
      UnaryDenotes(name, Text(a, scan, ps), ChainOf(a, scan, ps));
    case DistinctExpr(_, _, l, r, _, _) =>
      ExprSums(l, scan, ps);
      ExprSums(r, scan, ps);
      DistinctDenotes(Text(l, scan, ps), Read(l, scan, ps), Text(r, scan, ps), Read(r, scan, ps));
    case ScalarArrayOp(_, op, useOr, l, arr, _) =>
      ExprSums(l, scan, ps);
      ArrayDenotes(op.left, arr, scan, ps);
      InDenotes(useOr, Text(l, scan, ps), Read(l, scan, ps), ArrayText(op.left, arr, scan, ps), ReadArray(op.left, arr, scan, ps));
  }

  lemma {:induction false} ConditionDenotes(e: Expr, scan: Scan, ps: seq<Expr>)
    requires e.NotExpr? || e.AndOrExpr? || e.NullTest?
    requires Readable(e, scan)
    ensures Denotes(Text(e, scan, ps), Read(e, scan, ps))
    decreases e, 0
  {
    match e
    case NotExpr(a) =>
      ExprSums(a, scan, ps);
      NotDenotes(Text(a, scan, ps), Read(a, scan, ps));
    case AndOrExpr(isAnd, first, rest) =>
      ExprSums(first, scan, ps);
      if isAnd {
        AndsDenote(rest, scan, ps);
        AndDenotes(Text(first, scan, ps), Read(first, scan, ps), ListTail(rest, Kw(AND), scan, ps), ReadAll(rest, scan, ps));
      } else {
        OrsDenote(rest, scan, ps);
        OrDenotes(Text(first, scan, ps), Read(first, scan, ps), ListTail(rest, Kw(OR), scan, ps), ReadAll(rest, scan, ps));
      }
    case NullTest(a, isNull, plainForm) =>
      ExprSums(a, scan, ps);
      NullTestDenotes(isNull, plainForm, Text(a, scan, ps), Read(a, scan, ps));
  }

  lemma {:induction false} CaseReads(e: Expr, scan: Scan, ps: seq<Expr>)
    requires e.CaseExpr? && Readable(e, scan)
    ensures Denotes(Text(e, scan, ps), Read(e, scan, ps))
    decreases e, 0
  {
    var simple := e.casearg.Some?;
    var wt, ws := WhensText(e.whens, simple, scan, ps), ReadWhens(e.whens, simple, scan, ps);
    WhenListDenotes(e.whens, simple, scan, ps);
    if e.def.Some? {
      ExprSums(e.def.value, scan, ps);
      CaseElseDenotes(simple, wt, ws, Text(e.def.value, scan, ps), Read(e.def.value, scan, ps));
    } else {
      CaseDenotes(simple, wt, ws);
    }
  }

  lemma {:induction false} AggregateDenotes(agg: AggName, distinct: bool, args: seq<Expr>, scan: Scan, ps: seq<Expr>)
    requires |args| == 1 && AllReadable(args, scan)
    ensures Denotes(AggText(agg, distinct, AggArgsText(args, true, scan, ps)), Aggregate(agg, distinct, false, ReadAll(args, scan, ps), None))
    decreases args
  {
    ExprSums(args[0], scan, ps);
    LeadingToken(args[0], scan, ps);
    AggDenotes(agg, distinct, Text(args[0], scan, ps), Read(args[0], scan, ps));
    assert args[1..] == [];
    assert AggArgsText(args, true, scan, ps) == Text(args[0], scan, ps);
    assert ReadAll(args, scan, ps) == [Read(args[0], scan, ps)];
  }

  lemma {:induction false} CommaTailDenotes(es: seq<Expr>, scan: Scan, ps: seq<Expr>)
    requires AllReadable(es, scan)
    ensures TailDenotes(ListTail(es, Comma, scan, ps), ReadAll(es, scan, ps))
    decreases es
  {
    if es == [] {
      NoItems();
    } else {
      ExprSums(es[0], scan, ps);
      CommaTailDenotes(es[1..], scan, ps);
      MoreItems(Text(es[0], scan, ps), Read(es[0], scan, ps), ListTail(es[1..], Comma, scan, ps), ReadAll(es[1..], scan, ps));
    }
  }

  lemma {:induction false} CommaListDenotes(es: seq<Expr>, scan: Scan, ps: seq<Expr>)
    requires es != [] && AllReadable(es, scan)
    ensures ItemsDenote(CommaList(es, scan, ps), ReadAll(es, scan, ps))
    decreases es, 0
  {
    ExprSums(es[0], scan, ps);
    CommaTailDenotes(es[1..], scan, ps);
    FirstItem(Text(es[0], scan, ps), Read(es[0], scan, ps), ListTail(es[1..], Comma, scan, ps), ReadAll(es[1..], scan, ps));
  }

  lemma {:induction false} AndsDenote(es: seq<Expr>, scan: Scan, ps: seq<Expr>)
    requires AllReadable(es, scan)
    ensures AndTailDenotes(ListTail(es, Kw(AND), scan, ps), ReadAll(es, scan, ps))
    decreases es
  {
    if es != [] {
      ExprSums(es[0], scan, ps);
      AndsDenote(es[1..], scan, ps);
      MoreAnds(Text(es[0], scan, ps), Read(es[0], scan, ps), ListTail(es[1..], Kw(AND), scan, ps), ReadAll(es[1..], scan, ps));
    }
  }

  lemma {:induction false} OrsDenote(es: seq<Expr>, scan: Scan, ps: seq<Expr>)
    requires AllReadable(es, scan)
    ensures OrTailDenotes(ListTail(es, Kw(OR), scan, ps), ReadAll(es, scan, ps))
    decreases es
  {
    if es != [] {
      ExprSums(es[0], scan, ps);
      OrsDenote(es[1..], scan, ps);
      MoreOrs(Text(es[0], scan, ps), Read(es[0], scan, ps), ListTail(es[1..], Kw(OR), scan, ps), ReadAll(es[1..], scan, ps));
    }
  }

  lemma {:induction false} WhenListDenotes(ws: seq<CaseWhen>, simple: bool, scan: Scan, ps: seq<Expr>)
    requires WhensReadable(ws, simple, scan)
    ensures WhensDenote(WhensText(ws, simple, scan, ps), ReadWhens(ws, simple, scan, ps))
    ensures ws != [] ==> WhensText(ws, simple, scan, ps) != [] && WhensText(ws, simple, scan, ps)[0] == Kw(WHEN)
    decreases ws
  {
    if ws != [] {
      WhenListDenotes(ws[1..], simple, scan, ps);
      OneWhenDenotes(ws[0], simple, WhensText(ws[1..], simple, scan, ps), ReadWhens(ws[1..], simple, scan, ps), scan, ps);
    }
  }

  lemma {:induction false} OneWhenDenotes(w: CaseWhen, simple: bool, rest: seq<Token>, trees: seq<SqlWhen>, scan: Scan, ps: seq<Expr>)
    requires WhenReadable(w, simple, scan)
    requires WhensDenote(rest, trees) && (rest != [] ==> rest[0] == Kw(WHEN))
    ensures WhensDenote(WhenText(w, simple, scan, ps) + rest, [ReadWhen(w, simple, scan, ps)] + trees)
    ensures WhenText(w, simple, scan, ps) != [] && WhenText(w, simple, scan, ps)[0] == Kw(WHEN)
    decreases w
  {
    ExprSums(w.result, scan, ps);
    var rt, r := Text(w.result, scan, ps), Read(w.result, scan, ps);
    if simple {
      ExprSums(w.cond.right, scan, ps);
      MoreWhens(Text(w.cond.right, scan, ps), Read(w.cond.right, scan, ps), rt, r, rest, trees);
    } else {
      ExprSums(w.cond, scan, ps);
      MoreWhens(Text(w.cond, scan, ps), Read(w.cond, scan, ps), rt, r, rest, trees);
    }
  }

  lemma {:induction false} ElementsAreRendered(ds: seq<Datum>, t: PgType)
    requires ElementsReadable(ds, t)
    ensures ElementsRendered(ds, t)
  {
    if ds != [] {
      ElementsAreRendered(ds[1..], t);
    }
  }

  lemma ItemListDenotes(ds: seq<Datum>, t: PgType)
    requires ds != [] && ElementsReadable(ds, t) && ElementsRendered(ds, t)
    ensures ItemsDenote(ElementText(ds[0], t).value + ElementsTail(ds[1..], t), DatumTrees(ds, t))
  {
    ElementSums(ds[0], t);
    ElementsTailDenotes(ds[1..], t);
    FirstItem(ElementText(ds[0], t).value, DatumTree(ds[0], t), ElementsTail(ds[1..], t), DatumTrees(ds[1..], t));
  }

  lemma {:induction false} ArrayDenotes(elem: PgType, arr: Expr, scan: Scan, ps: seq<Expr>)
    requires ArrayReadable(elem, arr, scan)
    ensures ItemsDenote(ArrayText(elem, arr, scan, ps), ReadArray(elem, arr, scan, ps))
    decreases arr
  {
    match arr
    case Const(_, _, d) =>
      if d.NullDatum? {
        NullDenotes();
        DenotesSums([Kw(NULL)], NullLit);
        OneItem([Kw(NULL)], NullLit);
      } else {
        ItemListDenotes(d.items, elem);
      }
    case ArrayExpr(es, _, _) =>
      CommaListDenotes(es, scan, ps);
    case ArrayCoerceExpr(a, _, _, _) =>
      CommaListDenotes(a.elements, scan, ps);
  }

  lemma NowDenotes()
    ensures Denotes(NOW_TEXT, CastTo(NowRef, TimestampType))
  {
    WrappedCast(NowMarker, NowRef, TimestampType);
  }

  lemma {:induction false} FunctionDenotes(fn: Function, args: seq<Expr>, rtype: PgType, scan: Scan, ps: seq<Expr>)
    requires TranslatableFunction(fn, args, rtype) && AllReadable(args, scan)
    ensures Denotes(FunctionText(fn, args, scan, ps), ReadFunction(fn, args, scan, ps))
    decreases args, 1
  {
    if fn.name.Translate? {
      ReadableAt(args, 1, scan);
      ReadableAt(args, 2, scan);
      ExprSums(args[0], scan, ps);
      ExprSums(args[1], scan, ps);
      ExprSums(args[2], scan, ps);
      TranslateDenotes(Text(args[0], scan, ps), Read(args[0], scan, ps), Text(args[1], scan, ps), Read(args[1], scan, ps),
                       Text(args[2], scan, ps), Read(args[2], scan, ps));
    } else if fn.name.DatePart? {
      ReadableAt(args, 1, scan);
      ExprSums(args[1], scan, ps);
      ExtractDenotes(args[0].datum.s, Text(args[1], scan, ps), Read(args[1], scan, ps));
    } else if fn.name.Now? || fn.name.TransactionTimestamp? {
      NowDenotes();
    } else if args == [] {
      CallNothing(RemoteFn(fn.name));
    } else {
      CommaListDenotes(args, scan, ps);
      CallDenotes(RemoteFn(fn.name), CommaList(args, scan, ps), ReadAll(args, scan, ps));
    }
  }

  /** A whole text that is read. */
  lemma ReadableParses(e: Expr, scan: Scan, ps: seq<Expr>)
    requires Readable(e, scan)
    ensures ParseExpression(Text(e, scan, ps)) == Some(Read(e, scan, ps))
  {
    ExprSums(e, scan, ps);
    SumToOr(Feed(Text(e, scan, ps), Done), Read(e, scan, ps), Done);
  }
}
