/** Walker and deparser agree: the text of an accepted expression is one that DB2 can parse exactly when it has
    none of the gaps listed in `NoGap`, which only mentions what the walker does not check. */
module Agreement {
  import opened Nodes
  import opened RemoteSql
  import opened Deparse
  import opened Fragment
  import opened Grouping
  import opened Spoiling
  import opened Walker

  /** What the walker lets through although its text is missing or cannot be parsed: whole rows, constants and
      parameters of other types (booleans among them), intervals without text or without a sign between their
      parts, interval parameters, operators outside pg_catalog, a minus sign before a negative number, array
      comparisons other than IN and NOT IN over a non-empty list, a CASE whose argument is printed, a CASE of
      another type, and arrays and subscripts on their own. */
  predicate NoGap(e: Expr, scan: Scan)
    decreases e
  {
    match e
    case Var(_, attno, _, _, _) => IsForeignVar(e, scan) ==> attno != 0
    case Const(t, _, d) => CanHandleType(t) && (d.Span? ==> IntervalSound(d.iv))
    case Param(_, _, t, _) => CanHandleType(t) && !t.Interval?
    case BinaryOp(_, op, l, r, _, _, _) => op.inPgCatalog && NoGap(l, scan) && NoGap(r, scan)
    case UnaryOp(name, op, a, _, _, _) => op.inPgCatalog && NoGap(a, scan) && !(name.Minus? && LeadsWithMinus(a))
    case DistinctExpr(_, _, l, r, _, _) => NoGap(l, scan) && NoGap(r, scan)
    case ScalarArrayOp(name, op, useOr, l, arr, _) =>
      && op.inPgCatalog && CanHandleType(op.left) && ((name.Eq? && useOr) || (name.Ne? && !useOr))
      && NoGap(l, scan) && ArrayNoGap(op.left, arr, scan)
    case NotExpr(a) => NoGap(a, scan)
    case AndOrExpr(_, first, rest) => NoGap(first, scan) && AllNoGap(rest, scan)
    case NullTest(a, _, _) => NoGap(a, scan)
    case RelabelType(a, _, _) => NoGap(a, scan)
    case CaseExpr(t, _, casearg, whens, def) =>
      && CanHandleType(t) && (casearg.Some? ==> !Printable(casearg.value))
      && whens != [] && WhensNoGap(whens, casearg.Some?, scan) && (def.Some? ==> NoGap(def.value, scan))
    case FuncExpr(_, args, _, _, _) => AllNoGap(args, scan)
    case ImplicitCast(_, first, _, _, _, _) => NoGap(first, scan)
    case Aggref(_, _, _, _, star, args, _, _, _, _) => star || (|args| == 1 && AllNoGap(args, scan))
    case _ => false
  }

  predicate AllNoGap(es: seq<Expr>, scan: Scan)
    decreases es
  {
    es == [] || (NoGap(es[0], scan) && AllNoGap(es[1..], scan))
  }

  predicate WhensNoGap(ws: seq<CaseWhen>, simple: bool, scan: Scan)
    decreases ws
  {
    ws == [] || (WhenNoGap(ws[0], simple, scan) && WhensNoGap(ws[1..], simple, scan))
  }

  predicate WhenNoGap(w: CaseWhen, simple: bool, scan: Scan)
    decreases w
  {
    (if simple then w.cond.BinaryOp? && NoGap(w.cond.right, scan) else NoGap(w.cond, scan)) && NoGap(w.result, scan)
  }

  predicate ArrayNoGap(elem: PgType, arr: Expr, scan: Scan)
    decreases arr
  {
    match arr
    case Const(_, _, d) => d.NullDatum? || (d.Elements? && d.items != [] && ElementsReadable(d.items, elem))
    case ArrayExpr(es, _, _) => es != [] && AllNoGap(es, scan)
    case ArrayCoerceExpr(a, _, _, _) => a.ArrayExpr? && a.elements != [] && AllNoGap(a.elements, scan)
    case _ => true
  }

  lemma {:induction false} ReadableElementsRender(ds: seq<Datum>, elem: PgType)
    requires ElementsReadable(ds, elem)
    ensures ElementsRendered(ds, elem)
  {
    if ds != [] {
      ReadableElementsRender(ds[1..], elem);
    }
  }

  lemma ConstAgrees(e: Expr, scan: Scan)
    requires e.Const? && ConstAccepted(e.ctype, e.datum)
    ensures Readable(e, scan) <==> NoGap(e, scan)
  {
    var d := e.datum;
    if CanHandleType(e.ctype) && d.Span? {
      IntervalJoined(d.iv);
      if IntervalPieces(d.iv).value != [] {
        assert PieceText(IntervalPieces(d.iv).value) != [];
      }
    }
  }

  /** The agreement, for every expression the walker accepts. */
  lemma {:induction false} WalkerDeparserAgree(e: Expr, g: Glob, caseArg: Option<Loc>, scan: Scan)
    requires Walk(e, g, caseArg).Some? && g.relids == scan.relids
    ensures Readable(e, scan) <==> NoGap(e, scan)
    decreases e, 1
  {
    hide ConstText, DatumText, TranslatableFunction, ElementsRendered;
    if e.Const? {
      ConstAgrees(e, scan);
    } else if e.BinaryOp? || e.DistinctExpr? {
      WalkerDeparserAgree(e.left, g, caseArg, scan);
      WalkerDeparserAgree(e.right, g, caseArg, scan);
    } else if e.ScalarArrayOp? {
      WalkerDeparserAgree(e.left, g, caseArg, scan);
      ArrayAgrees(e.op.left, e.arr, g, caseArg, scan);
    } else if e.UnaryOp? || e.NotExpr? || e.NullTest? || e.RelabelType? {
      WalkerDeparserAgree(e.arg, g, caseArg, scan);
    } else if e.AndOrExpr? {
      WalkerDeparserAgree(e.first, g, caseArg, scan);
      ListAgrees(e.rest, g, caseArg, Merge(NO_COLLATION, Walk(e.first, g, caseArg).value), scan);
    } else if e.CaseExpr? {
      CaseAgrees(e, g, caseArg, scan);
    } else if e.FuncExpr? || e.Aggref? {
      ListAgrees(e.args, g, caseArg, NO_COLLATION, scan);
    } else if e.ImplicitCast? {
      WalkerDeparserAgree(e.first, g, caseArg, scan);
    }
  }

  lemma {:induction false} ListAgrees(es: seq<Expr>, g: Glob, caseArg: Option<Loc>, acc: Loc, scan: Scan)
    requires WalkAll(es, g, caseArg, acc).Some? && g.relids == scan.relids
    ensures AllReadable(es, scan) <==> AllNoGap(es, scan)
    ensures AllReadable(es, scan) ==> AllPrintable(es)
    decreases es
  {
    if es != [] {
      WalkerDeparserAgree(es[0], g, caseArg, scan);
      ListAgrees(es[1..], g, caseArg, Merge(acc, Walk(es[0], g, caseArg).value), scan);
    }
  }

  lemma {:induction false} ArrayAgrees(elem: PgType, arr: Expr, g: Glob, caseArg: Option<Loc>, scan: Scan)
    requires ArrayShapeAccepted(arr) && Walk(arr, g, caseArg).Some? && g.relids == scan.relids
    ensures ArrayReadable(elem, arr, scan) <==> ArrayNoGap(elem, arr, scan)
    decreases arr, 0
  {
    if arr.Const? {
      if arr.datum.Elements? && ElementsReadable(arr.datum.items, elem) {
        ReadableElementsRender(arr.datum.items, elem);
      }
    } else if arr.ArrayExpr? {
      ListAgrees(arr.elements, g, caseArg, NO_COLLATION, scan);
    } else if arr.arg.ArrayExpr? {
      ListAgrees(arr.arg.elements, g, caseArg, NO_COLLATION, scan);
    }
  }

  lemma {:induction false} CaseAgrees(e: Expr, g: Glob, caseArg: Option<Loc>, scan: Scan)
    requires e.CaseExpr? && Walk(e, g, caseArg).Some? && g.relids == scan.relids
    ensures Readable(e, scan) <==> NoGap(e, scan)
    decreases e, 0
  {
    var inside := WalkOption(e.casearg, g, caseArg, NO_COLLATION).value;
    WhensAgree(e.whens, e.casearg.Some?, g, caseArg, inside, NO_COLLATION, scan);
    if e.def.Some? {
      WalkerDeparserAgree(e.def.value, g, caseArg, scan);
    }
  }

  lemma {:induction false} WhensAgree(ws: seq<CaseWhen>, simple: bool, g: Glob, caseArg: Option<Loc>, inside: Loc, acc: Loc, scan: Scan)
    requires WalkWhens(ws, g, caseArg, inside, acc).Some? && g.relids == scan.relids
    ensures WhensReadable(ws, simple, scan) <==> WhensNoGap(ws, simple, scan)
    ensures WhensReadable(ws, simple, scan) ==> WhensPrintable(ws, simple)
    decreases ws
  {
    if ws != [] {
      WhenAgrees(ws[0], simple, g, caseArg, inside, acc, scan);
      WhensAgree(ws[1..], simple, g, caseArg, inside, WalkWhen(ws[0], g, caseArg, inside, acc).value, scan);
    }
  }

  lemma {:induction false} WhenAgrees(w: CaseWhen, simple: bool, g: Glob, caseArg: Option<Loc>, inside: Loc, acc: Loc, scan: Scan)
    requires WalkWhen(w, g, caseArg, inside, acc).Some? && g.relids == scan.relids
    ensures WhenReadable(w, simple, scan) <==> WhenNoGap(w, simple, scan)
    ensures WhenReadable(w, simple, scan) ==> WhenPrintable(w, simple)
    decreases w
  {
    WalkerDeparserAgree(w.result, g, caseArg, scan);
    if simple {
      if w.cond.BinaryOp? {
        WalkerDeparserAgree(w.cond.right, g, Some(inside), scan);
      }
    } else {
      WalkerDeparserAgree(w.cond, g, Some(inside), scan);
    }
  }

  /** For every accepted expression: DB2 parses its text if and only if it has no gap, and reads what is meant if
      and only if it is intact as well. */
  lemma AcceptedParses(e: Expr, g: Glob, scan: Scan, ps: seq<Expr>)
    requires IsForeignExpr(e, g, false) && g.relids == scan.relids
    ensures ParseExpression(Text(e, scan, ps)) == if NoGap(e, scan) then Some(Read(e, scan, ps)) else None
    ensures ParseExpression(Text(e, scan, ps)) == Some(Tr(e, scan, ps)) <==> NoGap(e, scan) && Intact(e)
  {
    WalkerDeparserAgree(e, g, None, scan);
    PrintParse(e, scan, ps);
  }
}
