/** Index stability: while an expression is deparsed the parameter list only grows at its end, so
    every number printed early still names the same parameter when the list is complete. */
module ParamList {
  import opened Nodes
  import opened RemoteSql
  import opened Deparse

  /** A printed number names the entry it was printed for, in every longer list. */
  lemma {:induction false} IndexNamesParam(e: Expr, ps: seq<Expr>, final: seq<Expr>)
    requires e in ps && ps <= final
    ensures 1 <= ParamIndex(e, ps) <= |ps|
    ensures ParamIndex(e, final) == ParamIndex(e, ps)
    ensures final[ParamIndex(e, final) - 1] == e
  {
    if ps[0] != e {
      assert ps[1..] <= final[1..];
      IndexNamesParam(e, ps[1..], final[1..]);
    }
  }

  /** The text printed while the list was Params(e, ..) is the text under every longer list. */
  lemma {:induction false} TextStable(e: Expr, scan: Scan, ps: seq<Expr>, final: seq<Expr>)
    requires Params(e, scan, ps) <= final
    ensures Text(e, scan, final) == Text(e, scan, Params(e, scan, ps))
    decreases e, 1
  {
    var qs := Params(e, scan, ps);
    if Printable(e) {
      match e
      case Var(_, _, _, _, _) =>
        if !IsForeignVar(e, scan) {
          IndexNamesParam(e, qs, final);
        }
      case Const(_, _, _) =>
      case Param(_, _, _, _) =>
        IndexNamesParam(e, qs, final);
      case BinaryOp(_, _, l, r, _, _, _) =>
        TextStable(l, scan, ps, final);
        TextStable(l, scan, ps, qs);
        TextStable(r, scan, Params(l, scan, ps), final);
      case UnaryOp(_, _, a, _, _, _) =>
        TextStable(a, scan, ps, final);
      case DistinctExpr(_, _, l, r, _, _) =>
        TextStable(l, scan, ps, final);
        TextStable(l, scan, ps, qs);
        TextStable(r, scan, Params(l, scan, ps), final);
      case ScalarArrayOp(_, op, _, l, arr, _) =>
        var ls := Params(l, scan, ps);
        assert qs == ParamsOfArray(arr, scan, ls);
        TextStable(l, scan, ps, final);
        TextStable(l, scan, ps, qs);
        ArrayStable(op.left, arr, scan, ls, final);
      case NotExpr(a) =>
        TextStable(a, scan, ps, final);
      case AndOrExpr(isAnd, first, rest) =>
        var fs := Params(first, scan, ps);
        TextStable(first, scan, ps, final);
        TextStable(first, scan, ps, qs);
        TailStable(rest, Kw(if isAnd then AND else OR), scan, fs, final);
      case NullTest(a, _, _) =>
        TextStable(a, scan, ps, final);
      case RelabelType(a, _, _) =>
        TextStable(a, scan, ps, final);
      case CaseExpr(_, _, _, _, _) => CaseStable(e, scan, ps, final);
      case FuncExpr(fn, args, _, _, _) =>
        if fn.name.Translate? {
          ThreeIsList(args, scan, ps);
        }
        FunctionStable(fn, args, scan, ps, final);
      case ImplicitCast(_, first, _, _, _, _) =>
        TextStable(first, scan, ps, final);
      case Aggref(_, _, _, _, star, args, _, _, _, _) =>
        if !star {
          AggArgsStable(args, true, scan, ps, final);
        }
      case _ =>
    }
  }

  lemma {:induction false} TailStable(es: seq<Expr>, sep: Token, scan: Scan, ps: seq<Expr>, final: seq<Expr>)
    requires AllPrintable(es)
    requires ParamsOfList(es, scan, ps) <= final
    ensures ListTail(es, sep, scan, final) == ListTail(es, sep, scan, ParamsOfList(es, scan, ps))
    decreases es
  {
    if es != [] {
      var qs := Params(es[0], scan, ps);
      TextStable(es[0], scan, ps, final);
      TextStable(es[0], scan, ps, ParamsOfList(es, scan, ps));
      TailStable(es[1..], sep, scan, qs, final);
    }
  }

  lemma {:induction false} CommaStable(es: seq<Expr>, scan: Scan, ps: seq<Expr>, final: seq<Expr>)
    requires AllPrintable(es)
    requires ParamsOfList(es, scan, ps) <= final
    ensures CommaList(es, scan, final) == CommaList(es, scan, ParamsOfList(es, scan, ps))
    decreases es, 0
  {
    if es != [] {
      var qs := Params(es[0], scan, ps);
      TextStable(es[0], scan, ps, final);
      TextStable(es[0], scan, ps, ParamsOfList(es, scan, ps));
      TailStable(es[1..], Comma, scan, qs, final);
    }
  }

  lemma {:induction false} AggArgsStable(es: seq<Expr>, first: bool, scan: Scan, ps: seq<Expr>, final: seq<Expr>)
    requires AllPrintable(es)
    requires ParamsOfList(es, scan, ps) <= final
    ensures AggArgsText(es, first, scan, final) == AggArgsText(es, first, scan, ParamsOfList(es, scan, ps))
    decreases es
  {
    if es != [] {
      var qs := Params(es[0], scan, ps);
      TextStable(es[0], scan, ps, final);
      TextStable(es[0], scan, ps, ParamsOfList(es, scan, ps));
      AggArgsStable(es[1..], false, scan, qs, final);
    }
  }

  lemma {:induction false} CaseStable(e: Expr, scan: Scan, ps: seq<Expr>, final: seq<Expr>)
    requires e.CaseExpr? && Printable(e) && Params(e, scan, ps) <= final
    ensures Text(e, scan, final) == Text(e, scan, Params(e, scan, ps))
    decreases e, 0
  {
    var simple := e.casearg.Some?;
    var start := if simple then Params(e.casearg.value, scan, ps) else ps;
    var ws := ParamsOfWhens(e.whens, simple, scan, start);
    WhensStable(e.whens, simple, scan, start, final);
    WhensStable(e.whens, simple, scan, start, Params(e, scan, ps));
    if e.def.Some? {
      TextStable(e.def.value, scan, ws, final);
    }
  }

  lemma {:induction false} WhensStable(ws: seq<CaseWhen>, simple: bool, scan: Scan, ps: seq<Expr>, final: seq<Expr>)
    requires WhensPrintable(ws, simple)
    requires ParamsOfWhens(ws, simple, scan, ps) <= final
    ensures WhensText(ws, simple, scan, final) == WhensText(ws, simple, scan, ParamsOfWhens(ws, simple, scan, ps))
    decreases ws
  {
    if ws != [] {
      var qs := ParamsOfWhen(ws[0], simple, scan, ps);
      WhenStable(ws[0], simple, scan, ps, final);
      WhenStable(ws[0], simple, scan, ps, ParamsOfWhens(ws, simple, scan, ps));
      WhensStable(ws[1..], simple, scan, qs, final);
    }
  }

  lemma {:induction false} WhenStable(w: CaseWhen, simple: bool, scan: Scan, ps: seq<Expr>, final: seq<Expr>)
    requires WhenPrintable(w, simple)
    requires ParamsOfWhen(w, simple, scan, ps) <= final
    ensures WhenText(w, simple, scan, final) == WhenText(w, simple, scan, ParamsOfWhen(w, simple, scan, ps))
    decreases w
  {
    if simple {
      TextStable(w.cond.right, scan, ps, final);
      TextStable(w.cond.right, scan, ps, ParamsOfWhen(w, simple, scan, ps));
      TextStable(w.result, scan, Params(w.cond.right, scan, ps), final);
    } else {
      TextStable(w.cond, scan, ps, final);
      TextStable(w.cond, scan, ps, ParamsOfWhen(w, simple, scan, ps));
      TextStable(w.result, scan, Params(w.cond, scan, ps), final);
    }
  }

  lemma {:induction false} ArrayStable(elem: PgType, arr: Expr, scan: Scan, ps: seq<Expr>, final: seq<Expr>)
    requires ArrayPrintable(elem, arr)
    requires ParamsOfArray(arr, scan, ps) <= final
    ensures ArrayText(elem, arr, scan, final) == ArrayText(elem, arr, scan, ParamsOfArray(arr, scan, ps))
    decreases arr
  {
    match arr
    case ArrayExpr(es, _, _) => CommaStable(es, scan, ps, final);
    case ArrayCoerceExpr(a, _, _, _) => CommaStable(a.elements, scan, ps, final);
    case _ =>
  }

  lemma {:induction false} FunctionStable(fn: Function, args: seq<Expr>, scan: Scan, ps: seq<Expr>, final: seq<Expr>)
    requires AllPrintable(args)
    requires ParamsOfList(args, scan, ps) <= final
    ensures FunctionText(fn, args, scan, final) == FunctionText(fn, args, scan, ParamsOfList(args, scan, ps))
    decreases args, 1
  {
    CommaStable(args, scan, ps, final);
    forall i | 0 <= i < |args|
      ensures Text(args[i], scan, final) == Text(args[i], scan, ParamsOfList(args, scan, ps))
    {
      EachStable(args, i, scan, ps, final);
    }
  }

  lemma ThreeIsList(es: seq<Expr>, scan: Scan, ps: seq<Expr>)
    requires |es| == 3 && AllPrintable(es)
    ensures ParamsOfThree(es, scan, ps) == ParamsOfList(es, scan, ps)
  {
    var qs := Params(es[0], scan, ps);
    var rs := Params(es[1], scan, qs);
    assert es[1..][1..] == es[2..];
    assert ParamsOfList(es[2..], scan, rs) == Params(es[2], scan, rs) by {
      assert es[2..][1..] == [];
    }
    assert ParamsOfList(es[1..], scan, qs) == ParamsOfList(es[2..], scan, rs);
  }

  lemma {:induction false} EachStable(es: seq<Expr>, i: nat, scan: Scan, ps: seq<Expr>, final: seq<Expr>)
    requires AllPrintable(es) && i < |es|
    requires ParamsOfList(es, scan, ps) <= final
    ensures Text(es[i], scan, final) == Text(es[i], scan, ParamsOfList(es, scan, ps))
    decreases es, 0
  {
    var qs := Params(es[0], scan, ps);
    if i == 0 {
      TextStable(es[0], scan, ps, final);
      TextStable(es[0], scan, ps, ParamsOfList(es, scan, ps));
    } else {
      EachStable(es[1..], i - 1, scan, qs, final);
    }
  }
}
