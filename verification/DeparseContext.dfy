/** The deparser as it runs: every function appends to the buffer of its context and to the parameter
    list that all contexts of one query share. Each is proved to append `Text` and to leave `Params`. */
module DeparseContext {
  import opened Nodes
  import opened RemoteSql
  import opened Deparse
  import opened ParamList
  import opened Sequences

  /** The list behind `params_list`. */
  class ParamsList {
    var items: seq<Expr>

    constructor ()
      ensures items == []
    {
      items := [];
    }

    /** The position of a parameter, which is appended when it is missing. */
    method FindOrAdd(e: Expr) returns (index: nat)
      modifies this
      ensures items == AddParam(e, old(items))
      ensures index == ParamIndex(e, items)
    {
      index := 1;
      while index <= |items| && items[index - 1] != e
        invariant 1 <= index <= |items| + 1
        invariant e !in items[..index - 1]
        invariant index - 1 + ParamIndex(e, items[index - 1..]) == ParamIndex(e, items)
      {
        assert items[index - 1..][1..] == items[index..];
        assert items[..index] == items[..index - 1] + [items[index - 1]];
        index := index + 1;
      }
      if index == |items| + 1 {
        assert items[..index - 1] == items;
        AddedLast(e, items);
        items := items + [e];
      }
    }
  }

  lemma {:induction false} AddedLast(e: Expr, ps: seq<Expr>)
    requires e !in ps
    ensures ParamIndex(e, ps + [e]) == |ps| + 1
  {
    if ps != [] {
      assert (ps + [e])[1..] == ps[1..] + [e];
      AddedLast(e, ps[1..]);
    }
  }

  // ----- nothing printed means an empty buffer

  lemma {:induction false} PrintableIsText(e: Expr, scan: Scan, ps: seq<Expr>)
    ensures Printable(e) <==> Text(e, scan, ps) != []
    decreases e
  {
    if e.RelabelType? {
      PrintableIsText(e.arg, scan, ps);
    } else if e.ImplicitCast? {
      PrintableIsText(e.first, scan, ps);
    } else if e.BinaryOp? || e.UnaryOp? {
      OperatorIsText(e, scan, ps);
    } else if e.FuncExpr? {
      FunctionIsText(e, scan, ps);
    }
  }

  lemma OperatorIsText(e: Expr, scan: Scan, ps: seq<Expr>)
    requires e.BinaryOp? || e.UnaryOp?
    ensures Printable(e) <==> Text(e, scan, ps) != []
  {
  }

  lemma FunctionIsText(e: Expr, scan: Scan, ps: seq<Expr>)
    requires e.FuncExpr?
    ensures Printable(e) <==> Text(e, scan, ps) != []
  {
    if Printable(e) {
      assert Text(e, scan, ps) == FunctionText(e.fn, e.args, scan, ps);
      assert FunctionText(e.fn, e.args, scan, ps) != [];
    }
  }

  class Context {
    const scan: Scan
    const params: ParamsList
    var buf: seq<Token>

    constructor (scan: Scan, params: ParamsList)
      ensures this.scan == scan && this.params == params && buf == []
    {
      this.scan := scan;
      this.params := params;
      buf := [];
    }

    /** `deparseExprInContext`: print into a buffer of its own. */
    method DeparseInContext(e: Expr) returns (text: Option<seq<Token>>)
      modifies params
      ensures params.items == Params(e, scan, old(params.items))
      ensures text == if Printable(e) then Some(Text(e, scan, params.items)) else None
      decreases e, 3
    {
      var child := new Context(scan, params);
      child.DeparseExpr(e);
      assert child.buf == Text(e, scan, params.items);
      PrintableIsText(e, scan, params.items);
      text := if child.buf == [] then None else Some(child.buf);
    }

    /** `deparseExprInt`. */
    method DeparseExpr(e: Expr)
      modifies this`buf, params
      ensures params.items == Params(e, scan, old(params.items))
      ensures buf == old(buf) + Text(e, scan, params.items)
      decreases e, 2
    {
      match e
      case Const(t, _, d) => DeparseConst(t, d);
      case Param(_, _, t, _) => DeparseParam(e);
      case Var(_, _, _, _, _) => DeparseVar(e);
      case BinaryOp(_, _, _, _, _, _, _) => DeparseBinary(e);
      case UnaryOp(_, _, _, _, _, _) => DeparseUnary(e);
      case ScalarArrayOp(_, _, _, _, _, _) => DeparseScalarArrayOp(e);
      case DistinctExpr(_, _, _, _, _, _) => DeparseDistinct(e);
      case NotExpr(_) => DeparseNot(e);
      case AndOrExpr(_, _, _) => DeparseAndOr(e);
      case RelabelType(a, _, _) => DeparseExpr(a);
      case CaseExpr(_, _, _, _, _) => DeparseCase(e);
      case NullTest(_, _, _) => DeparseNullTest(e);
      case FuncExpr(_, _, _, _, _) => DeparseFunc(e);
      case ImplicitCast(_, first, _, t, _, _) =>
        if CanHandleType(t) {
          DeparseExpr(first);
        }
      case Aggref(_, _, _, _, _, _, _, _, _, _) => DeparseAggref(e);
      case _ =>
    }

    method DeparseConst(t: PgType, d: Datum)
      modifies this`buf
      ensures buf == old(buf) + ConstText(t, d)
    {
      if d.NullDatum? {
        if CanHandleType(t) {
          buf := buf + [Kw(NULL)];
        }
      } else {
        var c := DatumText(d, t);
        if c.Some? {
          buf := buf + c.value;
        }
      }
    }

    method DeparseParam(e: Expr)
      requires e.Param?
      modifies this`buf, params
      ensures params.items == Params(e, scan, old(params.items))
      ensures buf == old(buf) + Text(e, scan, params.items)
    {
      if CanHandleType(e.ptype) && !e.ptype.Interval? {
        var index := params.FindOrAdd(e);
        buf := buf + ParamText(e.ptype, index);
      }
    }

    method DeparseVar(e: Expr)
      requires e.Var?
      modifies this`buf, params
      ensures params.items == Params(e, scan, old(params.items))
      ensures buf == old(buf) + Text(e, scan, params.items)
    {
      if IsForeignVar(e, scan) {
        buf := buf + ColumnText(e.varno, e.attno, scan);
      } else {
        var index := params.FindOrAdd(e);
        buf := buf + [Named(index)];
      }
    }

    method DeparseBinary(e: Expr)
      requires e.BinaryOp?
      modifies this`buf, params
      ensures params.items == Params(e, scan, old(params.items))
      ensures buf == old(buf) + Text(e, scan, params.items)
      decreases e, 1
    {
      if e.op.inPgCatalog && TranslatableBinary(e.bname, e.op) {
        var left := DeparseInContext(e.left);
        if left.Some? {
          ghost var ls := params.items;
          var right := DeparseInContext(e.right);
          TextStable(e.left, scan, old(params.items), params.items);
          if right.Some? {
            buf := buf + BinaryText(e.bname, left.value, right.value);
          }
        }
      }
    }

    method DeparseUnary(e: Expr)
      requires e.UnaryOp?
      modifies this`buf, params
      ensures params.items == Params(e, scan, old(params.items))
      ensures buf == old(buf) + Text(e, scan, params.items)
      decreases e, 1
    {
      if e.op.inPgCatalog && TranslatableUnary(e.uname, e.op) {
        var left := DeparseInContext(e.arg);
        if left.Some? {
          buf := buf + UnaryText(e.uname, left.value);
        }
      }
    }

    method DeparseDistinct(e: Expr)
      requires e.DistinctExpr?
      modifies this`buf, params
      ensures params.items == Params(e, scan, old(params.items))
      ensures buf == old(buf) + Text(e, scan, params.items)
      decreases e, 1
    {
      if CanHandleType(e.op.right) {
        var left := DeparseInContext(e.left);
        if left.Some? {
          var right := DeparseInContext(e.right);
          TextStable(e.left, scan, old(params.items), params.items);
          if right.Some? {
            buf := buf + DistinctText(left.value, right.value);
          }
        }
      }
    }

    /** The operand goes straight into this buffer, whether or not it prints anything. */
    method DeparseNullTest(e: Expr)
      requires e.NullTest?
      modifies this`buf, params
      ensures params.items == Params(e, scan, old(params.items))
      ensures buf == old(buf) + Text(e, scan, params.items)
      decreases e, 1
    {
      ghost var before := buf;
      buf := buf + [LP];
      DeparseExpr(e.arg);
      buf := buf + NullTestSuffix(e.isNull, e.plainForm);
      NullTestIs(e, before, scan, params.items);
    }

    method DeparseNot(e: Expr)
      requires e.NotExpr?
      modifies this`buf, params
      ensures params.items == Params(e, scan, old(params.items))
      ensures buf == old(buf) + Text(e, scan, params.items)
      decreases e, 1
    {
      var arg := DeparseInContext(e.arg);
      if arg.Some? {
        buf := buf + ([LP, Kw(NOT)] + arg.value + [RP]);
      }
    }

    /** `deparseBoolExpr` for AND and OR. */
    method DeparseAndOr(e: Expr)
      requires e.AndOrExpr?
      modifies this`buf, params
      ensures params.items == Params(e, scan, old(params.items))
      ensures buf == old(buf) + Text(e, scan, params.items)
      decreases e, 1
    {
      var first := DeparseInContext(e.first);
      if first.Some? {
        var others := DeparseOperands(e.rest, Kw(if e.isAnd then AND else OR));
        TextStable(e.first, scan, old(params.items), params.items);
        if others.Some? {
          buf := buf + ([LP] + first.value + others.value + [RP]);
        }
      }
    }

    /** The operands after the first; one that cannot be printed ends the loop. */
    method DeparseOperands(es: seq<Expr>, sep: Token) returns (text: Option<seq<Token>>)
      modifies params
      ensures params.items == ParamsOfList(es, scan, old(params.items))
      ensures text == if AllPrintable(es) then Some(ListTail(es, sep, scan, params.items)) else None
      decreases es
    {
      hide *;
      var out: seq<Token> := [];
      ghost var final := ParamsOfList(es, scan, params.items);
      ghost var whole := ListTail(es, sep, scan, final);
      var i := 0;
      assert es[0..] == es;
      while i < |es|
        invariant 0 <= i <= |es|
        invariant ParamsOfList(es[i..], scan, params.items) == final
        invariant AllPrintable(es) <==> AllPrintable(es[i..])
        invariant out + ListTail(es[i..], sep, scan, final) == whole
      {
        ghost var before := params.items;
        ListAt(es, i, scan, before);
        TailAt(es, i, sep, scan, final);
        var arg := DeparseInContext(es[i]);
        if arg.None? {
          return None;
        }
        TextStable(es[i], scan, before, final);
        Regroup(out, [sep] + arg.value, ListTail(es[i + 1..], sep, scan, final));
        out := out + ([sep] + arg.value);
        i := i + 1;
      }
      assert es[i..] == [] && out + [] == out;
      NoMore(sep, scan, params.items);
      text := Some(out);
    }

    /** A list separated by commas; the first element that cannot be printed ends it. */
    method DeparseList(es: seq<Expr>) returns (text: Option<seq<Token>>)
      modifies params
      ensures params.items == ParamsOfList(es, scan, old(params.items))
      ensures text == if AllPrintable(es) then Some(CommaList(es, scan, params.items)) else None
      decreases es, 0
    {
      hide *;
      var out: seq<Token> := [];
      ghost var final := ParamsOfList(es, scan, params.items);
      ghost var whole := CommaList(es, scan, final);
      CommaListIs(es, scan, final);
      var i := 0;
      assert es[0..] == es;
      while i < |es|
        invariant 0 <= i <= |es|
        invariant ParamsOfList(es[i..], scan, params.items) == final
        invariant AllPrintable(es) <==> AllPrintable(es[i..])
        invariant i == 0 ==> out == []
        invariant i > 0 ==> out + ListTail(es[i..], Comma, scan, final) == whole
      {
        ghost var before := params.items;
        ListAt(es, i, scan, before);
        TailAt(es, i, Comma, scan, final);
        var arg := DeparseInContext(es[i]);
        if arg.None? {
          return None;
        }
        TextStable(es[i], scan, before, final);
        Regroup(out, [Comma] + arg.value, ListTail(es[i + 1..], Comma, scan, final));
        out := if i == 0 then arg.value else out + ([Comma] + arg.value);
        i := i + 1;
      }
      assert es[i..] == [] && out + [] == out;
      NoMore(Comma, scan, params.items);
      text := Some(out);
    }

    method DeparseScalarArrayOp(e: Expr)
      requires e.ScalarArrayOp?
      modifies this`buf, params
      ensures params.items == Params(e, scan, old(params.items))
      ensures buf == old(buf) + Text(e, scan, params.items)
      decreases e, 1
    {
      if ArrayOpTried(e.sname, e.op, e.useOr) {
        var left := DeparseInContext(e.left);
        if left.Some? {
          ghost var ls := params.items;
          var items := DeparseArray(e.op.left, e.arr);
          TextStable(e.left, scan, old(params.items), params.items);
          if items.Some? {
            buf := buf + InText(e.useOr, left.value, items.value);
          }
        }
      }
    }

    /** The array operand: a constant array, an array constructor, or one below a binary coercion. */
    method DeparseArray(elem: PgType, arr: Expr) returns (text: Option<seq<Token>>)
      modifies params
      ensures params.items == ParamsOfArray(arr, scan, old(params.items))
      ensures text == if ArrayPrintable(elem, arr) then Some(ArrayText(elem, arr, scan, params.items)) else None
      decreases arr
    {
      hide Text, Params, Printable, ElementText, ElementsTail, ElementsRendered;
      text := None;
      if arr.Const? {
        if arr.datum.NullDatum? {
          text := Some([Kw(NULL)]);
        } else if arr.datum.Elements? {
          text := DeparseItems(arr.datum.items, elem);
        }
      } else if arr.ArrayCoerceExpr? {
        if arr.binaryOnly && arr.arg.ArrayExpr? {
          text := DeparseElements(arr.arg.elements);
        }
      } else if arr.ArrayExpr? {
        text := DeparseElements(arr.elements);
      }
    }

    /** An array constructor, unless it is empty. */
    method DeparseElements(es: seq<Expr>) returns (text: Option<seq<Token>>)
      modifies params
      ensures params.items == ParamsOfList(es, scan, old(params.items))
      ensures text == if es != [] && AllPrintable(es) then Some(CommaList(es, scan, params.items)) else None
      decreases es, 1
    {
      text := DeparseList(es);
      if es == [] {
        text := None;
      }
    }

    /** The elements of a constant array; an empty array is not printed. */
    method DeparseItems(ds: seq<Datum>, elem: PgType) returns (text: Option<seq<Token>>)
      ensures text == if ds != [] && ElementsRendered(ds, elem)
                      then Some(ElementText(ds[0], elem).value + ElementsTail(ds[1..], elem)) else None
    {
      hide *;
      var out: seq<Token> := [];
      ghost var rendered := ElementsRendered(ds, elem);
      ghost var whole := ItemsOf(ds, elem);
      ItemsAre(ds, elem);
      var i := 0;
      assert ds[0..] == ds;
      while i < |ds|
        invariant 0 <= i <= |ds|
        invariant rendered <==> ElementsRendered(ds[i..], elem)
        invariant i == 0 ==> out == []
        invariant i > 0 && rendered ==> out + ElementsTail(ds[i..], elem) == whole
      {
        ItemsAt(ds, i, elem);
        var c := ElementText(ds[i], elem);
        if c.None? {
          return None;
        }
        if i > 0 && rendered {
          Regroup(out, [Comma] + c.value, ElementsTail(ds[i + 1..], elem));
        }
        out := if i == 0 then c.value else out + ([Comma] + c.value);
        i := i + 1;
      }
      assert ds[i..] == [];
      NoMoreItems(elem);
      assert out + [] == out;
      text := if i == 0 then None else Some(out);
    }

    method DeparseCase(e: Expr)
      requires e.CaseExpr?
      modifies this`buf, params
      ensures params.items == Params(e, scan, old(params.items))
      ensures buf == old(buf) + Text(e, scan, params.items)
      decreases e, 1
    {
      if CanHandleType(e.casetype) {
        var simple := e.casearg.Some?;
        if simple {
          var arg := DeparseInContext(e.casearg.value);
          if arg.Some? {
            return;
          }
        }
        ghost var start := params.items;
        var whens := DeparseWhens(e.whens, simple);
        if whens.Some? {
          if e.def.Some? {
            var els := DeparseInContext(e.def.value);
            WhensStable(e.whens, simple, scan, start, params.items);
            if els.Some? {
              buf := buf + CaseText(simple, whens.value, els);
            }
          } else {
            buf := buf + CaseText(simple, whens.value, None);
          }
        }
      }
    }

    method DeparseWhens(ws: seq<CaseWhen>, simple: bool) returns (text: Option<seq<Token>>)
      modifies params
      ensures params.items == ParamsOfWhens(ws, simple, scan, old(params.items))
      ensures text == if WhensPrintable(ws, simple) then Some(WhensText(ws, simple, scan, params.items)) else None
      decreases ws
    {
      hide *;
      var out: seq<Token> := [];
      ghost var final := ParamsOfWhens(ws, simple, scan, params.items);
      ghost var whole := WhensText(ws, simple, scan, final);
      var i := 0;
      assert ws[0..] == ws;
      while i < |ws|
        invariant 0 <= i <= |ws|
        invariant ParamsOfWhens(ws[i..], simple, scan, params.items) == final
        invariant WhensPrintable(ws, simple) <==> WhensPrintable(ws[i..], simple)
        invariant out + WhensText(ws[i..], simple, scan, final) == whole
      {
        ghost var before := params.items;
        WhensAt(ws, i, simple, scan, before, final);
        var one := DeparseWhen(ws[i], simple);
        if one.None? {
          return None;
        }
        WhenStable(ws[i], simple, scan, before, final);
        Regroup(out, one.value, WhensText(ws[i + 1..], simple, scan, final));
        out := out + one.value;
        i := i + 1;
      }
      assert ws[i..] == [];
      NoWhens(simple, scan, params.items);
      assert out + [] == out;
      text := Some(out);
    }

    /** Of a comparison with the CASE argument only the right side is printed. (The walker lets nothing else
        stand there.) */
    method DeparseWhen(w: CaseWhen, simple: bool) returns (text: Option<seq<Token>>)
      modifies params
      ensures params.items == ParamsOfWhen(w, simple, scan, old(params.items))
      ensures text == if WhenPrintable(w, simple) then Some(WhenText(w, simple, scan, params.items)) else None
      decreases w
    {
      if simple && !w.cond.BinaryOp? {
        return None;
      }
      var tested := if simple then w.cond.right else w.cond;
      var cond := DeparseInContext(tested);
      if cond.None? {
        return None;
      }
      var result := DeparseInContext(w.result);
      TextStable(tested, scan, old(params.items), params.items);
      if result.None? {
        return None;
      }
      text := Some([Kw(WHEN)] + cond.value + [Kw(THEN)] + result.value);
    }

    method DeparseFunc(e: Expr)
      requires e.FuncExpr?
      modifies this`buf, params
      ensures params.items == Params(e, scan, old(params.items))
      ensures buf == old(buf) + Text(e, scan, params.items)
      decreases e, 1
    {
      if TranslatableFunction(e.fn, e.args, e.rtype) {
        if TranslatableNormalFunction(e.fn.name, |e.args|) {
          var args := DeparseList(e.args);
          if args.Some? {
            buf := buf + ([Fn(RemoteFn(e.fn.name)), LP] + args.value + [RP]);
          }
        } else if e.fn.name.Translate? {
          DeparseTranslate(e);
        } else if e.fn.name.DatePart? {
          DeparseExtract(e);
        } else {
          buf := buf + NOW_TEXT;
          assert Printable(e) && Text(e, scan, params.items) == FunctionText(e.fn, e.args, scan, params.items);
        }
      }
    }

    /** All three arguments are deparsed, then the last two change places. */
    method DeparseTranslate(e: Expr)
      requires e.FuncExpr? && TranslatableFunction(e.fn, e.args, e.rtype) && e.fn.name.Translate?
      modifies this`buf, params
      ensures params.items == Params(e, scan, old(params.items))
      ensures buf == old(buf) + Text(e, scan, params.items)
      decreases e, 0
    {
      ghost var ps := params.items;
      var source := DeparseInContext(e.args[0]);
      ghost var qs := params.items;
      var from := DeparseInContext(e.args[1]);
      ghost var rs := params.items;
      var to := DeparseInContext(e.args[2]);
      TextStable(e.args[0], scan, ps, params.items);
      TextStable(e.args[1], scan, qs, params.items);
      ThreePrintable(e.args);
      if source.Some? && from.Some? && to.Some? {
        buf := buf + TranslateText(source.value, from.value, to.value);
      }
    }

    /** The field loses its quotes. */
    method DeparseExtract(e: Expr)
      requires e.FuncExpr? && TranslatableFunction(e.fn, e.args, e.rtype) && e.fn.name.DatePart?
      modifies this`buf, params
      ensures params.items == Params(e, scan, old(params.items))
      ensures buf == old(buf) + Text(e, scan, params.items)
      decreases e, 0
    {
      ExtractIs(e, scan, params.items);
      var left := DeparseInContext(e.args[0]);
      if left.Some? && |left.value| == 1 && left.value[0].Str? && IsExtractField(left.value[0].s) {
        var right := DeparseInContext(e.args[1]);
        if right.Some? {
          buf := buf + ExtractText(left.value[0].s, right.value);
          ExtractTextIs(e, scan, params.items);
        }
      }
    }

    method DeparseAggref(e: Expr)
      requires e.Aggref?
      modifies this`buf, params
      ensures params.items == Params(e, scan, old(params.items))
      ensures buf == old(buf) + Text(e, scan, params.items)
      decreases e, 1
    {
      if !e.agg.OtherAgg? {
        if e.star {
          buf := buf + AggText(e.agg, e.distinct, [Op(OpMul)]);
        } else {
          var args := DeparseAggArgs(e.args);
          if args.Some? {
            buf := buf + AggText(e.agg, e.distinct, args.value);
          }
        }
      }
    }

    /** The comma goes behind every argument but the first. */
    method DeparseAggArgs(es: seq<Expr>) returns (text: Option<seq<Token>>)
      modifies params
      ensures params.items == ParamsOfList(es, scan, old(params.items))
      ensures text == if AllPrintable(es) then Some(AggArgsText(es, true, scan, params.items)) else None
      decreases es
    {
      hide *;
      var out: seq<Token> := [];
      ghost var final := ParamsOfList(es, scan, params.items);
      ghost var whole := AggArgsText(es, true, scan, final);
      var i := 0;
      assert es[0..] == es;
      while i < |es|
        invariant 0 <= i <= |es|
        invariant ParamsOfList(es[i..], scan, params.items) == final
        invariant AllPrintable(es) <==> AllPrintable(es[i..])
        invariant out + AggArgsText(es[i..], i == 0, scan, final) == whole
      {
        ghost var before := params.items;
        ListAt(es, i, scan, before);
        AggArgsAt(es, i, scan, final);
        var arg := DeparseInContext(es[i]);
        if arg.None? {
          return None;
        }
        TextStable(es[i], scan, before, final);
        ghost var one := arg.value + if i == 0 then [] else [Comma];
        Regroup(out, one, AggArgsText(es[i + 1..], false, scan, final));
        out := out + (arg.value + if i == 0 then [] else [Comma]);
        i := i + 1;
      }
      assert es[i..] == [];
      NoArgs(i == 0, scan, params.items);
      assert out + [] == out;
      text := Some(out);
    }

    method AppendCondition(e: Expr, first: bool)
      modifies this`buf, params
      ensures params.items == Params(e, scan, old(params.items))
      ensures buf == old(buf) + ((if first then [] else [Kw(AND)]) + ([LP] + Text(e, scan, params.items) + [RP]))
    {
      ghost var before, glue := buf, if first then [] else [Kw(AND)];
      if !first {
        buf := buf + [Kw(AND)];
      }
      buf := buf + [LP];
      DeparseExpr(e);
      buf := buf + [RP];
      InParens(before, glue, Text(e, scan, params.items));
    }

    /** `appendConditions`. */
    method AppendConditions(es: seq<Expr>)
      modifies this`buf, params
      ensures params.items == ParamsOfConditions(es, scan, old(params.items))
      ensures buf == old(buf) + ConditionsText(es, true, scan, params.items)
    {
      var i := 0;
      while i < |es|
        invariant 0 <= i <= |es|
        invariant params.items == ParamsOfConditions(es[..i], scan, old(params.items))
        invariant buf == old(buf) + ConditionsText(es[..i], true, scan, params.items)
      {
        ghost var done, before := es[..i], params.items;
        AppendCondition(es[i], i == 0);
        assert es[..i + 1] == done + [es[i]];
        OneMoreCondition(done, es[i], true, scan, old(params.items));
        Regroup(old(buf), ConditionsText(done, true, scan, before),
          (if i == 0 then [] else [Kw(AND)]) + ([LP] + Text(es[i], scan, params.items) + [RP]));
        i := i + 1;
      }
      assert es[..i] == es;
    }

    /** `appendWhereClause`, without the conditions of semi-joins: nothing at all for no conditions. */
    method AppendWhereClause(es: seq<Expr>)
      modifies this`buf, params
      ensures params.items == ParamsOfConditions(es, scan, old(params.items))
      ensures buf == old(buf) + if es == [] then [] else [Kw(WHERE)] + ConditionsText(es, true, scan, params.items)
    {
      if es != [] {
        buf := buf + [Kw(WHERE)];
        AppendConditions(es);
      }
    }
  }

  /** A condition printed after others leaves their text alone. */
  lemma {:induction false} OneMoreCondition(es: seq<Expr>, e: Expr, first: bool, scan: Scan, ps: seq<Expr>)
    ensures var qs := ParamsOfConditions(es, scan, ps);
      var rs := Params(e, scan, qs);
      && ParamsOfConditions(es + [e], scan, ps) == rs
      && ConditionsText(es + [e], first, scan, rs)
      == ConditionsText(es, first, scan, qs)
       + ((if es == [] && first then [] else [Kw(AND)]) + ([LP] + Text(e, scan, rs) + [RP]))
  {
    var qs := ParamsOfConditions(es, scan, ps);
    var rs := Params(e, scan, qs);
    if es == [] {
      assert es + [e] == [e];
      assert [e][1..] == [];
    } else {
      assert (es + [e])[1..] == es[1..] + [e];
      var next := Params(es[0], scan, ps);
      OneMoreCondition(es[1..], e, false, scan, next);
      TextStable(es[0], scan, ps, rs);
      TextStable(es[0], scan, ps, qs);
      var head := [LP] + Text(es[0], scan, qs) + [RP];
      var more := [Kw(AND)] + ([LP] + Text(e, scan, rs) + [RP]);
      Regroup(head, ConditionsText(es[1..], false, scan, qs), more);
      Regroup([Kw(AND)], head + ConditionsText(es[1..], false, scan, qs), more);
    }
  }

  lemma InParens(before: seq<Token>, glue: seq<Token>, text: seq<Token>)
    ensures before + glue + [LP] + text + [RP] == before + (glue + ([LP] + text + [RP]))
    ensures glue == [] ==> before + glue == before
  {
    Regroup(before, glue, [LP] + text + [RP]);
    assert before + glue + [LP] + text + [RP] == before + glue + ([LP] + text + [RP]);
  }

  /** The field of EXTRACT is always printed, and needs no parameter. */
  lemma ExtractIs(e: Expr, scan: Scan, ps: seq<Expr>)
    requires e.FuncExpr? && TranslatableFunction(e.fn, e.args, e.rtype) && e.fn.name.DatePart?
    ensures Printable(e) <==> Printable(e.args[1])
    ensures Params(e, scan, ps) == Params(e.args[1], scan, ps)
  {
    var field, rest := e.args[0], e.args[1..];
    assert rest[0] == e.args[1] && rest[1..] == [];
    assert Printable(field) && Params(field, scan, ps) == ps;
    assert AllPrintable(rest) <==> Printable(rest[0]);
    assert AllPrintable(e.args) <==> AllPrintable(rest);
    assert ParamsOfList(rest, scan, ps) == Params(rest[0], scan, ps);
    assert ParamsOfList(e.args, scan, ps) == ParamsOfList(rest, scan, ps);
  }

  lemma ExtractTextIs(e: Expr, scan: Scan, ps: seq<Expr>)
    requires e.FuncExpr? && TranslatableFunction(e.fn, e.args, e.rtype) && e.fn.name.DatePart? && Printable(e)
    ensures Text(e, scan, ps) == ExtractText(e.args[0].datum.s, Text(e.args[1], scan, ps))
  {
    assert Text(e, scan, ps) == FunctionText(e.fn, e.args, scan, ps);
  }

  // ----- one round of a loop

  lemma WhensAt(ws: seq<CaseWhen>, i: nat, simple: bool, scan: Scan, ps: seq<Expr>, qs: seq<Expr>)
    requires i < |ws|
    ensures WhensText(ws[i..], simple, scan, qs) == WhenText(ws[i], simple, scan, qs) + WhensText(ws[i + 1..], simple, scan, qs)
    ensures WhensPrintable(ws[i..], simple) <==> WhenPrintable(ws[i], simple) && WhensPrintable(ws[i + 1..], simple)
    ensures var rs := ParamsOfWhen(ws[i], simple, scan, ps);
      ParamsOfWhens(ws[i..], simple, scan, ps) == if WhenPrintable(ws[i], simple) then ParamsOfWhens(ws[i + 1..], simple, scan, rs) else rs
    ensures WhenPrintable(ws[i], simple) ==> ParamsOfWhen(ws[i], simple, scan, ps) <= ParamsOfWhens(ws[i..], simple, scan, ps)
  {
    assert ws[i..][1..] == ws[i + 1..];
  }

  lemma NoWhens(simple: bool, scan: Scan, ps: seq<Expr>)
    ensures WhensText([], simple, scan, ps) == [] && WhensPrintable([], simple) && ParamsOfWhens([], simple, scan, ps) == ps
  {
  }

  lemma ListAt(es: seq<Expr>, i: nat, scan: Scan, ps: seq<Expr>)
    requires i < |es|
    ensures AllPrintable(es[i..]) <==> Printable(es[i]) && AllPrintable(es[i + 1..])
    ensures var rs := Params(es[i], scan, ps);
      ParamsOfList(es[i..], scan, ps) == if Printable(es[i]) then ParamsOfList(es[i + 1..], scan, rs) else rs
    ensures Printable(es[i]) ==> Params(es[i], scan, ps) <= ParamsOfList(es[i..], scan, ps)
  {
    assert es[i..][1..] == es[i + 1..];
  }

  lemma TailAt(es: seq<Expr>, i: nat, sep: Token, scan: Scan, qs: seq<Expr>)
    requires i < |es|
    ensures ListTail(es[i..], sep, scan, qs) == [sep] + Text(es[i], scan, qs) + ListTail(es[i + 1..], sep, scan, qs)
  {
    assert es[i..][1..] == es[i + 1..];
  }

  lemma CommaListIs(es: seq<Expr>, scan: Scan, qs: seq<Expr>)
    ensures CommaList(es, scan, qs) == if es == [] then [] else Text(es[0], scan, qs) + ListTail(es[1..], Comma, scan, qs)
  {
  }

  lemma NoMore(sep: Token, scan: Scan, ps: seq<Expr>)
    ensures ListTail([], sep, scan, ps) == [] && AllPrintable([]) && ParamsOfList([], scan, ps) == ps
  {
  }

  lemma AggArgsAt(es: seq<Expr>, i: nat, scan: Scan, qs: seq<Expr>)
    requires i < |es|
    ensures AggArgsText(es[i..], i == 0, scan, qs)
         == Text(es[i], scan, qs) + (if i == 0 then [] else [Comma]) + AggArgsText(es[i + 1..], false, scan, qs)
  {
    assert es[i..][1..] == es[i + 1..];
  }

  lemma NoArgs(first: bool, scan: Scan, ps: seq<Expr>)
    ensures AggArgsText([], first, scan, ps) == [] && AllPrintable([]) && ParamsOfList([], scan, ps) == ps
  {
  }

  lemma ItemsAt(ds: seq<Datum>, i: nat, elem: PgType)
    requires i < |ds|
    ensures ElementsRendered(ds[i..], elem) <==> ElementText(ds[i], elem).Some? && ElementsRendered(ds[i + 1..], elem)
    ensures ElementsRendered(ds[i..], elem) ==>
      ElementsTail(ds[i..], elem) == [Comma] + ElementText(ds[i], elem).value + ElementsTail(ds[i + 1..], elem)
  {
    assert ds[i..][1..] == ds[i + 1..];
  }

  ghost function ItemsOf(ds: seq<Datum>, elem: PgType): seq<Token> {
    if ds != [] && ElementsRendered(ds, elem) then ElementText(ds[0], elem).value + ElementsTail(ds[1..], elem) else []
  }

  lemma ItemsAre(ds: seq<Datum>, elem: PgType)
    ensures ds != [] && ElementsRendered(ds, elem) ==> ItemsOf(ds, elem) == ElementText(ds[0], elem).value + ElementsTail(ds[1..], elem)
  {
  }

  lemma NoMoreItems(elem: PgType)
    ensures ElementsRendered([], elem) && ElementsTail([], elem) == []
  {
  }

  lemma NullTestIs(e: Expr, before: seq<Token>, scan: Scan, ps: seq<Expr>)
    requires e.NullTest?
    ensures before + [LP] + Text(e.arg, scan, ps) + NullTestSuffix(e.isNull, e.plainForm) == before + Text(e, scan, ps)
  {
    assert Text(e, scan, ps) == [LP] + Text(e.arg, scan, ps) + NullTestSuffix(e.isNull, e.plainForm);
    Regroup(before, [LP], Text(e.arg, scan, ps));
    Regroup(before, [LP] + Text(e.arg, scan, ps), NullTestSuffix(e.isNull, e.plainForm));
  }

  lemma ThreePrintable(es: seq<Expr>)
    requires |es| == 3
    ensures AllPrintable(es) <==> Printable(es[0]) && Printable(es[1]) && Printable(es[2])
  {
    assert es[2..][1..] == [];
    assert AllPrintable(es[2..]) <==> Printable(es[2]);
    assert es[1..][1..] == es[2..];
    assert AllPrintable(es[1..]) <==> Printable(es[1]) && AllPrintable(es[2..]);
  }
}
