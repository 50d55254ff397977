/** Print/parse, the other direction: the text of a printed expression that is not readable holds a token, or
    neighbours, that no expression contains. Together: a text parses if and only if its expression is readable,
    and it parses to what is meant if and only if it is intact as well. */
module Spoiling {
  import opened Nodes
  import opened RemoteSql
  import opened Deparse
  import opened Fragment
  import opened Intervals
  import opened Grouping
  import opened RoundTrip

  // ----- spoilt parts spoil the whole

  lemma {:induction false} SpoiltBehind(x: seq<Token>, a: seq<Token>)
    requires Spoilt(a)
    ensures Spoilt(x + a)
  {
    if x == [] {
      assert x + a == a;
    } else {
      assert (x + a)[1..] == x[1..] + a;
      SpoiltBehind(x[1..], a);
    }
  }

  lemma {:induction false} SpoiltBefore(a: seq<Token>, y: seq<Token>)
    requires Spoilt(a)
    ensures Spoilt(a + y)
  {
    if SpoiltHere(a) {
      assert |a| > 4 ==> (a + y)[..4] == a[..4];
    } else {
      assert (a + y)[1..] == a[1..] + y;
      SpoiltBefore(a[1..], y);
    }
  }

  lemma SpoiltInside(x: seq<Token>, a: seq<Token>, y: seq<Token>)
    requires Spoilt(a)
    ensures Spoilt(x + a + y)
  {
    SpoiltBehind(x, a);
    SpoiltBefore(x + a, y);
  }

  lemma SpoiltBetween(x: seq<Token>, a: seq<Token>, y: seq<Token>, b: seq<Token>, z: seq<Token>)
    requires Spoilt(a) || Spoilt(b)
    ensures Spoilt(x + a + y + b + z)
  {
    if Spoilt(a) {
      SpoiltInside(x, a, y);
      SpoiltBefore(x + a + y, b);
      SpoiltBefore(x + a + y + b, z);
    } else {
      SpoiltInside(x + a + y, b, z);
    }
  }

  lemma ForeignSpoils(text: seq<Token>, i: nat)
    requires i < |text| && Foreign(text[i])
    ensures Spoilt(text)
    decreases i
  {
    if i > 0 {
      ForeignSpoils(text[1..], i - 1);
    }
  }

  // ----- operators

  lemma BinarySpoilt(name: BinName, l: seq<Token>, r: seq<Token>)
    requires Spoilt(l) || Spoilt(r)
    ensures Spoilt(BinaryText(name, l, r))
  {
    match name
    case Like => LikeSpoilt(false, l, r);
    case NotLike => LikeSpoilt(true, l, r);
    case ILike => UpperLikeSpoilt(false, l, r);
    case NotILike => UpperLikeSpoilt(true, l, r);
    case Pow => SpoiltBetween([Fn(F(Power)), LP], l, [Comma], r, [RP]);
    case Mod => SpoiltBetween([Fn(F(ModFn)), LP], l, [Comma], r, [RP]);
    case BitAnd => SpoiltBetween([Fn(BitAndFn), LP], l, [Comma], r, [RP]);
    case _ => SpoiltBetween([LP], l, [Op(SqlOpOf(name))], r, [RP]);
  }

  lemma LikeSpoilt(negated: bool, l: seq<Token>, r: seq<Token>)
    requires Spoilt(l) || Spoilt(r)
    ensures Spoilt(LikeText(negated, l, r))
  {
    if negated {
      SpoiltBetween([LP], l, [Kw(NOT), Kw(LIKE)], r, [Kw(ESCAPE), Str("\\"), RP]);
    } else {
      SpoiltBetween([LP], l, [Kw(LIKE)], r, [Kw(ESCAPE), Str("\\"), RP]);
    }
  }

  lemma UpperLikeSpoilt(negated: bool, l: seq<Token>, r: seq<Token>)
    requires Spoilt(l) || Spoilt(r)
    ensures Spoilt(LikeText(negated, UpperText(l), UpperText(r)))
  {
    if Spoilt(l) {
      SpoiltInside([Fn(F(Upper)), LP], l, [RP]);
    } else {
      SpoiltInside([Fn(F(Upper)), LP], r, [RP]);
    }
    LikeSpoilt(negated, UpperText(l), UpperText(r));
  }

  lemma UnarySpoilt(name: UnName, a: seq<Token>)
    requires Spoilt(a) || (name.Minus? && a != [] && a[0] == Op(OpSub))
    ensures Spoilt(UnaryText(name, a))
  {
    match name
    case SqrtOp => SpoiltInside([Fn(F(Sqrt)), LP], a, [RP]);
    case AbsOp => SpoiltInside([Fn(F(Abs)), LP], a, [RP]);
    case Minus =>
      if a != [] && a[0] == Op(OpSub) {
        ForeignSpoils([LP] + Glue(OpSub, a) + [RP], 1);
      } else {
        SpoiltBehind([Op(OpSub)], a);
        SpoiltInside([LP], [Op(OpSub)] + a, [RP]);
      }
    case _ =>
      SpoiltBehind([Op(OpAdd)], a);
      SpoiltInside([LP], [Op(OpAdd)] + a, [RP]);
  }

  // ----- constants

  predicate SignsOk(ps: seq<Piece>) {
    ps == [] || ((ps[0].sign.Some? ==> IsSign(ps[0].sign.value)) && SignsOk(ps[1..]))
  }

  lemma {:induction false} PiecesSigns(parts: seq<(int, TimeUnit)>, sum: int, sign: SqlOp)
    requires IsSign(sign)
    ensures SignsOk(Pieces(parts, sum, sign))
    decreases |parts|
  {
    if parts != [] {
      var rest := Pieces(parts[1..], sum + parts[0].0, sign);
      PiecesSigns(parts[1..], sum + parts[0].0, sign);
      if parts[0].0 > 0 {
        var ps := Pieces(parts, sum, sign);
        assert ps[1..] == rest;
      } else {
        assert Pieces(parts, sum, sign) == rest;
      }
    }
  }

  /** Two durations without a sign between them. */
  lemma {:induction false} MissingSign(d: Token, rest: seq<Piece>)
    requires d.Dur? && SignsOk(rest) && !AllSigned(rest)
    ensures Spoilt([d] + PieceText(rest))
    decreases |rest|
  {
    var next := Dur(rest[0].count, rest[0].unit);
    var more := PieceText(rest[1..]);
    if rest[0].sign.None? {
      assert PieceText(rest) == [next] + more;
      TwoSideBySide(d, next, more);
    } else {
      MissingSign(next, rest[1..]);
      var op := Op(rest[0].sign.value);
      assert PieceText(rest) == [op] + [next] + more;
      SpoiltLater(d, op, next, more);
    }
  }

  lemma SpoiltLater(d: Token, op: Token, next: Token, more: seq<Token>)
    requires Spoilt([next] + more)
    ensures Spoilt([d] + ([op] + [next] + more))
  {
    hide Spoilt;
    SpoiltBehind([d, op], [next] + more);
    assert [d, op] + ([next] + more) == [d] + ([op] + [next] + more);
  }

  lemma TwoSideBySide(d: Token, next: Token, more: seq<Token>)
    requires d.Dur? && next.Dur?
    ensures Spoilt([d] + ([next] + more))
  {
    var text := [d] + ([next] + more);
    assert text[0] == d && text[1] == next && SpoiltHere(text);
  }

  lemma IntervalSigns(iv: Interval)
    requires IntervalPieces(iv).Some?
    ensures SignsOk(IntervalPieces(iv).value)
  {
    PiecesSigns(IntervalParts(iv), 0, if IsNegative(iv) then OpSub else OpAdd);
  }

  lemma DatumSpoilt(d: Datum, t: PgType)
    requires DatumText(d, t).Some? && DatumText(d, t).value != [] && !DatumReadable(d)
    ensures Spoilt(DatumText(d, t).value)
  {
    var ps := IntervalPieces(d.iv).value;
    assert ps != [];
    IntervalSigns(d.iv);
    IntervalStarts(d.iv);
    MissingSign(Dur(ps[0].count, ps[0].unit), ps[1..]);
    assert PieceText(ps) == [Dur(ps[0].count, ps[0].unit)] + PieceText(ps[1..]);
  }

  /** An element without text leaves two commas, or a comma and a parenthesis, side by side. */
  lemma {:induction false} ElementsTailSpoilt(ds: seq<Datum>, t: PgType)
    requires ElementsRendered(ds, t) && !ElementsReadable(ds, t)
    ensures Spoilt(ElementsTail(ds, t) + [RP])
    decreases |ds|
  {
    var x := ElementText(ds[0], t).value;
    var rest := ElementsTail(ds[1..], t);
    var text := ElementsTail(ds, t) + [RP];
    assert text == [Comma] + x + (rest + [RP]);
    if !ElementReadable(ds[0], t) {
      if x == [] {
        assert text[0] == Comma && (text[1] == Comma || text[1] == RP);
        assert SpoiltHere(text);
      } else {
        DatumSpoilt(ds[0], t);
        SpoiltInside([Comma], x, rest + [RP]);
      }
    } else {
      ElementsTailSpoilt(ds[1..], t);
      SpoiltBehind([Comma] + x, rest + [RP]);
    }
  }

  /** A first item without text leaves a parenthesis and a comma, or nothing, in the list. */
  lemma ListSpoilt(x: seq<Token>, rest: seq<Token>)
    requires Spoilt(x) || Spoilt(rest + [RP]) || (x == [] && (rest == [] || rest[0] == Comma))
    ensures Spoilt([Kw(IN), LP] + (x + rest) + [RP])
  {
    var text := [Kw(IN), LP] + (x + rest) + [RP];
    if Spoilt(x) {
      SpoiltInside([Kw(IN), LP], x, rest + [RP]);
      assert text == [Kw(IN), LP] + x + (rest + [RP]);
    } else if Spoilt(rest + [RP]) {
      SpoiltBehind([Kw(IN), LP] + x, rest + [RP]);
      assert text == [Kw(IN), LP] + x + (rest + [RP]);
    } else if rest == [] {
      assert text == [Kw(IN), LP, RP];
      assert SpoiltHere(text);
    } else {
      assert text[1..][0] == LP && text[1..][1] == Comma;
      assert SpoiltHere(text[1..]);
    }
  }

  /** The list of items in its parentheses. */
  lemma ItemsSpoilt(ds: seq<Datum>, t: PgType)
    requires ds != [] && ElementsRendered(ds, t) && !ElementsReadable(ds, t)
    ensures Spoilt([Kw(IN), LP] + (ElementText(ds[0], t).value + ElementsTail(ds[1..], t)) + [RP])
  {
    hide Spoilt;
    var x := ElementText(ds[0], t).value;
    if ElementReadable(ds[0], t) {
      ElementsTailSpoilt(ds[1..], t);
    } else if x != [] {
      DatumSpoilt(ds[0], t);
    }
    ListSpoilt(x, ElementsTail(ds[1..], t));
  }

  // ----- expressions

  lemma VarSpoilt(e: Expr, scan: Scan, ps: seq<Expr>)
    requires e.Var? && !Readable(e, scan)
    ensures Spoilt(Text(e, scan, ps))
  {
    ForeignSpoils(Text(e, scan, ps), if e.attno == 0 then 0 else 2);
  }

  lemma ConstSpoilt(t: PgType, d: Datum)
    requires ConstText(t, d) != [] && !DatumReadable(d)
    ensures Spoilt(ConstText(t, d))
  {
    DatumSpoilt(d, t);
  }

  /** A printed expression that is not readable has a spoilt text. */
  lemma {:induction false} UnreadableIsSpoilt(e: Expr, scan: Scan, ps: seq<Expr>)
    requires Printable(e) && !Readable(e, scan)
    ensures Spoilt(Text(e, scan, ps))
    decreases e, 1
  {
    if e.Var? {
      VarSpoilt(e, scan, ps);
    } else if e.Const? {
      ConstSpoilt(e.ctype, e.datum);
    } else if e.RelabelType? {
      UnreadableIsSpoilt(e.arg, scan, ps);
    } else if e.ImplicitCast? {
      UnreadableIsSpoilt(e.first, scan, ps);
    } else if e.BinaryOp? || e.UnaryOp? || e.DistinctExpr? || e.ScalarArrayOp? {
      OperationSpoilt(e, scan, ps);
    } else if e.NotExpr? || e.AndOrExpr? || e.NullTest? {
      ConditionSpoilt(e, scan, ps);
    } else if e.CaseExpr? {
      CaseSpoilt(e, scan, ps);
    } else if e.FuncExpr? {
      FunctionSpoilt(e.fn, e.args, e.rtype, scan, ps);
    } else {
      AggregateSpoilt(e, scan, ps);
    }
  }

  lemma {:induction false} OperationSpoilt(e: Expr, scan: Scan, ps: seq<Expr>)
    requires e.BinaryOp? || e.UnaryOp? || e.DistinctExpr? || e.ScalarArrayOp?
    requires Printable(e) && !Readable(e, scan)
    ensures Spoilt(Text(e, scan, ps))
    decreases e, 0
  {
    if e.UnaryOp? {
      if Readable(e.arg, scan) {
        LeadingToken(e.arg, scan, ps);
      } else {
        UnreadableIsSpoilt(e.arg, scan, ps);
      }
      UnarySpoilt(e.uname, Text(e.arg, scan, ps));
    } else if e.ScalarArrayOp? {
      if Readable(e.left, scan) {
        ArraySpoilt(e.op.left, e.arr, e.useOr, Text(e.left, scan, ps), scan, ps);
      } else {
        UnreadableIsSpoilt(e.left, scan, ps);
        InSpoilt(e.useOr, Text(e.left, scan, ps), ArrayText(e.op.left, e.arr, scan, ps));
      }
    } else {
      if Readable(e.left, scan) {
        UnreadableIsSpoilt(e.right, scan, ps);
      } else {
        UnreadableIsSpoilt(e.left, scan, ps);
      }
      if e.BinaryOp? {
        BinarySpoilt(e.bname, Text(e.left, scan, ps), Text(e.right, scan, ps));
      } else {
        SpoiltBetween([LP], Text(e.left, scan, ps), [Kw(IS), Kw(DISTINCT), Kw(FROM)], Text(e.right, scan, ps), [RP]);
      }
    }
  }

  lemma InSpoilt(useOr: bool, l: seq<Token>, items: seq<Token>)
    requires Spoilt(l) || Spoilt(items) || Spoilt([Kw(IN), LP] + items + [RP])
    ensures Spoilt(InText(useOr, l, items))
  {
    var head := if useOr then [Kw(IN), LP] else [Kw(NOT), Kw(IN), LP];
    if Spoilt(l) || Spoilt(items) {
      SpoiltBetween([LP], l, head, items, [RP, RP]);
    } else {
      var front := [LP] + l + if useOr then [] else [Kw(NOT)];
      SpoiltInside(front, [Kw(IN), LP] + items + [RP], [RP]);
      assert InText(useOr, l, items) == front + ([Kw(IN), LP] + items + [RP]) + [RP];
    }
  }

  lemma {:induction false} ArraySpoilt(elem: PgType, arr: Expr, useOr: bool, l: seq<Token>, scan: Scan, ps: seq<Expr>)
    requires ArrayPrintable(elem, arr) && !ArrayReadable(elem, arr, scan)
    ensures Spoilt(InText(useOr, l, ArrayText(elem, arr, scan, ps)))
    decreases arr
  {
    var items := ArrayText(elem, arr, scan, ps);
    if arr.Const? {
      ItemsSpoilt(arr.datum.items, elem);
    } else if arr.ArrayExpr? {
      CommaSpoilt(arr.elements, scan, ps);
    } else {
      CommaSpoilt(arr.arg.elements, scan, ps);
    }
    InSpoilt(useOr, l, items);
  }

  lemma {:induction false} ConditionSpoilt(e: Expr, scan: Scan, ps: seq<Expr>)
    requires e.NotExpr? || e.AndOrExpr? || e.NullTest?
    requires Printable(e) && !Readable(e, scan)
    ensures Spoilt(Text(e, scan, ps))
    decreases e, 0
  {
    if e.NotExpr? {
      UnreadableIsSpoilt(e.arg, scan, ps);
      SpoiltInside([LP, Kw(NOT)], Text(e.arg, scan, ps), [RP]);
    } else if e.NullTest? {
      NullTestSpoilt(e.arg, e.isNull, e.plainForm, scan, ps);
    } else {
      var sep := Kw(if e.isAnd then AND else OR);
      var first, tail := Text(e.first, scan, ps), ListTail(e.rest, sep, scan, ps);
      if Readable(e.first, scan) {
        TailSpoilt(e.rest, sep, scan, ps);
        SpoiltInside([LP] + first, tail, [RP]);
      } else {
        UnreadableIsSpoilt(e.first, scan, ps);
        SpoiltInside([LP], first, tail);
        SpoiltBefore([LP] + first + tail, [RP]);
      }
    }
  }

  /** An operand without text leaves `( IS`. */
  lemma {:induction false} NullTestSpoilt(a: Expr, isNull: bool, plainForm: bool, scan: Scan, ps: seq<Expr>)
    requires !Readable(a, scan)
    ensures Spoilt(NullTestText(isNull, plainForm, Text(a, scan, ps)))
    decreases a, 2
  {
    if Printable(a) {
      UnreadableIsSpoilt(a, scan, ps);
      SpoiltInside([LP], Text(a, scan, ps), NullTestSuffix(isNull, plainForm));
    } else {
      var text := NullTestText(isNull, plainForm, []);
      assert text[0] == LP && text[1] == Kw(IS);
      assert SpoiltHere(text);
    }
  }

  lemma {:induction false} TailSpoilt(es: seq<Expr>, sep: Token, scan: Scan, ps: seq<Expr>)
    requires AllPrintable(es) && !AllReadable(es, scan)
    ensures Spoilt(ListTail(es, sep, scan, ps))
    decreases es
  {
    var x, rest := Text(es[0], scan, ps), ListTail(es[1..], sep, scan, ps);
    if Readable(es[0], scan) {
      TailSpoilt(es[1..], sep, scan, ps);
      SpoiltBehind([sep] + x, rest);
    } else {
      UnreadableIsSpoilt(es[0], scan, ps);
      SpoiltInside([sep], x, rest);
    }
  }

  lemma {:induction false} CommaSpoilt(es: seq<Expr>, scan: Scan, ps: seq<Expr>)
    requires AllPrintable(es) && !AllReadable(es, scan)
    ensures Spoilt(CommaList(es, scan, ps))
    decreases es, 0
  {
    var x, rest := Text(es[0], scan, ps), ListTail(es[1..], Comma, scan, ps);
    if Readable(es[0], scan) {
      TailSpoilt(es[1..], Comma, scan, ps);
      SpoiltBehind(x, rest);
    } else {
      UnreadableIsSpoilt(es[0], scan, ps);
      SpoiltBefore(x, rest);
    }
  }

  lemma {:induction false} CaseSpoilt(e: Expr, scan: Scan, ps: seq<Expr>)
    requires e.CaseExpr? && Printable(e) && !Readable(e, scan)
    ensures Spoilt(Text(e, scan, ps))
    decreases e, 0
  {
    var simple := e.casearg.Some?;
    var head, whens := CaseHead(simple), WhensText(e.whens, simple, scan, ps);
    if e.whens == [] {
      NoWhenSpoilt(simple, if e.def.Some? then Some(Text(e.def.value, scan, ps)) else None);
    } else if e.def.Some? {
      if WhensReadable(e.whens, simple, scan) {
        UnreadableIsSpoilt(e.def.value, scan, ps);
      } else {
        WhensSpoilt(e.whens, simple, scan, ps);
      }
      SpoiltBetween(head, whens, [Kw(ELSE)], Text(e.def.value, scan, ps), [Kw(END)]);
    } else {
      WhensSpoilt(e.whens, simple, scan, ps);
      SpoiltInside(head, whens, [Kw(END)]);
    }
  }

  /** A CASE without WHEN. */
  lemma NoWhenSpoilt(simple: bool, els: Option<seq<Token>>)
    ensures Spoilt(CaseText(simple, [], els))
  {
    var text := CaseText(simple, [], els);
    var n := if simple then 4 else 1;
    assert text[n] == if els.Some? then Kw(ELSE) else Kw(END);
    assert simple ==> text[..4] == [Kw(CASE), LP, Kw(NULL), RP];
    assert SpoiltHere(text);
  }

  lemma {:induction false} WhensSpoilt(ws: seq<CaseWhen>, simple: bool, scan: Scan, ps: seq<Expr>)
    requires WhensPrintable(ws, simple) && !WhensReadable(ws, simple, scan)
    ensures Spoilt(WhensText(ws, simple, scan, ps))
    decreases ws
  {
    var x, rest := WhenText(ws[0], simple, scan, ps), WhensText(ws[1..], simple, scan, ps);
    if WhenReadable(ws[0], simple, scan) {
      WhensSpoilt(ws[1..], simple, scan, ps);
      SpoiltBehind(x, rest);
    } else {
      WhenSpoilt(ws[0], simple, scan, ps);
      SpoiltBefore(x, rest);
    }
  }

  lemma {:induction false} WhenSpoilt(w: CaseWhen, simple: bool, scan: Scan, ps: seq<Expr>)
    requires WhenPrintable(w, simple) && !WhenReadable(w, simple, scan)
    ensures Spoilt(WhenText(w, simple, scan, ps))
    decreases w
  {
    if !Readable(w.result, scan) {
      UnreadableIsSpoilt(w.result, scan, ps);
    } else if simple {
      UnreadableIsSpoilt(w.cond.right, scan, ps);
    } else {
      UnreadableIsSpoilt(w.cond, scan, ps);
    }
    var c := if simple then Text(w.cond.right, scan, ps) else Text(w.cond, scan, ps);
    SpoiltBetween([Kw(WHEN)], c, [Kw(THEN)], Text(w.result, scan, ps), []);
    assert WhenText(w, simple, scan, ps) + [] == WhenText(w, simple, scan, ps);
  }

  lemma {:induction false} FunctionSpoilt(fn: Function, args: seq<Expr>, rtype: PgType, scan: Scan, ps: seq<Expr>)
    requires TranslatableFunction(fn, args, rtype) && AllPrintable(args) && !AllReadable(args, scan)
    ensures Spoilt(FunctionText(fn, args, scan, ps))
    decreases args, 1
  {
    if fn.name.Translate? {
      var i := SomeUnreadable(args, scan);
      UnreadableIsSpoilt(args[i], scan, ps);
      TranslateSpoilt(Text(args[0], scan, ps), Text(args[1], scan, ps), Text(args[2], scan, ps));
    } else if fn.name.DatePart? {
      var i := SomeUnreadable(args, scan);
      UnreadableIsSpoilt(args[1], scan, ps);
      SpoiltInside([Kw(EXTRACT), LP, Field(args[0].datum.s), Kw(FROM)], Text(args[1], scan, ps), [RP]);
    } else {
      CommaSpoilt(args, scan, ps);
      SpoiltInside([Fn(RemoteFn(fn.name)), LP], CommaList(args, scan, ps), [RP]);
    }
  }

  lemma TranslateSpoilt(source: seq<Token>, from: seq<Token>, to: seq<Token>)
    requires Spoilt(source) || Spoilt(from) || Spoilt(to)
    ensures Spoilt(TranslateText(source, from, to))
  {
    if Spoilt(from) {
      SpoiltInside([Fn(TranslateFn), LP] + source + [Comma] + to + [Comma], from, [RP]);
    } else {
      SpoiltBetween([Fn(TranslateFn), LP], source, [Comma], to, [Comma] + from + [RP]);
      assert TranslateText(source, from, to) == [Fn(TranslateFn), LP] + source + [Comma] + to + ([Comma] + from + [RP]);
    }
  }

  lemma {:induction false} SomeUnreadable(es: seq<Expr>, scan: Scan) returns (i: nat)
    requires AllPrintable(es) && !AllReadable(es, scan)
    ensures i < |es| && Printable(es[i]) && !Readable(es[i], scan)
  {
    if Readable(es[0], scan) {
      var j := SomeUnreadable(es[1..], scan);
      i := j + 1;
    } else {
      i := 0;
    }
  }

  /** An aggregate needs exactly one argument: none leaves empty parentheses, two leave a comma at the end. */
  lemma {:induction false} AggregateSpoilt(e: Expr, scan: Scan, ps: seq<Expr>)
    requires e.Aggref? && Printable(e) && !Readable(e, scan)
    ensures Spoilt(Text(e, scan, ps))
    decreases e, 0
  {
    var head := if e.distinct then [AggFn(e.agg), LP, Kw(DISTINCT)] else [AggFn(e.agg), LP];
    var args := AggArgsText(e.args, true, scan, ps);
    var text := head + args + [RP];
    if e.args == [] {
      if e.distinct {
        assert text[2..] == [Kw(DISTINCT), RP] && SpoiltHere(text[2..]);
        SpoiltBehind(text[..2], text[2..]);
        assert text == text[..2] + text[2..];
      } else {
        assert text == [AggFn(e.agg), LP, RP] && SpoiltHere(text);
      }
    } else if |e.args| == 1 {
      OneArgument(e.args, scan, ps);
      UnreadableIsSpoilt(e.args[0], scan, ps);
      SpoiltInside(head, args, [RP]);
    } else {
      EndsWithComma(e.args, scan, ps);
      var n := |head + args| - 1;
      assert text[n..] == [Comma, RP] && SpoiltHere(text[n..]);
      SpoiltBehind(text[..n], text[n..]);
      assert text == text[..n] + text[n..];
    }
  }

  lemma OneArgument(args: seq<Expr>, scan: Scan, ps: seq<Expr>)
    requires |args| == 1
    ensures AggArgsText(args, true, scan, ps) == Text(args[0], scan, ps)
    ensures AllPrintable(args) == Printable(args[0]) && AllReadable(args, scan) == Readable(args[0], scan)
  {
    assert args[1..] == [];
    assert AggArgsText(args[1..], false, scan, ps) == [];
  }

  lemma {:induction false} EndsWithComma(es: seq<Expr>, scan: Scan, ps: seq<Expr>)
    requires |es| > 1
    ensures var text := AggArgsText(es, true, scan, ps); text != [] && text[|text| - 1] == Comma
  {
    LaterEndsWithComma(es[1..], scan, ps);
  }

  lemma {:induction false} LaterEndsWithComma(es: seq<Expr>, scan: Scan, ps: seq<Expr>)
    requires es != []
    ensures var text := AggArgsText(es, false, scan, ps); text != [] && text[|text| - 1] == Comma
    decreases |es|
  {
    if |es| > 1 {
      LaterEndsWithComma(es[1..], scan, ps);
    }
  }

  // ----- print/parse

  lemma NothingFails()
    ensures ParseExpression([]) == None
  {
    var ts := Feed([], Done);
    assert ParseSign(ts) == None;
    assert ParseProduct(ts) == None;
    assert ParseSum(ts) == None;
    assert ParseNot(ts) == None;
    assert ParseAnd(ts) == None;
  }

  /** For every expression: its text parses if and only if the expression is readable, to what `Read` says;
      and it parses to what is meant if and only if, besides, the expression is intact. */
  lemma PrintParse(e: Expr, scan: Scan, ps: seq<Expr>)
    ensures ParseExpression(Text(e, scan, ps)) == if Readable(e, scan) then Some(Read(e, scan, ps)) else None
    ensures ParseExpression(Text(e, scan, ps)) == Some(Tr(e, scan, ps)) <==> Readable(e, scan) && Intact(e)
  {
    if Readable(e, scan) {
      ReadableParses(e, scan, ps);
      ReadIsMeant(e, scan, ps);
    } else if Printable(e) {
      UnreadableIsSpoilt(e, scan, ps);
      SpoiltFails(Text(e, scan, ps));
    } else {
      NothingFails();
    }
  }
}
