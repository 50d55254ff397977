/** The expressions whose text DB2 can read, and among them those that the meaning theorems cover. */
module Fragment {
  import opened Nodes
  import opened RemoteSql
  import opened Deparse

  // ----- readable texts

  /** Every part but the first has a sign in front of it. */
  predicate AllSigned(ps: seq<Piece>) {
    ps == [] || (ps[0].sign.Some? && IsSign(ps[0].sign.value) && AllSigned(ps[1..]))
  }

  predicate Joined(ps: seq<Piece>) {
    ps != [] && AllSigned(ps[1..])
  }

  // The same, said of the numbers in the interval.

  predicate AnyPositive(parts: seq<(int, TimeUnit)>) {
    parts != [] && (parts[0].0 > 0 || AnyPositive(parts[1..]))
  }

  /** After the first positive part, every positive part is preceded by a positive sum. */
  predicate SumsStayPositive(parts: seq<(int, TimeUnit)>, sum: int, started: bool) {
    parts == []
    || ((started && parts[0].0 > 0 ==> sum > 0) && SumsStayPositive(parts[1..], sum + parts[0].0, started || parts[0].0 > 0))
  }

  predicate IntervalSound(iv: Interval) {
    AnyPositive(IntervalParts(iv)) && SumsStayPositive(IntervalParts(iv), 0, false)
  }

  lemma {:induction false} PiecesSigned(parts: seq<(int, TimeUnit)>, sum: int, sign: SqlOp)
    requires IsSign(sign)
    ensures AllSigned(Pieces(parts, sum, sign)) <==> SumsStayPositive(parts, sum, true)
    decreases |parts|
  {
    if parts != [] {
      var rest := Pieces(parts[1..], sum + parts[0].0, sign);
      PiecesSigned(parts[1..], sum + parts[0].0, sign);
      if parts[0].0 > 0 {
        assert Pieces(parts, sum, sign)[1..] == rest;
      } else {
        assert Pieces(parts, sum, sign) == rest;
      }
    }
  }

  lemma {:induction false} PiecesJoined(parts: seq<(int, TimeUnit)>, sum: int, sign: SqlOp)
    requires IsSign(sign)
    ensures Joined(Pieces(parts, sum, sign)) <==> AnyPositive(parts) && SumsStayPositive(parts, sum, false)
    decreases |parts|
  {
    if parts != [] {
      var rest := Pieces(parts[1..], sum + parts[0].0, sign);
      if parts[0].0 > 0 {
        PiecesSigned(parts[1..], sum + parts[0].0, sign);
        assert Pieces(parts, sum, sign)[1..] == rest;
      } else {
        PiecesJoined(parts[1..], sum + parts[0].0, sign);
        assert Pieces(parts, sum, sign) == rest;
      }
    }
  }

  /** An interval is printed with all its signs exactly when the sums of its numbers allow it. */
  lemma IntervalJoined(iv: Interval)
    requires IntervalPieces(iv).Some?
    ensures Joined(IntervalPieces(iv).value) <==> IntervalSound(iv)
  {
    PiecesJoined(IntervalParts(iv), 0, if IsNegative(iv) then OpSub else OpAdd);
  }

  lemma {:induction false} PositiveSums(parts: seq<(int, TimeUnit)>, sum: int, started: bool)
    requires forall i | 0 <= i < |parts| :: parts[i].0 >= 0
    requires sum >= 0 && (started ==> sum > 0)
    ensures SumsStayPositive(parts, sum, started)
    decreases |parts|
  {
    if parts != [] {
      PositiveSums(parts[1..], sum + parts[0].0, started || parts[0].0 > 0);
    }
  }

  /** Only negative years or months can be at fault. */
  lemma NonNegativeMonths(iv: Interval)
    requires iv.years >= 0 && iv.months >= 0 && IntervalPieces(iv).Some?
    ensures IntervalSound(iv) <==> AnyPositive(IntervalParts(iv))
  {
    PositiveSums(IntervalParts(iv), 0, false);
  }

  predicate DatumReadable(d: Datum) {
    d.Span? && IntervalPieces(d.iv).Some? ==> Joined(IntervalPieces(d.iv).value)
  }

  /** The text starts with a minus sign: a negative number, possibly below dropped casts. */
  predicate LeadsWithMinus(e: Expr)
    decreases e
  {
    match e
    case Const(t, _, d) => IsNumberLike(t) && ((d.Number? && d.r < 0.0) || (d.Special? && d.negative))
    case RelabelType(a, _, _) => LeadsWithMinus(a)
    case ImplicitCast(_, first, _, _, _, _) => LeadsWithMinus(first)
    case _ => false
  }

  /** The expression is printed, and its text is one that DB2 can parse: no operand is missing, no whole row
      and no qualified system column is in it, no minus sign stands directly in front of a negative
      number, and no sign is missing inside an interval. */
  predicate Readable(e: Expr, scan: Scan)
    decreases e
  {
    Printable(e) &&
    match e
    case Var(varno, attno, _, _, _) =>
      IsForeignVar(e, scan) ==> attno > 0 || attno == CTID || (attno < 0 && Qualifier(varno, scan).None?)
    case Const(_, _, d) => DatumReadable(d)
    case BinaryOp(_, _, l, r, _, _, _) => Readable(l, scan) && Readable(r, scan)
    case UnaryOp(name, _, a, _, _, _) => Readable(a, scan) && !(name.Minus? && LeadsWithMinus(a))
    case DistinctExpr(_, _, l, r, _, _) => Readable(l, scan) && Readable(r, scan)
    case ScalarArrayOp(_, op, _, l, arr, _) => Readable(l, scan) && ArrayReadable(op.left, arr, scan)
    case NotExpr(a) => Readable(a, scan)
    case AndOrExpr(_, first, rest) => Readable(first, scan) && AllReadable(rest, scan)
    case NullTest(a, _, _) => Readable(a, scan)
    case RelabelType(a, _, _) => Readable(a, scan)
    case CaseExpr(_, _, casearg, whens, def) =>
      whens != [] && WhensReadable(whens, casearg.Some?, scan) && (def.Some? ==> Readable(def.value, scan))
    case FuncExpr(_, args, _, _, _) => AllReadable(args, scan)
    case ImplicitCast(_, first, _, _, _, _) => Readable(first, scan)
    case Aggref(_, _, _, _, star, args, _, _, _, _) => star || (|args| == 1 && AllReadable(args, scan))
    case _ => true
  }

  predicate AllReadable(es: seq<Expr>, scan: Scan)
    decreases es
  {
    es == [] || (Readable(es[0], scan) && AllReadable(es[1..], scan))
  }

  predicate WhenReadable(w: CaseWhen, simple: bool, scan: Scan)
    decreases w
  {
    (if simple then w.cond.BinaryOp? && Readable(w.cond.right, scan) else Readable(w.cond, scan)) && Readable(w.result, scan)
  }

  predicate WhensReadable(ws: seq<CaseWhen>, simple: bool, scan: Scan)
    decreases ws
  {
    ws == [] || (WhenReadable(ws[0], simple, scan) && WhensReadable(ws[1..], simple, scan))
  }

  predicate ArrayReadable(elem: PgType, arr: Expr, scan: Scan)
    decreases arr
  {
    ArrayPrintable(elem, arr) &&
    match arr
    case Const(_, _, d) => d.Elements? ==> ElementsReadable(d.items, elem)
    case ArrayExpr(es, _, _) => AllReadable(es, scan)
    case ArrayCoerceExpr(a, _, _, _) => a.ArrayExpr? ==> AllReadable(a.elements, scan)
    case _ => true
  }

  predicate ElementReadable(d: Datum, elem: PgType) {
    ElementText(d, elem).Some? && ElementText(d, elem).value != [] && DatumReadable(d)
  }

  predicate ElementsReadable(ds: seq<Datum>, elem: PgType) {
    ds == [] || (ElementReadable(ds[0], elem) && ElementsReadable(ds[1..], elem))
  }

  lemma {:induction false} ReadableIsPrintable(es: seq<Expr>, scan: Scan)
    requires AllReadable(es, scan)
    ensures AllPrintable(es)
  {
    if es != [] {
      ReadableIsPrintable(es[1..], scan);
    }
  }

  lemma {:induction false} ReadableAt(es: seq<Expr>, i: nat, scan: Scan)
    requires AllReadable(es, scan) && i < |es|
    ensures Readable(es[i], scan)
  {
    if i > 0 {
      ReadableAt(es[1..], i - 1, scan);
    }
  }

  // ----- expressions that the meaning theorems cover

  /** Everything in the expression has a counterpart on DB2: columns that DB2 has, and CASE with conditions only. */
  predicate Faithful(e: Expr, scan: Scan)
    decreases e
  {
    match e
    case Var(_, attno, _, _, _) => IsForeignVar(e, scan) ==> attno > 0
    case BinaryOp(_, _, l, r, _, _, _) => Faithful(l, scan) && Faithful(r, scan)
    case UnaryOp(_, _, a, _, _, _) => Faithful(a, scan)
    case DistinctExpr(_, _, l, r, _, _) => Faithful(l, scan) && Faithful(r, scan)
    case ScalarArrayOp(_, _, _, l, arr, _) => Faithful(l, scan) && ArrayFaithful(arr, scan)
    case NotExpr(a) => Faithful(a, scan)
    case AndOrExpr(_, first, rest) => Faithful(first, scan) && AllFaithful(rest, scan)
    case NullTest(a, _, _) => Faithful(a, scan)
    case RelabelType(a, _, _) => Faithful(a, scan)
    case CaseExpr(_, _, casearg, whens, def) =>
      casearg.None? && WhensFaithful(whens, scan) && (def.Some? ==> Faithful(def.value, scan))
    case FuncExpr(_, args, _, _, _) => AllFaithful(args, scan)
    case ImplicitCast(_, first, _, _, _, _) => Faithful(first, scan)
    case Aggref(_, _, _, _, star, args, _, _, _, _) => star || AllFaithful(args, scan)
    case _ => true
  }

  predicate AllFaithful(es: seq<Expr>, scan: Scan)
    decreases es
  {
    es == [] || (Faithful(es[0], scan) && AllFaithful(es[1..], scan))
  }

  predicate WhenFaithful(w: CaseWhen, scan: Scan)
    decreases w
  {
    Faithful(w.cond, scan) && Faithful(w.result, scan)
  }

  predicate WhensFaithful(ws: seq<CaseWhen>, scan: Scan)
    decreases ws
  {
    ws == [] || (WhenFaithful(ws[0], scan) && WhensFaithful(ws[1..], scan))
  }

  predicate ArrayFaithful(arr: Expr, scan: Scan)
    decreases arr
  {
    match arr
    case ArrayExpr(es, _, _) => AllFaithful(es, scan)
    case ArrayCoerceExpr(a, _, _, _) => a.ArrayExpr? ==> AllFaithful(a.elements, scan)
    case _ => true
  }
}
