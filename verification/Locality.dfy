/** An expression that reads columns of some relations only has the same value in every row that agrees on
    those columns. This is why a condition on one side of a join may be checked on the joined row. */
module Locality {
  import opened Nodes
  import opened Meaning

  /** Every column of this query level belongs to one of the relations. */
  predicate OnlyReads(e: Expr, rels: set<nat>)
    decreases e
  {
    match e
    case Var(varno, _, levelsup, _, _) => levelsup == 0 ==> varno in rels
    case BinaryOp(_, _, l, r, _, _, _) => OnlyReads(l, rels) && OnlyReads(r, rels)
    case UnaryOp(_, _, a, _, _, _) => OnlyReads(a, rels)
    case DistinctExpr(_, _, l, r, _, _) => OnlyReads(l, rels) && OnlyReads(r, rels)
    case ScalarArrayOp(_, _, _, l, arr, _) => OnlyReads(l, rels) && OnlyReads(arr, rels)
    case NotExpr(a) => OnlyReads(a, rels)
    case AndOrExpr(_, first, rest) => OnlyReads(first, rels) && AllOnlyRead(rest, rels)
    case NullTest(a, _, _) => OnlyReads(a, rels)
    case RelabelType(a, _, _) => OnlyReads(a, rels)
    case ArrayCoerceExpr(a, _, _, _) => OnlyReads(a, rels)
    case CaseExpr(_, _, casearg, whens, def) =>
      && (casearg.Some? ==> OnlyReads(casearg.value, rels)) && WhensOnlyRead(whens, rels)
      && (def.Some? ==> OnlyReads(def.value, rels))
    case ArrayExpr(es, _, _) => AllOnlyRead(es, rels)
    case FuncExpr(_, args, _, _, _) => AllOnlyRead(args, rels)
    case ImplicitCast(_, first, rest, _, _, _) => OnlyReads(first, rels) && AllOnlyRead(rest, rels)
    case Aggref(_, _, _, _, _, args, filter, _, _, _) =>
      AllOnlyRead(args, rels) && (filter.Some? ==> OnlyReads(filter.value, rels))
    case _ => true
  }

  predicate AllOnlyRead(es: seq<Expr>, rels: set<nat>)
    decreases es
  {
    es == [] || (OnlyReads(es[0], rels) && AllOnlyRead(es[1..], rels))
  }

  predicate WhenOnlyReads(w: CaseWhen, rels: set<nat>)
    decreases w
  {
    OnlyReads(w.cond, rels) && OnlyReads(w.result, rels)
  }

  predicate WhensOnlyRead(ws: seq<CaseWhen>, rels: set<nat>)
    decreases ws
  {
    ws == [] || (WhenOnlyReads(ws[0], rels) && WhensOnlyRead(ws[1..], rels))
  }

  /** Both environments know the relations and agree on their columns, and on everything but rows. */
  ghost predicate Alike(a: Env, b: Env, rels: set<nat>) {
    && rels <= a.relids && rels <= b.relids
    && (forall varno: nat, attno: int | varno in rels :: a.row(varno, attno) == b.row(varno, attno))
    && a.group == b.group && a.outer == b.outer && a.caseVal == b.caseVal
  }

  lemma {:induction false} SameValue(e: Expr, rels: set<nat>, a: Env, b: Env, pg: PgSemantics)
    requires OnlyReads(e, rels) && Alike(a, b, rels)
    ensures EvalPg(e, a, pg) == EvalPg(e, b, pg)
    decreases e, 1
  {
    match e
    case BinaryOp(_, _, l, r, _, _, _) =>
      SameValue(l, rels, a, b, pg);
      SameValue(r, rels, a, b, pg);
    case UnaryOp(_, _, x, _, _, _) => SameValue(x, rels, a, b, pg);
    case DistinctExpr(_, _, l, r, _, _) =>
      SameValue(l, rels, a, b, pg);
      SameValue(r, rels, a, b, pg);
    case ScalarArrayOp(_, op, _, l, arr, _) =>
      SameValue(l, rels, a, b, pg);
      SameArray(op.left, arr, rels, a, b, pg);
    case NotExpr(x) => SameValue(x, rels, a, b, pg);
    case AndOrExpr(_, first, rest) =>
      SameValue(first, rels, a, b, pg);
      SameValues(rest, rels, a, b, pg);
    case NullTest(x, _, _) => SameValue(x, rels, a, b, pg);
    case RelabelType(x, _, _) => SameValue(x, rels, a, b, pg);
    case CaseExpr(_, _, _, _, _) => SameCase(e, rels, a, b, pg);
    case FuncExpr(_, args, _, _, _) => SameValues(args, rels, a, b, pg);
    case ImplicitCast(_, first, rest, _, _, _) =>
      SameValue(first, rels, a, b, pg);
      SameValues(rest, rels, a, b, pg);
    case Aggref(_, _, _, _, _, _, _, _, _, _) => SameGroup(e, a.group, rels, a, b, pg);
    case _ =>
  }

  lemma {:induction false} SameValues(es: seq<Expr>, rels: set<nat>, a: Env, b: Env, pg: PgSemantics)
    requires AllOnlyRead(es, rels) && Alike(a, b, rels)
    ensures EvalPgs(es, a, pg) == EvalPgs(es, b, pg)
    decreases es
  {
    if es != [] {
      SameValue(es[0], rels, a, b, pg);
      SameValues(es[1..], rels, a, b, pg);
    }
  }

  lemma {:induction false} SameArray(elem: PgType, arr: Expr, rels: set<nat>, a: Env, b: Env, pg: PgSemantics)
    requires OnlyReads(arr, rels) && Alike(a, b, rels)
    ensures EvalArray(elem, arr, a, pg) == EvalArray(elem, arr, b, pg)
    decreases arr, 0
  {
    hide EvalPg;
    if arr.ArrayExpr? {
      SameValues(arr.elements, rels, a, b, pg);
    } else if arr.ArrayCoerceExpr? && arr.arg.ArrayExpr? {
      assert OnlyReads(arr.arg, rels);
      SameValues(arr.arg.elements, rels, a, b, pg);
    }
  }

  lemma {:induction false} SameCase(e: Expr, rels: set<nat>, a: Env, b: Env, pg: PgSemantics)
    requires e.CaseExpr? && OnlyReads(e, rels) && Alike(a, b, rels)
    ensures EvalPg(e, a, pg) == EvalPg(e, b, pg)
    decreases e, 0
  {
    var insideA, insideB := a, b;
    if e.casearg.Some? {
      SameValue(e.casearg.value, rels, a, b, pg);
      insideA := a.(caseVal := EvalPg(e.casearg.value, a, pg));
      insideB := b.(caseVal := EvalPg(e.casearg.value, b, pg));
    }
    SameWhens(e.whens, rels, a, b, insideA, insideB, pg);
    if e.def.Some? {
      SameValue(e.def.value, rels, a, b, pg);
    }
  }

  lemma {:induction false} SameWhens(ws: seq<CaseWhen>, rels: set<nat>, a: Env, b: Env, insideA: Env, insideB: Env, pg: PgSemantics)
    requires WhensOnlyRead(ws, rels) && Alike(a, b, rels) && Alike(insideA, insideB, rels)
    ensures EvalWhens(ws, a, insideA, pg) == EvalWhens(ws, b, insideB, pg)
    decreases ws
  {
    if ws != [] {
      SameWhen(ws[0], rels, a, b, insideA, insideB, pg);
      SameWhens(ws[1..], rels, a, b, insideA, insideB, pg);
    }
  }

  lemma {:induction false} SameWhen(w: CaseWhen, rels: set<nat>, a: Env, b: Env, insideA: Env, insideB: Env, pg: PgSemantics)
    requires WhenOnlyReads(w, rels) && Alike(a, b, rels) && Alike(insideA, insideB, rels)
    ensures EvalWhenCond(w, insideA, pg) == EvalWhenCond(w, insideB, pg)
    ensures EvalWhenResult(w, a, pg) == EvalWhenResult(w, b, pg)
    decreases w
  {
    SameValue(w.cond, rels, insideA, insideB, pg);
    SameValue(w.result, rels, a, b, pg);
  }

  /** An aggregate sees the rows of the group only. */
  lemma {:induction false} SameGroup(e: Expr, rows: seq<Row>, rels: set<nat>, a: Env, b: Env, pg: PgSemantics)
    requires e.Aggref? && OnlyReads(e, rels) && Alike(a, b, rels)
    ensures EvalGroup(e, a, rows, pg) == EvalGroup(e, b, rows, pg)
    decreases e, 0, |rows|
  {
    if rows != [] {
      var hereA, hereB := a.(row := rows[0]), b.(row := rows[0]);
      SameValues(e.args, rels, hereA, hereB, pg);
      if e.filter.Some? {
        SameValue(e.filter.value, rels, hereA, hereB, pg);
      }
      SameGroup(e, rows[1..], rels, a, b, pg);
    }
  }
}
