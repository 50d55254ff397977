/** What may stand in a shipped expression, said by the names in PostgreSQL's catalogs, and that the walker's test of a
    node is exactly that. */
module Rules {
  import opened Nodes
  import opened Names
  import opened Deparse
  import opened Walker

  predicate Handled(t: PgType) {
    PgTypeName(t) in SHIPPED_TYPES
  }

  /** A constant of a handled type has a text if its value is of that kind, no empty string, and no interval of mixed signs. */
  predicate HasText(t: PgType, d: Datum) {
    var name := PgTypeName(t);
    || (name in TEXT_TYPES && d.Chars? && d.s != "")
    || (name in NUMBER_TYPES && (d.Number? || d.Special?))
    || (name in MOMENT_TYPES && d.Moment?)
    || (name == "interval" && d.Span? && !MixedSigns(d.iv))
  }

  predicate MixedSigns(iv: Interval) {
    var ns := {iv.days, iv.hours, iv.minutes, iv.seconds, if iv.seen then iv.fraction else 0};
    (exists n | n in ns :: n < 0) && (exists n | n in ns :: n > 0)
  }

  predicate OperatorRule(name: string, names: set<string>, op: Operator) {
    && op.oid < 10_000 && name in names && Handled(op.right)
    && !(PgTypeName(op.left) == "interval" && PgTypeName(op.right) == "interval")
    && !(name == "-" && PgTypeName(op.right) in NOT_SUBTRACTED)
  }

  /** Normal functions, SUBSTRING with three arguments, TRANSLATE, EXTRACT of a known field, and the transaction's start. */
  predicate FunctionRule(name: string, args: seq<Expr>) {
    || name in SHIPPED_FUNCTIONS
    || (name in {"substring", "translate"} && |args| == 3)
    || (name in {"now", "transaction_timestamp"} && |args| == 0)
    || (name == "date_part" && |args| == 2 && args[0].Const? && PgTypeName(args[0].ctype) == "text"
        && args[0].datum.Chars? && args[0].datum.s in EXTRACT_FIELDS)
  }

  predicate IsList(e: Expr) {
    e.Const? || e.ArrayExpr?
  }

  /** The argument of the enclosing CASE, possibly below casts that are dropped. */
  predicate IsArgument(e: Expr)
    decreases e
  {
    || e.CaseTestExpr?
    || (e.RelabelType? && IsArgument(e.arg)) || (e.ImplicitCast? && IsArgument(e.first)) || (e.ArrayCoerceExpr? && IsArgument(e.arg))
  }

  lemma {:induction false} ArgumentRule(e: Expr)
    ensures StripCasts(e).CaseTestExpr? <==> IsArgument(e)
    decreases e
  {
    if e.RelabelType? || e.ArrayCoerceExpr? {
      ArgumentRule(e.arg);
    } else if e.ImplicitCast? {
      ArgumentRule(e.first);
    }
  }

  lemma ComparisonRule(cond: Expr)
    ensures ComparesCaseArg(cond) <==> cond.BinaryOp? && IsArgument(cond.left)
  {
    if cond.BinaryOp? {
      ArgumentRule(cond.left);
    }
  }

  /** What each kind of node must satisfy, by the names in PostgreSQL's catalogs. Objects below 10000 are built in. */
  predicate MayStand(e: Expr, g: Glob, inCase: bool) {
    match e
    case Var(varno, attno, levelsup, _, _) => varno in g.relids && levelsup == 0 ==> attno >= -1
    case Const(t, _, d) => d.NullDatum? || !Handled(t) || HasText(t, d)
    case Param(multi, _, _, _) => !multi
    case BinaryOp(name, op, _, _, _, _, _) => !name.OtherBin? && OperatorRule(PgOperator(name), SHIPPED_OPERATORS, op)
    case DistinctExpr(name, op, _, _, _, _) => !name.OtherBin? && OperatorRule(PgOperator(name), SHIPPED_OPERATORS, op)
    case UnaryOp(name, op, _, _, _, _) => !name.OtherUn? && OperatorRule(PgPrefix(name), SHIPPED_PREFIXES, op.(left := PgType.Bool))
    case ScalarArrayOp(_, op, _, _, arr, _) => op.oid < 10_000 && (IsList(arr) || (arr.ArrayCoerceExpr? && arr.binaryOnly && IsList(arr.arg)))
    case CaseExpr(_, _, casearg, whens, _) => casearg.Some? ==> forall i | 0 <= i < |whens| :: whens[i].cond.BinaryOp? && IsArgument(whens[i].cond.left)
    case CaseTestExpr(_, _) => inCase
    case FuncExpr(fn, args, t, _, _) =>
      fn.oid < 10_000 && fn.inPgCatalog && !fn.name.OtherFn? && FunctionRule(PgFunction(fn.name), args) && Handled(t)
    case ImplicitCast(fn, _, _, t, _, _) => fn.oid < 10_000 && Handled(t)
    case SubscriptingRef(assigns, _, _, _, _, _) => !assigns
    case Aggref(agg, aggoid, simple, _, _, _, _, _, _, _) =>
      g.upper && simple && aggoid < 10_000 && !agg.OtherAgg? && PgAggregate(agg) in SHIPPED_AGGREGATES
    case OtherExpr(_) => false
    case _ => true
  }

  /** The walker's test of a node is this rule. */
  lemma RuleIsTest(e: Expr, g: Glob, caseArg: Option<Loc>)
    ensures NodeAccepted(e, g, caseArg) <==> MayStand(e, g, caseArg.Some?)
  {
    hide TranslatableBinary, TranslatableUnary, TranslatableFunction, OperatorRule, FunctionRule, ConstAccepted, HasText, Handled;
    if e.BinaryOp? || e.DistinctExpr? || e.UnaryOp? {
      OperatorNode(e, g, caseArg);
    } else if e.FuncExpr? || e.ImplicitCast? || e.Aggref? {
      CallNode(e, g, caseArg);
    } else if e.CaseExpr? {
      CaseNode(e, g, caseArg);
    } else if e.Const? {
      ConstantNode(e, g, caseArg);
    }
  }

  lemma ConstantNode(e: Expr, g: Glob, caseArg: Option<Loc>)
    requires e.Const?
    ensures NodeAccepted(e, g, caseArg) <==> MayStand(e, g, caseArg.Some?)
  {
    hide CanHandleType, Handled, HasText, DatumText;
    TypeRule(e.ctype);
    TextRule(e.ctype, e.datum);
  }

  lemma OperatorNode(e: Expr, g: Glob, caseArg: Option<Loc>)
    requires e.BinaryOp? || e.DistinctExpr? || e.UnaryOp?
    ensures NodeAccepted(e, g, caseArg) <==> MayStand(e, g, caseArg.Some?)
  {
    hide TranslatableBinary, TranslatableUnary, OperatorRule, PgOperator, PgPrefix;
    if e.BinaryOp? {
      InfixRule(e.bname, e.op);
    } else if e.DistinctExpr? {
      InfixRule(e.dname, e.op);
    } else {
      PrefixRule(e.uname, e.op);
    }
  }

  lemma CallNode(e: Expr, g: Glob, caseArg: Option<Loc>)
    requires e.FuncExpr? || e.ImplicitCast? || e.Aggref?
    ensures NodeAccepted(e, g, caseArg) <==> MayStand(e, g, caseArg.Some?)
  {
    hide TranslatableFunction, FunctionRule, CanHandleType, Handled, AggregateAccepted, PgAggregate, PgFunction;
    if e.FuncExpr? {
      CallRule(e.fn, e.args, e.rtype);
    } else if e.ImplicitCast? {
      TypeRule(e.rtype);
    } else {
      AggregateRule(e.agg, e.aggoid, e.simple, g);
    }
  }

  lemma CaseNode(e: Expr, g: Glob, caseArg: Option<Loc>)
    requires e.CaseExpr?
    ensures NodeAccepted(e, g, caseArg) <==> MayStand(e, g, caseArg.Some?)
  {
    hide ComparesCaseArg, IsArgument;
    forall i | 0 <= i < |e.whens|
      ensures ComparesCaseArg(e.whens[i].cond) <==> e.whens[i].cond.BinaryOp? && IsArgument(e.whens[i].cond.left)
    {
      ComparisonRule(e.whens[i].cond);
    }
  }

  lemma InfixRule(name: BinName, op: Operator)
    ensures IsBuiltin(op.oid) && TranslatableBinary(name, op) <==> !name.OtherBin? && OperatorRule(PgOperator(name), SHIPPED_OPERATORS, op)
  {
    TypeRule(op.right);
  }

  lemma PrefixRule(name: UnName, op: Operator)
    ensures IsBuiltin(op.oid) && TranslatableUnary(name, op)
        <==> !name.OtherUn? && OperatorRule(PgPrefix(name), SHIPPED_PREFIXES, op.(left := PgType.Bool))
  {
    TypeRule(op.right);
  }

  lemma CallRule(fn: Function, args: seq<Expr>, t: PgType)
    ensures TranslatableFunction(fn, args, t)
        <==> fn.inPgCatalog && !fn.name.OtherFn? && FunctionRule(PgFunction(fn.name), args) && Handled(t)
  {
    TypeRule(t);
  }

  lemma AggregateRule(agg: AggName, aggoid: Oid, simple: bool, g: Glob)
    ensures AggregateAccepted(agg, aggoid, simple, g)
        <==> g.upper && simple && aggoid < 10_000 && !agg.OtherAgg? && PgAggregate(agg) in SHIPPED_AGGREGATES
  {
  }

  lemma TypeRule(t: PgType)
    ensures CanHandleType(t) <==> Handled(t)
  {
  }

  lemma TextRule(t: PgType, d: Datum)
    ensures DatumText(d, t).Some? <==> HasText(t, d)
  {
  }
}
