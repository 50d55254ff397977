/** The collation side of the walker: merging is the join of a lattice, so the order of arguments does
    not matter, and an accepted collation always comes from a foreign column. */
module Collation {
  import opened Nodes
  import opened Walker

  // ----- merging is a join

  /** Equal up to a collation that means nothing. */
  predicate Same(a: Loc, b: Loc) {
    a.state == b.state && (a.state.Safe? ==> a.coll == b.coll)
  }

  /** NONE < SAFE(default) < SAFE(c) < UNSAFE, with different c unrelated. */
  predicate Below(a: Loc, b: Loc) {
    || a.state.Nothing? || b.state.Unsafe?
    || (a.state.Safe? && b.state.Safe? && (a.coll == b.coll || a.coll == DEFAULT_COLLATION_OID))
  }

  lemma BelowIsPartialOrder(a: Loc, b: Loc, c: Loc)
    ensures Below(a, a)
    ensures Below(a, b) && Below(b, a) <==> Same(a, b)
    ensures Below(a, b) && Below(b, c) ==> Below(a, c)
  {
  }

  /** The merged state is the least one above both. */
  lemma MergeIsJoin(a: Loc, b: Loc, c: Loc)
    ensures Below(a, Merge(a, b)) && Below(b, Merge(a, b))
    ensures Below(a, c) && Below(b, c) ==> Below(Merge(a, b), c)
  {
  }

  lemma MergeCommutes(a: Loc, b: Loc)
    ensures Same(Merge(a, b), Merge(b, a))
  {
    MergeIsJoin(a, b, Merge(b, a));
    MergeIsJoin(b, a, Merge(a, b));
  }

  lemma MergeAssociates(a: Loc, b: Loc, c: Loc)
    ensures Same(Merge(Merge(a, b), c), Merge(a, Merge(b, c)))
    ensures Same(Merge(a, a), a)
  {
  }

  lemma MergeRespectsSame(a: Loc, a': Loc, b: Loc, b': Loc)
    requires Same(a, a') && Same(b, b')
    ensures Same(Merge(a, b), Merge(a', b'))
  {
  }

  /** Swapping two children of a context changes nothing. */
  lemma MergeSwaps(acc: Loc, a: Loc, b: Loc)
    ensures Same(Merge(Merge(acc, a), b), Merge(Merge(acc, b), a))
  {
  }

  // ----- the order of a list does not matter

  predicate SameVerdict(a: Option<Loc>, b: Option<Loc>) {
    a.Some? == b.Some? && (a.Some? ==> Same(a.value, b.value))
  }

  lemma {:induction false} WalkAllRespectsSame(es: seq<Expr>, g: Glob, caseArg: Option<Loc>, a: Loc, b: Loc)
    requires Same(a, b)
    ensures SameVerdict(WalkAll(es, g, caseArg, a), WalkAll(es, g, caseArg, b))
  {
    if es != [] {
      var own := Walk(es[0], g, caseArg);
      if own.Some? {
        MergeRespectsSame(a, b, own.value, own.value);
        WalkAllRespectsSame(es[1..], g, caseArg, Merge(a, own.value), Merge(b, own.value));
      }
    }
  }

  lemma WalkAllCons(e: Expr, es: seq<Expr>, g: Glob, caseArg: Option<Loc>, acc: Loc)
    ensures var own := Walk(e, g, caseArg);
      WalkAll([e] + es, g, caseArg, acc) == if own.Some? then WalkAll(es, g, caseArg, Merge(acc, own.value)) else None
  {
    assert ([e] + es)[1..] == es;
  }

  /** An element may be visited first. */
  lemma {:induction false} WalkAllPullsOut(before: seq<Expr>, e: Expr, after: seq<Expr>, g: Glob, caseArg: Option<Loc>, acc: Loc)
    ensures SameVerdict(WalkAll(before + [e] + after, g, caseArg, acc), WalkAll([e] + (before + after), g, caseArg, acc))
  {
    if before == [] {
      assert before + [e] + after == [e] + (before + after);
    } else {
      var f, more := before[0], before[1..];
      assert before + [e] + after == [f] + (more + [e] + after);
      assert before + after == [f] + (more + after);
      var first, own := Walk(f, g, caseArg), Walk(e, g, caseArg);
      WalkAllCons(f, more + [e] + after, g, caseArg, acc);
      WalkAllCons(e, before + after, g, caseArg, acc);
      if first.Some? {
        WalkAllPullsOut(more, e, after, g, caseArg, Merge(acc, first.value));
        WalkAllCons(e, more + after, g, caseArg, Merge(acc, first.value));
        if own.Some? {
          WalkAllCons(f, more + after, g, caseArg, Merge(acc, own.value));
          MergeSwaps(acc, first.value, own.value);
          WalkAllRespectsSame(more + after, g, caseArg,
            Merge(Merge(acc, first.value), own.value), Merge(Merge(acc, own.value), first.value));
        }
      } else if own.Some? {
        WalkAllCons(f, more + after, g, caseArg, Merge(acc, own.value));
      }
    }
  }

  /** Any order of a list gives the same verdict and the same collation. */
  lemma {:induction false} WalkAllIsOrderFree(es: seq<Expr>, fs: seq<Expr>, g: Glob, caseArg: Option<Loc>, acc: Loc)
    requires multiset(es) == multiset(fs)
    ensures SameVerdict(WalkAll(es, g, caseArg, acc), WalkAll(fs, g, caseArg, acc))
    decreases |es|
  {
    if es == [] {
      assert |fs| == |multiset(fs)| == 0;
    } else {
      var i := Without(es, fs);
      var others := fs[..i] + fs[i + 1..];
      assert fs == fs[..i] + [es[0]] + fs[i + 1..];
      WalkAllPullsOut(fs[..i], es[0], fs[i + 1..], g, caseArg, acc);
      WalkAllCons(es[0], others, g, caseArg, acc);
      assert es == [es[0]] + es[1..];
      WalkAllCons(es[0], es[1..], g, caseArg, acc);
      var own := Walk(es[0], g, caseArg);
      if own.Some? {
        WalkAllIsOrderFree(es[1..], others, g, caseArg, Merge(acc, own.value));
      }
    }
  }

  lemma Without(es: seq<Expr>, fs: seq<Expr>) returns (i: nat)
    requires es != [] && multiset(es) == multiset(fs)
    ensures i < |fs| && fs[i] == es[0] && multiset(es[1..]) == multiset(fs[..i] + fs[i + 1..])
  {
    assert es[0] in multiset(es);
    assert es[0] in fs;
    i :| 0 <= i < |fs| && fs[i] == es[0];
    TakenOut(es, 0);
    assert es[..0] + es[1..] == es[1..];
    TakenOut(fs, i);
  }

  lemma TakenOut(es: seq<Expr>, i: nat)
    requires i < |es|
    ensures multiset(es[..i] + es[i + 1..]) == multiset(es) - multiset{es[i]}
  {
    assert es == es[..i] + ([es[i]] + es[i + 1..]);
  }

  /** Reordering the operands of an AND or OR, or the elements of an array, does not change the
      walker's answer at all. */
  lemma ConnectiveIsOrderFree(isAnd: bool, first: Expr, rest: seq<Expr>, first': Expr, rest': seq<Expr>, g: Glob, caseArg: Option<Loc>)
    requires multiset([first] + rest) == multiset([first'] + rest')
    ensures Walk(AndOrExpr(isAnd, first, rest), g, caseArg) == Walk(AndOrExpr(isAnd, first', rest'), g, caseArg)
  {
    var es, es' := [first] + rest, [first'] + rest';
    WalkAllIsOrderFree(es, es', g, caseArg, NO_COLLATION);
    assert es[1..] == rest && es'[1..] == rest';
  }

  lemma ArrayIsOrderFree(es: seq<Expr>, fs: seq<Expr>, t: PgType, coll: Oid, g: Glob, caseArg: Option<Loc>)
    requires multiset(es) == multiset(fs)
    ensures Walk(ArrayExpr(es, t, coll), g, caseArg) == Walk(ArrayExpr(fs, t, coll), g, caseArg)
  {
    WalkAllIsOrderFree(es, fs, g, caseArg, NO_COLLATION);
  }

  // ----- soundness

  /** The collations of the foreign columns whose collation reaches the value of the expression;
      `arg` are those of the enclosing CASE argument. Array comparisons, AND, OR, NOT and null tests
      have no collation. */
  function Sources(e: Expr, g: Glob, arg: set<Oid>): set<Oid>
    decreases e
  {
    match e
    case Var(varno, _, levelsup, _, coll) => if varno in g.relids && levelsup == 0 then {coll} else {}
    case BinaryOp(_, _, l, r, _, _, _) => Sources(l, g, arg) + Sources(r, g, arg)
    case UnaryOp(_, _, a, _, _, _) => Sources(a, g, arg)
    case DistinctExpr(_, _, l, r, _, _) => Sources(l, g, arg) + Sources(r, g, arg)
    case RelabelType(a, _, _) => Sources(a, g, arg)
    case ArrayCoerceExpr(a, _, _, _) => Sources(a, g, arg)
    case CaseExpr(_, _, _, whens, def) =>
      SourcesOfWhens(whens, g, arg) + SourcesOfOption(def, g, arg)
    case CaseTestExpr(_, _) => arg
    case ArrayExpr(es, _, _) => SourcesOfAll(es, g, arg)
    case FuncExpr(_, args, _, _, _) => SourcesOfAll(args, g, arg)
    case ImplicitCast(_, first, rest, _, _, _) => Sources(first, g, arg) + SourcesOfAll(rest, g, arg)
    case SubscriptingRef(_, _, _, a, _, _) => Sources(a, g, arg)
    case Aggref(_, _, _, _, _, args, filter, _, _, _) => SourcesOfAll(args, g, arg) + SourcesOfOption(filter, g, arg)
    case _ => {}
  }

  function SourcesOfAll(es: seq<Expr>, g: Glob, arg: set<Oid>): set<Oid>
    decreases es
  {
    if es == [] then {} else Sources(es[0], g, arg) + SourcesOfAll(es[1..], g, arg)
  }

  function SourcesOfWhens(ws: seq<CaseWhen>, g: Glob, arg: set<Oid>): set<Oid>
    decreases ws
  {
    if ws == [] then {} else SourcesOfWhen(ws[0], g, arg) + SourcesOfWhens(ws[1..], g, arg)
  }

  function SourcesOfWhen(w: CaseWhen, g: Glob, arg: set<Oid>): set<Oid>
    decreases w
  {
    Sources(w.result, g, arg)
  }

  function SourcesOfOption(e: Option<Expr>, g: Glob, arg: set<Oid>): set<Oid>
    decreases e
  {
    if e.Some? then Sources(e.value, g, arg) else {}
  }

  predicate FromColumn(coll: Oid, sources: set<Oid>) {
    coll == INVALID_OID || coll in sources
  }

  /** Every function, operator, array operator and aggregate with an input collation, however deep,
      gets that collation from a foreign column in its arguments. */
  predicate InputsDerive(e: Expr, g: Glob, arg: set<Oid>)
    decreases e
  {
    match e
    case BinaryOp(_, _, l, r, _, _, inputcoll) =>
      && FromColumn(inputcoll, Sources(l, g, arg) + Sources(r, g, arg))
      && InputsDerive(l, g, arg) && InputsDerive(r, g, arg)
    case UnaryOp(_, _, a, _, _, inputcoll) => FromColumn(inputcoll, Sources(a, g, arg)) && InputsDerive(a, g, arg)
    case DistinctExpr(_, _, l, r, _, inputcoll) =>
      && FromColumn(inputcoll, Sources(l, g, arg) + Sources(r, g, arg))
      && InputsDerive(l, g, arg) && InputsDerive(r, g, arg)
    case ScalarArrayOp(_, _, _, l, arr, inputcoll) =>
      && FromColumn(inputcoll, Sources(l, g, arg) + Sources(arr, g, arg))
      && InputsDerive(l, g, arg) && InputsDerive(arr, g, arg)
    case NotExpr(a) => InputsDerive(a, g, arg)
    case AndOrExpr(_, first, rest) => InputsDerive(first, g, arg) && AllInputsDerive(rest, g, arg)
    case NullTest(a, _, _) => InputsDerive(a, g, arg)
    case RelabelType(a, _, _) => InputsDerive(a, g, arg)
    case ArrayCoerceExpr(a, _, _, _) => InputsDerive(a, g, arg)
    case CaseExpr(_, _, casearg, whens, def) =>
      && (casearg.Some? ==> InputsDerive(casearg.value, g, arg))
      && WhensInputsDerive(whens, g, arg, SourcesOfOption(casearg, g, arg))
      && (def.Some? ==> InputsDerive(def.value, g, arg))
    case ArrayExpr(es, _, _) => AllInputsDerive(es, g, arg)
    case FuncExpr(_, args, _, _, inputcoll) =>
      FromColumn(inputcoll, SourcesOfAll(args, g, arg)) && AllInputsDerive(args, g, arg)
    case ImplicitCast(_, first, rest, _, _, inputcoll) =>
      && FromColumn(inputcoll, Sources(first, g, arg) + SourcesOfAll(rest, g, arg))
      && InputsDerive(first, g, arg) && AllInputsDerive(rest, g, arg)
    case SubscriptingRef(_, upper, lower, a, _, _) =>
      AllInputsDerive(upper, g, arg) && AllInputsDerive(lower, g, arg) && InputsDerive(a, g, arg)
    case Aggref(_, _, _, _, _, args, filter, _, _, inputcoll) =>
      && FromColumn(inputcoll, SourcesOfAll(args, g, arg) + SourcesOfOption(filter, g, arg))
      && AllInputsDerive(args, g, arg) && (filter.Some? ==> InputsDerive(filter.value, g, arg))
    case _ => true
  }

  predicate AllInputsDerive(es: seq<Expr>, g: Glob, arg: set<Oid>)
    decreases es
  {
    es == [] || (InputsDerive(es[0], g, arg) && AllInputsDerive(es[1..], g, arg))
  }

  predicate WhensInputsDerive(ws: seq<CaseWhen>, g: Glob, arg: set<Oid>, inner: set<Oid>)
    decreases ws
  {
    ws == [] || (WhenInputsDerive(ws[0], g, arg, inner) && WhensInputsDerive(ws[1..], g, arg, inner))
  }

  /** The condition sees the collations of the CASE argument, the result those outside. */
  predicate WhenInputsDerive(w: CaseWhen, g: Glob, arg: set<Oid>, inner: set<Oid>)
    decreases w
  {
    InputsDerive(w.cond, g, inner) && InputsDerive(w.result, g, arg)
  }

  /** A safe collation is one of the sources. */
  predicate Derives(loc: Loc, sources: set<Oid>) {
    loc.state.Safe? ==> loc.coll in sources
  }

  predicate ArgDerives(caseArg: Option<Loc>, arg: set<Oid>) {
    caseArg.Some? ==> Derives(caseArg.value, arg)
  }

  /** The collation soundness of the walker. */
  lemma {:induction false} WalkIsSound(e: Expr, g: Glob, caseArg: Option<Loc>, arg: set<Oid>)
    requires Walk(e, g, caseArg).Some? && ArgDerives(caseArg, arg)
    ensures Derives(Walk(e, g, caseArg).value, Sources(e, g, arg))
    ensures InputsDerive(e, g, arg)
    decreases e, 1
  {
    match e
    case BinaryOp(_, _, _, _, _, _, _) => TwoOperandsAreSound(e, g, caseArg, arg);
    case DistinctExpr(_, _, _, _, _, _) => TwoOperandsAreSound(e, g, caseArg, arg);
    case ScalarArrayOp(_, _, _, _, _, _) => TwoOperandsAreSound(e, g, caseArg, arg);
    case UnaryOp(_, _, a, _, _, _) =>
      WalkIsSound(a, g, caseArg, arg);
    case NotExpr(a) => WalkIsSound(a, g, caseArg, arg);
    case NullTest(a, _, _) => WalkIsSound(a, g, caseArg, arg);
    case RelabelType(a, _, _) => WalkIsSound(a, g, caseArg, arg);
    case ArrayCoerceExpr(a, _, _, _) => WalkIsSound(a, g, caseArg, arg);
    case CaseExpr(_, _, _, _, _) => CaseIsSound(e, g, caseArg, arg);
    case Var(_, _, _, _, _) =>
    case Const(_, _, _) =>
    case Param(_, _, _, _) =>
    case CaseTestExpr(_, _) =>
    case SubscriptingRef(_, _, _, _, _, _) => SeveralListsAreSound(e, g, caseArg, arg);
    case Aggref(_, _, _, _, _, _, _, _, _, _) => SeveralListsAreSound(e, g, caseArg, arg);
    case _ => ListNodeIsSound(e, g, caseArg, arg);
  }

  lemma {:induction false} TwoOperandsAreSound(e: Expr, g: Glob, caseArg: Option<Loc>, arg: set<Oid>)
    requires e.BinaryOp? || e.DistinctExpr? || e.ScalarArrayOp?
    requires Walk(e, g, caseArg).Some? && ArgDerives(caseArg, arg)
    ensures Derives(Walk(e, g, caseArg).value, Sources(e, g, arg))
    ensures InputsDerive(e, g, arg)
    decreases e, 0
  {
    match e
    case BinaryOp(_, _, l, r, _, _, _) =>
      WalkIsSound(l, g, caseArg, arg);
      WalkIsSound(r, g, caseArg, arg);
    case DistinctExpr(_, _, l, r, _, _) =>
      WalkIsSound(l, g, caseArg, arg);
      WalkIsSound(r, g, caseArg, arg);
    case ScalarArrayOp(_, _, _, l, arr, _) =>
      WalkIsSound(l, g, caseArg, arg);
      WalkIsSound(arr, g, caseArg, arg);
  }

  lemma {:induction false} ListNodeIsSound(e: Expr, g: Glob, caseArg: Option<Loc>, arg: set<Oid>)
    requires e.AndOrExpr? || e.ArrayExpr? || e.FuncExpr? || e.ImplicitCast?
    requires Walk(e, g, caseArg).Some? && ArgDerives(caseArg, arg)
    ensures Derives(Walk(e, g, caseArg).value, Sources(e, g, arg))
    ensures InputsDerive(e, g, arg)
    decreases e, 0
  {
    match e
    case AndOrExpr(_, first, rest) =>
      WalkIsSound(first, g, caseArg, arg);
      WalkAllIsSound(rest, g, caseArg, arg, Merge(NO_COLLATION, Walk(first, g, caseArg).value), Sources(first, g, arg));
    case ArrayExpr(es, _, _) => WalkAllIsSound(es, g, caseArg, arg, NO_COLLATION, {});
    case FuncExpr(_, args, _, _, _) => WalkAllIsSound(args, g, caseArg, arg, NO_COLLATION, {});
    case ImplicitCast(_, first, rest, _, _, _) =>
      WalkIsSound(first, g, caseArg, arg);
      WalkAllIsSound(rest, g, caseArg, arg, Merge(NO_COLLATION, Walk(first, g, caseArg).value), Sources(first, g, arg));
  }

  lemma {:induction false} SeveralListsAreSound(e: Expr, g: Glob, caseArg: Option<Loc>, arg: set<Oid>)
    requires e.SubscriptingRef? || e.Aggref?
    requires Walk(e, g, caseArg).Some? && ArgDerives(caseArg, arg)
    ensures Derives(Walk(e, g, caseArg).value, Sources(e, g, arg))
    ensures InputsDerive(e, g, arg)
    decreases e, 0
  {
    match e
    case SubscriptingRef(_, upper, lower, a, _, _) =>
      WalkAllIsSound(upper, g, caseArg, arg, NO_COLLATION, {});
      WalkAllIsSound(lower, g, caseArg, arg, NO_COLLATION, {});
      WalkIsSound(a, g, caseArg, arg);
    case Aggref(_, _, _, _, _, args, filter, _, _, _) =>
      WalkAllIsSound(args, g, caseArg, arg, NO_COLLATION, {});
      if filter.Some? {
        WalkIsSound(filter.value, g, caseArg, arg);
      }
  }

  lemma {:induction false} WalkAllIsSound(es: seq<Expr>, g: Glob, caseArg: Option<Loc>, arg: set<Oid>, acc: Loc, sources: set<Oid>)
    requires WalkAll(es, g, caseArg, acc).Some? && ArgDerives(caseArg, arg) && Derives(acc, sources)
    ensures Derives(WalkAll(es, g, caseArg, acc).value, sources + SourcesOfAll(es, g, arg))
    ensures AllInputsDerive(es, g, arg)
    decreases es
  {
    if es != [] {
      WalkIsSound(es[0], g, caseArg, arg);
      var own := Walk(es[0], g, caseArg).value;
      WalkAllIsSound(es[1..], g, caseArg, arg, Merge(acc, own), sources + Sources(es[0], g, arg));
    }
  }

  lemma {:induction false} CaseIsSound(e: Expr, g: Glob, caseArg: Option<Loc>, arg: set<Oid>)
    requires e.CaseExpr? && Walk(e, g, caseArg).Some? && ArgDerives(caseArg, arg)
    ensures Derives(Walk(e, g, caseArg).value, Sources(e, g, arg))
    ensures InputsDerive(e, g, arg)
    decreases e, 0
  {
    var inside := WalkOption(e.casearg, g, caseArg, NO_COLLATION).value;
    if e.casearg.Some? {
      WalkIsSound(e.casearg.value, g, caseArg, arg);
    }
    WalkWhensIsSound(e.whens, g, caseArg, arg, inside, SourcesOfOption(e.casearg, g, arg), NO_COLLATION, {});
    if e.def.Some? {
      WalkIsSound(e.def.value, g, caseArg, arg);
    }
  }

  lemma {:induction false} WalkWhensIsSound(ws: seq<CaseWhen>, g: Glob, caseArg: Option<Loc>, arg: set<Oid>,
                                            inside: Loc, inner: set<Oid>, acc: Loc, sources: set<Oid>)
    requires WalkWhens(ws, g, caseArg, inside, acc).Some? && ArgDerives(caseArg, arg)
    requires Derives(inside, inner) && Derives(acc, sources)
    ensures Derives(WalkWhens(ws, g, caseArg, inside, acc).value, sources + SourcesOfWhens(ws, g, arg))
    ensures WhensInputsDerive(ws, g, arg, inner)
    decreases ws
  {
    if ws != [] {
      WalkWhenIsSound(ws[0], g, caseArg, arg, inside, inner, acc, sources);
      var next := WalkWhen(ws[0], g, caseArg, inside, acc).value;
      WalkWhensIsSound(ws[1..], g, caseArg, arg, inside, inner, next, sources + SourcesOfWhen(ws[0], g, arg));
    }
  }

  lemma {:induction false} WalkWhenIsSound(w: CaseWhen, g: Glob, caseArg: Option<Loc>, arg: set<Oid>,
                                           inside: Loc, inner: set<Oid>, acc: Loc, sources: set<Oid>)
    requires WalkWhen(w, g, caseArg, inside, acc).Some? && ArgDerives(caseArg, arg)
    requires Derives(inside, inner) && Derives(acc, sources)
    ensures Derives(WalkWhen(w, g, caseArg, inside, acc).value, sources + SourcesOfWhen(w, g, arg))
    ensures WhenInputsDerive(w, g, arg, inner)
    decreases w
  {
    WalkIsSound(w.cond, g, Some(inside), inner);
    WalkIsSound(w.result, g, caseArg, arg);
  }

  /** The collation of the expression's result, read off its node; `exprCollation`. */
  function OwnCollation(e: Expr): Oid {
    match e
    case Var(_, _, _, _, coll) => coll
    case Const(_, coll, _) => coll
    case Param(_, _, _, coll) => coll
    case BinaryOp(_, _, _, _, _, rcoll, _) => rcoll
    case UnaryOp(_, _, _, _, rcoll, _) => rcoll
    case DistinctExpr(_, _, _, _, rcoll, _) => rcoll
    case RelabelType(_, _, rcoll) => rcoll
    case ArrayCoerceExpr(_, _, _, rcoll) => rcoll
    case CaseExpr(_, rcoll, _, _, _) => rcoll
    case CaseTestExpr(_, coll) => coll
    case ArrayExpr(_, _, rcoll) => rcoll
    case FuncExpr(_, _, _, rcoll, _) => rcoll
    case ImplicitCast(_, _, _, _, rcoll, _) => rcoll
    case SubscriptingRef(_, _, _, _, _, rcoll) => rcoll
    case Aggref(_, _, _, _, _, _, _, _, rcoll, _) => rcoll
    case _ => INVALID_OID
  }

  /** The state says of an expression's own collation: nothing is known of it but that it is none or the default, or it is
      the one in the state, or there is a conflict. */
  lemma StateTellsOwn(e: Expr, g: Glob, caseArg: Option<Loc>)
    requires Walk(e, g, caseArg).Some?
    ensures var own := Walk(e, g, caseArg).value;
      && (own.state.Nothing? ==> OwnCollation(e) == INVALID_OID || OwnCollation(e) == DEFAULT_COLLATION_OID)
      && (own.state.Safe? ==> OwnCollation(e) == own.coll)
  {
  }

  /** An accepted clause: every input collation in it comes from a foreign column, and so does its own, whatever state the
      walker ends in, unless it has none or the default. */
  lemma ShippedCollationsAreSound(e: Expr, g: Glob, mutable: bool)
    requires IsForeignExpr(e, g, mutable)
    ensures InputsDerive(e, g, {})
    ensures OwnCollation(e) == INVALID_OID || OwnCollation(e) == DEFAULT_COLLATION_OID || OwnCollation(e) in Sources(e, g, {})
  {
    WalkIsSound(e, g, None, {});
    StateTellsOwn(e, g, None);
  }
}
