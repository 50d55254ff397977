/** Exactly when the walker accepts: every node passes the test for its kind, and wherever a function or operator
    has an input collation, its arguments agree on it. */
module Acceptance {
  import opened Nodes
  import opened Collation
  import opened Rules
  import opened Walker

  // ----- when arguments agree on a collation

  /** Some argument has the collation of a foreign column, and no other argument has another, except the default. */
  ghost predicate AgreeOn(locs: seq<Loc>, coll: Oid) {
    && (exists l | l in locs :: l.state.Safe? && l.coll == coll)
    && (forall l | l in locs :: !l.state.Unsafe? && (l.state.Safe? ==> l.coll == coll || l.coll == DEFAULT_COLLATION_OID))
  }

  /** The walker merges the arguments one after the other. */
  function JoinAll(acc: Loc, locs: seq<Loc>): Loc
    decreases |locs|
  {
    if locs == [] then acc else JoinAll(Merge(acc, locs[0]), locs[1..])
  }

  lemma {:induction false} JoinIsAgreement(acc: Loc, locs: seq<Loc>, coll: Oid)
    ensures JoinAll(acc, locs) == Loc(coll, Safe) <==> AgreeOn([acc] + locs, coll)
    decreases |locs|
  {
    if locs == [] {
      assert [acc] + locs == [acc];
      assert acc in [acc];
    } else {
      var x, rest := locs[0], locs[1..];
      var m := Merge(acc, x);
      JoinIsAgreement(m, rest, coll);
      assert [acc] + locs == [acc, x] + rest;
      FirstTwo(acc, x, rest, coll);
    }
  }

  /** Two arguments may be replaced by what they merge to. */
  lemma FirstTwo(a: Loc, b: Loc, rest: seq<Loc>, coll: Oid)
    ensures AgreeOn([Merge(a, b)] + rest, coll) <==> AgreeOn([a, b] + rest, coll)
  {
    var m := Merge(a, b);
    var one, two := [m] + rest, [a, b] + rest;
    assert forall l :: l in one <==> l == m || l in rest;
    assert forall l :: l in two <==> l == a || l == b || l in rest;
    if AgreeOn(one, coll) {
      assert m in one;
    }
    if AgreeOn(two, coll) {
      assert a in two && b in two;
    }
  }

  lemma JoinOfArguments(locs: seq<Loc>, coll: Oid)
    ensures JoinAll(NO_COLLATION, locs) == Loc(coll, Safe) <==> AgreeOn(locs, coll)
  {
    JoinIsAgreement(NO_COLLATION, locs, coll);
    assert forall l :: l in [NO_COLLATION] + locs <==> l == NO_COLLATION || l in locs;
  }

  // ----- what each node brings

  /** The collations of the arguments whose collation reaches the node. */
  ghost function Arguments(e: Expr, g: Glob, caseArg: Option<Loc>): seq<Loc>
    decreases e, 0
  {
    match e
    case BinaryOp(_, _, l, r, _, _, _) => [Brought(l, g, caseArg), Brought(r, g, caseArg)]
    case UnaryOp(_, _, a, _, _, _) => [Brought(a, g, caseArg)]
    case DistinctExpr(_, _, l, r, _, _) => [Brought(l, g, caseArg), Brought(r, g, caseArg)]
    case ScalarArrayOp(_, _, _, l, arr, _) => [Brought(l, g, caseArg), Brought(arr, g, caseArg)]
    case RelabelType(a, _, _) => [Brought(a, g, caseArg)]
    case ArrayCoerceExpr(a, _, _, _) => [Brought(a, g, caseArg)]
    case CaseExpr(_, _, _, whens, def) => BroughtByWhens(whens, g, caseArg) + BroughtByOption(def, g, caseArg)
    case CaseTestExpr(_, _) => if caseArg.Some? then [caseArg.value] else []
    case ArrayExpr(es, _, _) => BroughtByAll(es, g, caseArg)
    case FuncExpr(_, args, _, _, _) => BroughtByAll(args, g, caseArg)
    case ImplicitCast(_, first, rest, _, _, _) => [Brought(first, g, caseArg)] + BroughtByAll(rest, g, caseArg)
    case SubscriptingRef(_, _, _, a, _, _) => [Brought(a, g, caseArg)]
    case Aggref(_, _, _, _, _, args, filter, _, _, _) => BroughtByAll(args, g, caseArg) + BroughtByOption(filter, g, caseArg)
    case _ => []
  }

  /** The collation of the operation that the node performs, if it performs one. */
  function InputCollation(e: Expr): Oid {
    match e
    case BinaryOp(_, _, _, _, _, _, inputcoll) => inputcoll
    case UnaryOp(_, _, _, _, _, inputcoll) => inputcoll
    case DistinctExpr(_, _, _, _, _, inputcoll) => inputcoll
    case ScalarArrayOp(_, _, _, _, _, inputcoll) => inputcoll
    case FuncExpr(_, _, _, _, inputcoll) => inputcoll
    case ImplicitCast(_, _, _, _, _, inputcoll) => inputcoll
    case Aggref(_, _, _, _, _, _, _, _, _, inputcoll) => inputcoll
    case _ => INVALID_OID
  }

  /** The state of a result of that collation: safe if the arguments agree on the collation, harmless if there is none or it
      is the default, and otherwise a conflict. */
  ghost function StateOf(coll: Oid, locs: seq<Loc>): Loc {
    if coll != 0 && AgreeOn(locs, coll) then Loc(coll, Safe) else WithoutSource(coll)
  }

  /** A collation that comes from no foreign column. */
  function WithoutSource(coll: Oid): Loc {
    Loc(coll, if coll == 0 || coll == 100 then Nothing else Unsafe)
  }

  /** The collation state that an accepted expression brings to its parent. */
  ghost function Brought(e: Expr, g: Glob, caseArg: Option<Loc>): Loc
    decreases e, 1
  {
    match e
    case Var(varno, _, levelsup, _, coll) =>
      if varno in g.relids && levelsup == 0 then Loc(coll, if coll == 0 then Nothing else Safe) else WithoutSource(coll)
    case Const(_, coll, _) => WithoutSource(coll)
    case Param(_, _, _, coll) => WithoutSource(coll)
    case _ => StateOf(OwnCollation(e), Arguments(e, g, caseArg))
  }

  ghost function BroughtByAll(es: seq<Expr>, g: Glob, caseArg: Option<Loc>): seq<Loc>
    decreases es
  {
    if es == [] then [] else [Brought(es[0], g, caseArg)] + BroughtByAll(es[1..], g, caseArg)
  }

  ghost function BroughtByOption(e: Option<Expr>, g: Glob, caseArg: Option<Loc>): seq<Loc>
    decreases e
  {
    if e.Some? then [Brought(e.value, g, caseArg)] else []
  }

  ghost function BroughtByWhen(w: CaseWhen, g: Glob, caseArg: Option<Loc>): Loc
    decreases w
  {
    Brought(w.result, g, caseArg)
  }

  ghost function BroughtByWhens(ws: seq<CaseWhen>, g: Glob, caseArg: Option<Loc>): seq<Loc>
    decreases ws
  {
    if ws == [] then [] else [BroughtByWhen(ws[0], g, caseArg)] + BroughtByWhens(ws[1..], g, caseArg)
  }

  // ----- all nodes

  /** A node, and the collation of the CASE argument it may refer to. */
  datatype Site = Site(node: Expr, caseArg: Option<Loc>)

  /** Every node of the expression. Conditions of a CASE see its argument, everything else what is outside. */
  ghost function Sites(e: Expr, g: Glob, caseArg: Option<Loc>): set<Site>
    decreases e
  {
    {Site(e, caseArg)} +
    match e
    case BinaryOp(_, _, l, r, _, _, _) => Sites(l, g, caseArg) + Sites(r, g, caseArg)
    case UnaryOp(_, _, a, _, _, _) => Sites(a, g, caseArg)
    case DistinctExpr(_, _, l, r, _, _) => Sites(l, g, caseArg) + Sites(r, g, caseArg)
    case ScalarArrayOp(_, _, _, l, arr, _) => Sites(l, g, caseArg) + Sites(arr, g, caseArg)
    case NotExpr(a) => Sites(a, g, caseArg)
    case AndOrExpr(_, first, rest) => Sites(first, g, caseArg) + SitesOfAll(rest, g, caseArg)
    case NullTest(a, _, _) => Sites(a, g, caseArg)
    case RelabelType(a, _, _) => Sites(a, g, caseArg)
    case ArrayCoerceExpr(a, _, _, _) => Sites(a, g, caseArg)
    case CaseExpr(_, _, casearg, whens, def) =>
      SitesOfOption(casearg, g, caseArg) + SitesOfWhens(whens, g, caseArg, Inside(casearg, g, caseArg)) + SitesOfOption(def, g, caseArg)
    case ArrayExpr(es, _, _) => SitesOfAll(es, g, caseArg)
    case FuncExpr(_, args, _, _, _) => SitesOfAll(args, g, caseArg)
    case ImplicitCast(_, first, rest, _, _, _) => Sites(first, g, caseArg) + SitesOfAll(rest, g, caseArg)
    case SubscriptingRef(_, upper, lower, a, _, _) => SitesOfAll(upper, g, caseArg) + SitesOfAll(lower, g, caseArg) + Sites(a, g, caseArg)
    case Aggref(_, _, _, _, _, args, filter, _, _, _) => SitesOfAll(args, g, caseArg) + SitesOfOption(filter, g, caseArg)
    case _ => {}
  }

  /** What the conditions of a CASE see. */
  ghost function Inside(casearg: Option<Expr>, g: Glob, caseArg: Option<Loc>): Loc {
    JoinAll(NO_COLLATION, BroughtByOption(casearg, g, caseArg))
  }

  ghost function SitesOfAll(es: seq<Expr>, g: Glob, caseArg: Option<Loc>): set<Site>
    decreases es
  {
    if es == [] then {} else Sites(es[0], g, caseArg) + SitesOfAll(es[1..], g, caseArg)
  }

  ghost function SitesOfOption(e: Option<Expr>, g: Glob, caseArg: Option<Loc>): set<Site>
    decreases e
  {
    if e.Some? then Sites(e.value, g, caseArg) else {}
  }

  ghost function SitesOfWhen(w: CaseWhen, g: Glob, caseArg: Option<Loc>, inside: Loc): set<Site>
    decreases w
  {
    Sites(w.cond, g, Some(inside)) + Sites(w.result, g, caseArg)
  }

  ghost function SitesOfWhens(ws: seq<CaseWhen>, g: Glob, caseArg: Option<Loc>, inside: Loc): set<Site>
    decreases ws
  {
    if ws == [] then {} else SitesOfWhen(ws[0], g, caseArg, inside) + SitesOfWhens(ws[1..], g, caseArg, inside)
  }

  // ----- the decision

  /** The node passes the test for its kind, its type is built in, and the arguments agree on its input collation. */
  ghost predicate SiteOk(s: Site, g: Glob) {
    && MayStand(s.node, g, s.caseArg.Some?) && TypeOid(ExprType(s.node)) < 10_000
    && (InputCollation(s.node) != INVALID_OID ==> AgreeOn(Arguments(s.node, g, s.caseArg), InputCollation(s.node)))
  }

  ghost predicate AllOk(sites: set<Site>, g: Glob) {
    forall s | s in sites :: SiteOk(s, g)
  }

  ghost function Verdict(ok: bool, own: Loc): Option<Loc> {
    if ok then Some(own) else None
  }

  /** The result's collation, found by merging, is safe exactly if the arguments agree on it. */
  lemma ResultTest(coll: Oid, locs: seq<Loc>)
    ensures ResultLoc(coll, JoinAll(NO_COLLATION, locs)) == StateOf(coll, locs)
  {
    JoinOfArguments(locs, coll);
  }

  lemma InputTest(locs: seq<Loc>, coll: Oid)
    ensures InputOk(coll, JoinAll(NO_COLLATION, locs)) <==> coll == INVALID_OID || AgreeOn(locs, coll)
  {
    JoinOfArguments(locs, coll);
  }

  lemma JoinTwo(a: Loc, b: Loc)
    ensures JoinAll(NO_COLLATION, [a, b]) == Merge(Merge(NO_COLLATION, a), b)
    ensures JoinAll(NO_COLLATION, [a]) == Merge(NO_COLLATION, a)
  {
    assert [a, b][1..] == [b] && [b][1..] == [] && [a][1..] == [];
    assert JoinAll(Merge(NO_COLLATION, a), [b]) == JoinAll(Merge(Merge(NO_COLLATION, a), b), []);
    assert JoinAll(NO_COLLATION, [a]) == JoinAll(Merge(NO_COLLATION, a), []);
  }

  lemma {:induction false} JoinCat(acc: Loc, a: seq<Loc>, b: seq<Loc>)
    ensures JoinAll(acc, a + b) == JoinAll(JoinAll(acc, a), b)
    decreases |a|
  {
    if a == [] {
      assert a + b == b;
    } else {
      assert (a + b)[1..] == a[1..] + b;
      JoinCat(Merge(acc, a[0]), a[1..], b);
    }
  }

  /** The converse of soundness, for every expression: the walker accepts exactly when all sites are in order. */
  lemma {:induction false} WalkIsExact(e: Expr, g: Glob, caseArg: Option<Loc>)
    ensures Walk(e, g, caseArg) == Verdict(AllOk(Sites(e, g, caseArg), g), Brought(e, g, caseArg))
    decreases e, 1
  {
    hide NodeAccepted, MayStand, AgreeOn;
    RuleIsTest(e, g, caseArg);
    assert Site(e, caseArg) in Sites(e, g, caseArg);
    if !(NodeAccepted(e, g, caseArg) && IsBuiltin(TypeOid(ExprType(e)))) {
      assert !SiteOk(Site(e, caseArg), g);
    } else if e.BinaryOp? || e.DistinctExpr? || e.ScalarArrayOp? {
      TwoOperands(e, g, caseArg);
    } else if e.UnaryOp? || e.NotExpr? || e.NullTest? || e.RelabelType? || e.ArrayCoerceExpr? {
      OneOperand(e, g, caseArg);
    } else if e.AndOrExpr? || e.ArrayExpr? || e.FuncExpr? || e.ImplicitCast? {
      ListOperands(e, g, caseArg);
    } else if e.SubscriptingRef? {
      SubscriptOperands(e, g, caseArg);
    } else if e.Aggref? {
      AggregateOperands(e, g, caseArg);
    } else if e.CaseExpr? {
      CaseOperands(e, g, caseArg);
    } else if e.CaseTestExpr? {
      CaseTestIsExact(e, g, caseArg);
      assert SiteOk(Site(e, caseArg), g);
    } else {
      OthersAreRefused(e, g, caseArg);
      assert SiteOk(Site(e, caseArg), g);
    }
  }

  lemma CaseTestIsExact(e: Expr, g: Glob, caseArg: Option<Loc>)
    requires e.CaseTestExpr? && NodePasses(e, g, caseArg)
    ensures Walk(e, g, caseArg) == Some(Brought(e, g, caseArg))
  {
    JoinTwo(caseArg.value, NO_COLLATION);
    ResultTest(OwnCollation(e), Arguments(e, g, caseArg));
    JoinOfArguments([caseArg.value], OwnCollation(e));
  }

  lemma OthersAreRefused(e: Expr, g: Glob, caseArg: Option<Loc>)
    ensures e.OtherExpr? ==> !NodeAccepted(e, g, caseArg)
  {
  }

  ghost predicate NodePasses(e: Expr, g: Glob, caseArg: Option<Loc>) {
    NodeAccepted(e, g, caseArg) && IsBuiltin(TypeOid(ExprType(e)))
  }

  lemma {:induction false} TwoOperands(e: Expr, g: Glob, caseArg: Option<Loc>)
    requires (e.BinaryOp? || e.DistinctExpr? || e.ScalarArrayOp?) && NodePasses(e, g, caseArg)
    ensures Walk(e, g, caseArg) == Verdict(AllOk(Sites(e, g, caseArg), g), Brought(e, g, caseArg))
    decreases e, 0
  {
    hide NodeAccepted, MayStand, AgreeOn;
    RuleIsTest(e, g, caseArg);
    var second := if e.ScalarArrayOp? then e.arr else e.right;
    WalkIsExact(e.left, g, caseArg);
    WalkIsExact(second, g, caseArg);
    JoinTwo(Brought(e.left, g, caseArg), Brought(second, g, caseArg));
    InputTest(Arguments(e, g, caseArg), InputCollation(e));
    ResultTest(OwnCollation(e), Arguments(e, g, caseArg));
    assert Site(e, caseArg) in Sites(e, g, caseArg);
  }

  lemma {:induction false} OneOperand(e: Expr, g: Glob, caseArg: Option<Loc>)
    requires (e.UnaryOp? || e.NotExpr? || e.NullTest? || e.RelabelType? || e.ArrayCoerceExpr?) && NodePasses(e, g, caseArg)
    ensures Walk(e, g, caseArg) == Verdict(AllOk(Sites(e, g, caseArg), g), Brought(e, g, caseArg))
    decreases e, 0
  {
    hide NodeAccepted, MayStand, AgreeOn;
    RuleIsTest(e, g, caseArg);
    WalkIsExact(e.arg, g, caseArg);
    JoinTwo(Brought(e.arg, g, caseArg), NO_COLLATION);
    InputTest(Arguments(e, g, caseArg), InputCollation(e));
    ResultTest(OwnCollation(e), Arguments(e, g, caseArg));
    assert Site(e, caseArg) in Sites(e, g, caseArg);
  }

  lemma {:induction false} ListOperands(e: Expr, g: Glob, caseArg: Option<Loc>)
    requires (e.AndOrExpr? || e.ArrayExpr? || e.FuncExpr? || e.ImplicitCast?) && NodePasses(e, g, caseArg)
    ensures Walk(e, g, caseArg) == Verdict(AllOk(Sites(e, g, caseArg), g), Brought(e, g, caseArg))
    decreases e, 0
  {
    hide NodeAccepted, MayStand, AgreeOn;
    RuleIsTest(e, g, caseArg);
    if e.AndOrExpr? || e.ImplicitCast? {
      WalkIsExact(e.first, g, caseArg);
      var first := Brought(e.first, g, caseArg);
      ListIsExact(e.rest, g, caseArg, Merge(NO_COLLATION, first));
      JoinTwo(first, NO_COLLATION);
      JoinCat(NO_COLLATION, [first], BroughtByAll(e.rest, g, caseArg));
    } else {
      ListIsExact(if e.ArrayExpr? then e.elements else e.args, g, caseArg, NO_COLLATION);
    }
    InputTest(Arguments(e, g, caseArg), InputCollation(e));
    ResultTest(OwnCollation(e), Arguments(e, g, caseArg));
    assert Site(e, caseArg) in Sites(e, g, caseArg);
  }

  lemma {:induction false} SubscriptOperands(e: Expr, g: Glob, caseArg: Option<Loc>)
    requires e.SubscriptingRef? && NodePasses(e, g, caseArg)
    ensures Walk(e, g, caseArg) == Verdict(AllOk(Sites(e, g, caseArg), g), Brought(e, g, caseArg))
    decreases e, 0
  {
    hide NodeAccepted, MayStand, AgreeOn;
    RuleIsTest(e, g, caseArg);
    ListIsExact(e.upper, g, caseArg, NO_COLLATION);
    ListIsExact(e.lower, g, caseArg, NO_COLLATION);
    WalkIsExact(e.arg, g, caseArg);
    JoinTwo(Brought(e.arg, g, caseArg), NO_COLLATION);
    ResultTest(OwnCollation(e), Arguments(e, g, caseArg));
    assert SiteOk(Site(e, caseArg), g);
  }

  lemma {:induction false} AggregateOperands(e: Expr, g: Glob, caseArg: Option<Loc>)
    requires e.Aggref? && NodePasses(e, g, caseArg)
    ensures Walk(e, g, caseArg) == Verdict(AllOk(Sites(e, g, caseArg), g), Brought(e, g, caseArg))
    decreases e, 0
  {
    hide NodeAccepted, MayStand, AgreeOn;
    RuleIsTest(e, g, caseArg);
    var args := BroughtByAll(e.args, g, caseArg);
    ListIsExact(e.args, g, caseArg, NO_COLLATION);
    OptionIsExact(e.filter, g, caseArg, JoinAll(NO_COLLATION, args));
    JoinCat(NO_COLLATION, args, BroughtByOption(e.filter, g, caseArg));
    InputTest(Arguments(e, g, caseArg), InputCollation(e));
    ResultTest(OwnCollation(e), Arguments(e, g, caseArg));
    assert Site(e, caseArg) in Sites(e, g, caseArg);
  }

  lemma {:induction false} OptionIsExact(e: Option<Expr>, g: Glob, caseArg: Option<Loc>, acc: Loc)
    ensures WalkOption(e, g, caseArg, acc)
         == Verdict(AllOk(SitesOfOption(e, g, caseArg), g), JoinAll(acc, BroughtByOption(e, g, caseArg)))
    decreases e
  {
    if e.Some? {
      WalkIsExact(e.value, g, caseArg);
      assert BroughtByOption(e, g, caseArg)[1..] == [];
    }
  }

  lemma {:induction false} ListIsExact(es: seq<Expr>, g: Glob, caseArg: Option<Loc>, acc: Loc)
    ensures WalkAll(es, g, caseArg, acc) == Verdict(AllOk(SitesOfAll(es, g, caseArg), g), JoinAll(acc, BroughtByAll(es, g, caseArg)))
    decreases es
  {
    if es != [] {
      WalkIsExact(es[0], g, caseArg);
      ListIsExact(es[1..], g, caseArg, Merge(acc, Brought(es[0], g, caseArg)));
      assert BroughtByAll(es, g, caseArg)[1..] == BroughtByAll(es[1..], g, caseArg);
    }
  }

  lemma {:induction false} CaseOperands(e: Expr, g: Glob, caseArg: Option<Loc>)
    requires e.CaseExpr? && NodePasses(e, g, caseArg)
    ensures Walk(e, g, caseArg) == Verdict(AllOk(Sites(e, g, caseArg), g), Brought(e, g, caseArg))
    decreases e, 0
  {
    hide NodeAccepted, MayStand, AgreeOn;
    RuleIsTest(e, g, caseArg);
    var inside := Inside(e.casearg, g, caseArg);
    var whens := BroughtByWhens(e.whens, g, caseArg);
    OptionIsExact(e.casearg, g, caseArg, NO_COLLATION);
    WhensAreExact(e.whens, g, caseArg, inside, NO_COLLATION);
    OptionIsExact(e.def, g, caseArg, JoinAll(NO_COLLATION, whens));
    JoinCat(NO_COLLATION, whens, BroughtByOption(e.def, g, caseArg));
    ResultTest(OwnCollation(e), Arguments(e, g, caseArg));
    assert SiteOk(Site(e, caseArg), g);
  }

  lemma {:induction false} WhensAreExact(ws: seq<CaseWhen>, g: Glob, caseArg: Option<Loc>, inside: Loc, acc: Loc)
    ensures WalkWhens(ws, g, caseArg, inside, acc)
         == Verdict(AllOk(SitesOfWhens(ws, g, caseArg, inside), g), JoinAll(acc, BroughtByWhens(ws, g, caseArg)))
    decreases ws
  {
    if ws != [] {
      WhenIsExact(ws[0], g, caseArg, inside, acc);
      WhensAreExact(ws[1..], g, caseArg, inside, Merge(acc, BroughtByWhen(ws[0], g, caseArg)));
      assert BroughtByWhens(ws, g, caseArg)[1..] == BroughtByWhens(ws[1..], g, caseArg);
    }
  }

  lemma {:induction false} WhenIsExact(w: CaseWhen, g: Glob, caseArg: Option<Loc>, inside: Loc, acc: Loc)
    ensures WalkWhen(w, g, caseArg, inside, acc)
         == Verdict(AllOk(SitesOfWhen(w, g, caseArg, inside), g), Merge(acc, BroughtByWhen(w, g, caseArg)))
    decreases w
  {
    WalkIsExact(w.cond, g, Some(inside));
    WalkIsExact(w.result, g, caseArg);
  }

  /** An expression is shipped if and only if all its nodes pass and its arguments agree on every input collation,
      its own collation does not conflict, and no function in it is mutable. */
  lemma ShippedIffAllOk(e: Expr, g: Glob, mutable: bool)
    ensures IsForeignExpr(e, g, mutable)
        <==> AllOk(Sites(e, g, None), g) && !Brought(e, g, None).state.Unsafe? && !mutable
  {
    WalkIsExact(e, g, None);
  }
}
