/** `foreign_expr_walker`: which expressions may be sent to DB2, and the collation each one brings
    along. `Walk` is the decision as a function; the method of the class updates collation contexts
    in place. `is_shippable` comes first, with its cache. */
module Walker {
  import opened Nodes
  import opened Deparse

  // ----- is_shippable

  /** `is_builtin`. */
  predicate IsBuiltin(oid: Oid) {
    oid < FIRST_GENBKI_OBJECT_ID
  }

  /** The shippability cache. A lookup in the catalogs finds the extension an object belongs to. */
  class ShippableCache {
    var entries: map<(Oid, Oid), bool>
    var shippableExtensions: seq<Oid>
    const extensionOf: (Oid, Oid) -> Oid

    constructor (extensions: seq<Oid>, extensionOf: (Oid, Oid) -> Oid)
      ensures entries == map[] && shippableExtensions == extensions && this.extensionOf == extensionOf
    {
      entries := map[];
      shippableExtensions := extensions;
      this.extensionOf := extensionOf;
    }

    /** `lookup_shippable` finds out whether the extension is listed, and then answers no. */
    method Lookup(objid: Oid, catalog: Oid) returns (r: bool)
      ensures !r
    {
      var extension := extensionOf(catalog, objid);
      var isValid := extension != INVALID_OID && extension in shippableExtensions;
      r := false;
    }

    /** Whatever the cache and the extension list hold, exactly the built-in objects are shippable. */
    method IsShippable(objid: Oid, catalog: Oid) returns (r: bool)
      modifies this`entries
      ensures r == IsBuiltin(objid)
      ensures entries == old(entries)
           || (entries == old(entries)[(objid, catalog) := false] && (objid, catalog) !in old(entries))
    {
      if IsBuiltin(objid) {
        r := true;
      } else if shippableExtensions == [] {
        r := false;
      } else if (objid, catalog) !in entries {
        r := Lookup(objid, catalog);
        entries := entries[(objid, catalog) := r];
      } else {
        r := false;
      }
    }
  }

  // ----- collation states

  datatype CollState = Nothing | Safe | Unsafe

  /** A collation and its state. The collation means something only while the state is Safe. */
  datatype Loc = Loc(coll: Oid, state: CollState)

  const NO_COLLATION := Loc(INVALID_OID, Nothing)

  function Rank(s: CollState): nat {
    match s
    case Nothing => 0
    case Safe => 1
    case Unsafe => 2
  }

  /** How a child's collation is merged into its parent's. */
  function Merge(outer: Loc, own: Loc): Loc {
    if Rank(own.state) > Rank(outer.state) then own
    else if own.state == outer.state && own.state.Safe? && own.coll != outer.coll then
      if outer.coll == DEFAULT_COLLATION_OID then own
      else if own.coll != DEFAULT_COLLATION_OID then outer.(state := Unsafe)
      else outer
    else outer
  }

  /** The collation a node introduces, given what its inputs brought. */
  function ResultLoc(coll: Oid, inner: Loc): Loc {
    if coll == INVALID_OID then Loc(coll, Nothing)
    else if inner.state.Safe? && coll == inner.coll then Loc(coll, Safe)
    else if coll == DEFAULT_COLLATION_OID then Loc(coll, Nothing)
    else Loc(coll, Unsafe)
  }

  /** An input collation must come from a foreign column. */
  predicate InputOk(inputcoll: Oid, inner: Loc) {
    inputcoll == INVALID_OID || (inner.state.Safe? && inputcoll == inner.coll)
  }

  /** Constants, parameters and columns of other relations. */
  function OutsideLoc(coll: Oid): Loc {
    Loc(coll, if coll == INVALID_OID || coll == DEFAULT_COLLATION_OID then Nothing else Unsafe)
  }

  // ----- the decision

  const SELF_ITEM_ATTRIBUTE: int := -1

  /** The scan's relations, and whether this is an upper relation. */
  datatype Glob = Glob(relids: set<nat>, upper: bool)

  /** A value that the deparser could not render is refused, if its type is one it handles. */
  predicate ConstAccepted(t: PgType, d: Datum) {
    d.NullDatum? || !CanHandleType(t) || DatumText(d, t).Some?
  }

  /** The array operand of `op ANY` and `op ALL` must be a list that is known when planning. */
  predicate ArrayShapeAccepted(arr: Expr) {
    if arr.ArrayCoerceExpr? then arr.binaryOnly && (arr.arg.Const? || arr.arg.ArrayExpr?)
    else arr.Const? || arr.ArrayExpr?
  }

  /** Below dropped casts. */
  function StripCasts(e: Expr): Expr {
    match e
    case RelabelType(a, _, _) => StripCasts(a)
    case ImplicitCast(_, first, _, _, _, _) => StripCasts(first)
    case ArrayCoerceExpr(a, _, _, _) => StripCasts(a)
    case _ => e
  }

  /** In a CASE with an argument, every condition compares the argument. */
  predicate ComparesCaseArg(cond: Expr) {
    cond.BinaryOp? && StripCasts(cond.left).CaseTestExpr?
  }

  predicate AggregateAccepted(agg: AggName, aggoid: Oid, simple: bool, g: Glob) {
    g.upper && simple && IsBuiltin(aggoid) && !agg.OtherAgg?
  }

  /** What the node itself must satisfy, apart from its children and collations. */
  predicate NodeAccepted(e: Expr, g: Glob, caseArg: Option<Loc>) {
    match e
    case Var(varno, attno, levelsup, _, _) =>
      varno in g.relids && levelsup == 0 ==> attno >= 0 || attno == SELF_ITEM_ATTRIBUTE
    case Const(t, _, d) => ConstAccepted(t, d)
    case Param(multi, _, _, _) => !multi
    case BinaryOp(name, op, _, _, _, _, _) => IsBuiltin(op.oid) && TranslatableBinary(name, op)
    case UnaryOp(name, op, _, _, _, _) => IsBuiltin(op.oid) && TranslatableUnary(name, op)
    case DistinctExpr(name, op, _, _, _, _) => IsBuiltin(op.oid) && TranslatableBinary(name, op)
    case ScalarArrayOp(_, op, _, _, arr, _) => IsBuiltin(op.oid) && ArrayShapeAccepted(arr)
    case CaseExpr(_, _, casearg, whens, _) =>
      casearg.Some? ==> forall i | 0 <= i < |whens| :: ComparesCaseArg(whens[i].cond)
    case CaseTestExpr(_, _) => caseArg.Some?
    case FuncExpr(fn, args, t, _, _) => IsBuiltin(fn.oid) && TranslatableFunction(fn, args, t)
    case ImplicitCast(fn, _, _, t, _, _) => IsBuiltin(fn.oid) && CanHandleType(t)
    case SubscriptingRef(assigns, _, _, _, _, _) => !assigns
    case Aggref(agg, aggoid, simple, _, _, _, _, _, _, _) => AggregateAccepted(agg, aggoid, simple, g)
    case OtherExpr(_) => false
    case _ => true
  }

  /** The collation of an accepted expression, before it is merged into its parent's; none when the
      expression is refused. */
  function Walk(e: Expr, g: Glob, caseArg: Option<Loc>): Option<Loc>
    decreases e
  {
    if !NodeAccepted(e, g, caseArg) || !IsBuiltin(TypeOid(ExprType(e))) then None else
    match e
    case Var(varno, _, levelsup, _, coll) =>
      if varno in g.relids && levelsup == 0 then Some(Loc(coll, if coll == INVALID_OID then Nothing else Safe))
      else Some(OutsideLoc(coll))
    case Const(_, coll, _) => Some(OutsideLoc(coll))
    case Param(_, _, _, coll) => Some(OutsideLoc(coll))
    case BinaryOp(_, _, l, r, _, rcoll, inputcoll) =>
      var a :- Walk(l, g, caseArg);
      var b :- Walk(r, g, caseArg);
      Checked(inputcoll, rcoll, Merge(Merge(NO_COLLATION, a), b))
    case UnaryOp(_, _, arg, _, rcoll, inputcoll) =>
      var a :- Walk(arg, g, caseArg);
      Checked(inputcoll, rcoll, Merge(NO_COLLATION, a))
    case DistinctExpr(_, _, l, r, rcoll, inputcoll) =>
      var a :- Walk(l, g, caseArg);
      var b :- Walk(r, g, caseArg);
      Checked(inputcoll, rcoll, Merge(Merge(NO_COLLATION, a), b))
    case ScalarArrayOp(_, _, _, l, arr, inputcoll) =>
      var a :- Walk(l, g, caseArg);
      var b :- Walk(arr, g, caseArg);
      Checked(inputcoll, INVALID_OID, Merge(Merge(NO_COLLATION, a), b))
    case NotExpr(arg) =>
      var _ :- Walk(arg, g, caseArg);
      Some(NO_COLLATION)
    case AndOrExpr(_, first, rest) =>
      var a :- Walk(first, g, caseArg);
      var _ :- WalkAll(rest, g, caseArg, Merge(NO_COLLATION, a));
      Some(NO_COLLATION)
    case NullTest(arg, _, _) =>
      var _ :- Walk(arg, g, caseArg);
      Some(NO_COLLATION)
    case RelabelType(arg, _, rcoll) =>
      var a :- Walk(arg, g, caseArg);
      Some(ResultLoc(rcoll, Merge(NO_COLLATION, a)))
    case ArrayCoerceExpr(arg, _, _, rcoll) =>
      var a :- Walk(arg, g, caseArg);
      Some(ResultLoc(rcoll, Merge(NO_COLLATION, a)))
    case CaseExpr(_, rcoll, casearg, whens, def) =>
      var inside :- WalkOption(casearg, g, caseArg, NO_COLLATION);
      var thens :- WalkWhens(whens, g, caseArg, inside, NO_COLLATION);
      var inner :- WalkOption(def, g, caseArg, thens);
      Some(ResultLoc(rcoll, inner))
    case CaseTestExpr(_, coll) => Some(ResultLoc(coll, if caseArg.Some? then caseArg.value else NO_COLLATION))
    case ArrayExpr(es, _, rcoll) =>
      var inner :- WalkAll(es, g, caseArg, NO_COLLATION);
      Some(ResultLoc(rcoll, inner))
    case FuncExpr(_, args, _, rcoll, inputcoll) =>
      var inner :- WalkAll(args, g, caseArg, NO_COLLATION);
      Checked(inputcoll, rcoll, inner)
    case ImplicitCast(_, first, rest, _, rcoll, inputcoll) =>
      var a :- Walk(first, g, caseArg);
      var inner :- WalkAll(rest, g, caseArg, Merge(NO_COLLATION, a));
      Checked(inputcoll, rcoll, inner)
    case SubscriptingRef(_, upper, lower, arg, _, rcoll) =>
      var _ :- WalkAll(upper, g, caseArg, NO_COLLATION);
      var _ :- WalkAll(lower, g, caseArg, NO_COLLATION);
      var a :- Walk(arg, g, caseArg);
      Some(ResultLoc(rcoll, Merge(NO_COLLATION, a)))
    case Aggref(_, _, _, _, _, args, filter, _, rcoll, inputcoll) =>
      var a :- WalkAll(args, g, caseArg, NO_COLLATION);
      var inner :- WalkOption(filter, g, caseArg, a);
      Checked(inputcoll, rcoll, inner)
    case OtherExpr(_) => None
  }

  /** The collation a function or operator introduces, if its input collation is sound. */
  function Checked(inputcoll: Oid, rcoll: Oid, inner: Loc): Option<Loc> {
    if InputOk(inputcoll, inner) then Some(ResultLoc(rcoll, inner)) else None
  }

  function WalkOption(e: Option<Expr>, g: Glob, caseArg: Option<Loc>, outer: Loc): Option<Loc>
    decreases e
  {
    if e.None? then Some(outer)
    else
      var own :- Walk(e.value, g, caseArg);
      Some(Merge(outer, own))
  }

  function WalkAll(es: seq<Expr>, g: Glob, caseArg: Option<Loc>, outer: Loc): Option<Loc>
    decreases es
  {
    if es == [] then Some(outer)
    else
      var own :- Walk(es[0], g, caseArg);
      WalkAll(es[1..], g, caseArg, Merge(outer, own))
  }

  /** The conditions see the collation of the CASE argument, and only the results bring theirs up. */
  function WalkWhens(ws: seq<CaseWhen>, g: Glob, caseArg: Option<Loc>, arg: Loc, outer: Loc): Option<Loc>
    decreases ws
  {
    if ws == [] then Some(outer)
    else
      var next :- WalkWhen(ws[0], g, caseArg, arg, outer);
      WalkWhens(ws[1..], g, caseArg, arg, next)
  }

  function WalkWhen(w: CaseWhen, g: Glob, caseArg: Option<Loc>, arg: Loc, outer: Loc): Option<Loc>
    decreases w
  {
    var _ :- Walk(w.cond, g, Some(arg));
    var own :- Walk(w.result, g, caseArg);
    Some(Merge(outer, own))
  }

  /** `is_foreign_expr`, given the answer of PostgreSQL's test for mutable functions. */
  predicate IsForeignExpr(e: Expr, g: Glob, mutable: bool) {
    var own := Walk(e, g, None);
    own.Some? && !Merge(NO_COLLATION, own.value).state.Unsafe? && !mutable
  }

  // ----- the walker as it runs

  /** A collation context that the walker updates. */
  class LocCxt {
    var collation: Oid
    var state: CollState

    constructor ()
      ensures Value() == NO_COLLATION
    {
      collation := INVALID_OID;
      state := Nothing;
    }

    function Value(): Loc
      reads this
    {
      Loc(collation, state)
    }

    /** Merge a node's collation into this context. */
    method MergeIn(own: Loc)
      modifies this
      ensures Value() == Merge(old(Value()), own)
    {
      if Rank(own.state) > Rank(state) {
        collation := own.coll;
        state := own.state;
      } else if own.state == state {
        match state
        case Nothing =>
        case Safe =>
          if own.coll != collation {
            if collation == DEFAULT_COLLATION_OID {
              collation := own.coll;
            } else if own.coll != DEFAULT_COLLATION_OID {
              state := Unsafe;
            }
          }
        case Unsafe =>
      }
    }
  }

  function CaseLoc(caseArg: LocCxt?): Option<Loc>
    reads caseArg
  {
    if caseArg == null then None else Some(caseArg.Value())
  }

  /** Check an expression and merge its collation into the outer context, which a refusal leaves alone. */
  method ForeignExprWalker(e: Expr, g: Glob, outer: LocCxt, caseArg: LocCxt?) returns (ok: bool)
    requires caseArg != outer
    modifies outer
    ensures ok == Walk(e, g, CaseLoc(caseArg)).Some?
    ensures outer.Value() == if ok then Merge(old(outer.Value()), Walk(e, g, CaseLoc(caseArg)).value) else old(outer.Value())
    decreases e, 2
  {
    if !NodeAccepted(e, g, CaseLoc(caseArg)) || !IsBuiltin(TypeOid(ExprType(e))) {
      return false;
    }
    var own: Loc;
    ok, own := WalkChildren(e, g, caseArg);
    if ok {
      outer.MergeIn(own);
    }
  }

  method WalkChildren(e: Expr, g: Glob, caseArg: LocCxt?) returns (ok: bool, own: Loc)
    requires NodeAccepted(e, g, CaseLoc(caseArg)) && IsBuiltin(TypeOid(ExprType(e)))
    ensures Walk(e, g, CaseLoc(caseArg)) == if ok then Some(own) else None
    decreases e, 1
  {
    own := NO_COLLATION;
    var inner := new LocCxt();
    match e
    case Var(varno, _, levelsup, _, coll) =>
      if varno in g.relids && levelsup == 0 {
        return true, Loc(coll, if coll == INVALID_OID then Nothing else Safe);
      } else {
        return true, OutsideLoc(coll);
      }
    case Const(_, coll, _) => return true, OutsideLoc(coll);
    case Param(_, _, _, coll) => return true, OutsideLoc(coll);
    case NotExpr(arg) => ok := ForeignExprWalker(arg, g, inner, caseArg);
    case NullTest(arg, _, _) => ok := ForeignExprWalker(arg, g, inner, caseArg);
    case RelabelType(arg, _, rcoll) =>
      ok := ForeignExprWalker(arg, g, inner, caseArg);
      own := ResultLoc(rcoll, inner.Value());
    case ArrayCoerceExpr(arg, _, _, rcoll) =>
      ok := ForeignExprWalker(arg, g, inner, caseArg);
      own := ResultLoc(rcoll, inner.Value());
    case CaseExpr(_, _, _, _, _) => ok, own := WalkCase(e, g, caseArg);
    case CaseTestExpr(_, coll) => return true, ResultLoc(coll, caseArg.Value());
    case OtherExpr(_) => return false, own;
    case BinaryOp(_, _, _, _, _, _, _) => ok, own := WalkOperator(e, g, caseArg);
    case UnaryOp(_, _, _, _, _, _) => ok, own := WalkOperator(e, g, caseArg);
    case DistinctExpr(_, _, _, _, _, _) => ok, own := WalkOperator(e, g, caseArg);
    case ScalarArrayOp(_, _, _, _, _, _) => ok, own := WalkOperator(e, g, caseArg);
    case _ => ok, own := WalkListNode(e, g, caseArg);
  }

  method WalkOperator(e: Expr, g: Glob, caseArg: LocCxt?) returns (ok: bool, own: Loc)
    requires e.BinaryOp? || e.UnaryOp? || e.DistinctExpr? || e.ScalarArrayOp?
    requires NodeAccepted(e, g, CaseLoc(caseArg)) && IsBuiltin(TypeOid(ExprType(e)))
    ensures Walk(e, g, CaseLoc(caseArg)) == if ok then Some(own) else None
    decreases e, 0
  {
    own := NO_COLLATION;
    var inner := new LocCxt();
    match e
    case BinaryOp(_, _, l, r, _, rcoll, inputcoll) =>
      ok := ForeignExprWalker(l, g, inner, caseArg);
      if ok {
        ok := ForeignExprWalker(r, g, inner, caseArg);
      }
      if ok && InputOk(inputcoll, inner.Value()) {
        return true, ResultLoc(rcoll, inner.Value());
      } else {
        return false, own;
      }
    case UnaryOp(_, _, arg, _, rcoll, inputcoll) =>
      ok := ForeignExprWalker(arg, g, inner, caseArg);
      if ok && InputOk(inputcoll, inner.Value()) {
        return true, ResultLoc(rcoll, inner.Value());
      } else {
        return false, own;
      }
    case DistinctExpr(_, _, l, r, rcoll, inputcoll) =>
      ok := ForeignExprWalker(l, g, inner, caseArg);
      if ok {
        ok := ForeignExprWalker(r, g, inner, caseArg);
      }
      if ok && InputOk(inputcoll, inner.Value()) {
        return true, ResultLoc(rcoll, inner.Value());
      } else {
        return false, own;
      }
    case ScalarArrayOp(_, _, _, l, arr, inputcoll) =>
      ok := ForeignExprWalker(l, g, inner, caseArg);
      if ok {
        ok := ForeignExprWalker(arr, g, inner, caseArg);
      }
      return ok && InputOk(inputcoll, inner.Value()), own;
  }

  /** Nodes with a list of children. */
  method WalkListNode(e: Expr, g: Glob, caseArg: LocCxt?) returns (ok: bool, own: Loc)
    requires e.AndOrExpr? || e.ArrayExpr? || e.FuncExpr? || e.ImplicitCast? || e.SubscriptingRef? || e.Aggref?
    requires NodeAccepted(e, g, CaseLoc(caseArg)) && IsBuiltin(TypeOid(ExprType(e)))
    ensures Walk(e, g, CaseLoc(caseArg)) == if ok then Some(own) else None
    decreases e, 0
  {
    own := NO_COLLATION;
    var inner := new LocCxt();
    match e
    case AndOrExpr(_, first, rest) =>
      ok := ForeignExprWalker(first, g, inner, caseArg);
      if ok {
        ok := WalkList(rest, g, inner, caseArg);
      }
    case ArrayExpr(es, _, rcoll) =>
      ok := WalkList(es, g, inner, caseArg);
      own := ResultLoc(rcoll, inner.Value());
    case FuncExpr(_, args, _, rcoll, inputcoll) =>
      ok := WalkList(args, g, inner, caseArg);
      if ok && InputOk(inputcoll, inner.Value()) {
        return true, ResultLoc(rcoll, inner.Value());
      } else {
        return false, own;
      }
    case ImplicitCast(_, first, rest, _, rcoll, inputcoll) =>
      ok := ForeignExprWalker(first, g, inner, caseArg);
      if ok {
        ok := WalkList(rest, g, inner, caseArg);
      }
      if ok && InputOk(inputcoll, inner.Value()) {
        return true, ResultLoc(rcoll, inner.Value());
      } else {
        return false, own;
      }
    case SubscriptingRef(_, upper, lower, arg, _, rcoll) =>
      ok := WalkList(upper, g, inner, caseArg);
      if ok {
        inner.collation, inner.state := INVALID_OID, Nothing;
        ok := WalkList(lower, g, inner, caseArg);
      }
      if ok {
        inner.collation, inner.state := INVALID_OID, Nothing;
        ok := ForeignExprWalker(arg, g, inner, caseArg);
      }
      own := ResultLoc(rcoll, inner.Value());
    case Aggref(_, _, _, _, _, args, filter, _, rcoll, inputcoll) =>
      ok := WalkList(args, g, inner, caseArg);
      if ok && filter.Some? {
        ok := ForeignExprWalker(filter.value, g, inner, caseArg);
      }
      if ok && InputOk(inputcoll, inner.Value()) {
        return true, ResultLoc(rcoll, inner.Value());
      } else {
        return false, own;
      }
  }

  /** The elements of a list, each merged into the same context. */
  method WalkList(es: seq<Expr>, g: Glob, outer: LocCxt, caseArg: LocCxt?) returns (ok: bool)
    requires caseArg != outer
    modifies outer
    ensures WalkAll(es, g, CaseLoc(caseArg), old(outer.Value())) == if ok then Some(outer.Value()) else None
    decreases es
  {
    var i := 0;
    while i < |es|
      invariant 0 <= i <= |es|
      invariant WalkAll(es[i..], g, CaseLoc(caseArg), outer.Value())
             == WalkAll(es, g, CaseLoc(caseArg), old(outer.Value()))
    {
      assert es[i..][1..] == es[i + 1..];
      ok := ForeignExprWalker(es[i], g, outer, caseArg);
      if !ok {
        return;
      }
      i := i + 1;
    }
    ok := true;
  }

  method WalkCase(e: Expr, g: Glob, caseArg: LocCxt?) returns (ok: bool, own: Loc)
    requires e.CaseExpr? && NodeAccepted(e, g, CaseLoc(caseArg)) && IsBuiltin(TypeOid(ExprType(e)))
    ensures Walk(e, g, CaseLoc(caseArg)) == if ok then Some(own) else None
    decreases e, 0
  {
    own := NO_COLLATION;
    var argCxt := new LocCxt();
    var inner := new LocCxt();
    if e.casearg.Some? {
      ok := ForeignExprWalker(e.casearg.value, g, argCxt, caseArg);
      if !ok {
        return;
      }
    }
    ok := WalkWhenList(e.whens, g, inner, caseArg, argCxt);
    if !ok {
      return;
    }
    if e.def.Some? {
      ok := ForeignExprWalker(e.def.value, g, inner, caseArg);
      if !ok {
        return;
      }
    }
    return true, ResultLoc(e.rcoll, inner.Value());
  }

  /** The condition is walked into a context of its own, the result into the outer one. */
  method WalkWhenNode(w: CaseWhen, g: Glob, outer: LocCxt, caseArg: LocCxt?, argCxt: LocCxt) returns (ok: bool)
    requires caseArg != outer && argCxt != outer
    modifies outer
    ensures WalkWhen(w, g, CaseLoc(caseArg), argCxt.Value(), old(outer.Value()))
         == if ok then Some(outer.Value()) else None
    decreases w
  {
    var tmp := new LocCxt();
    ok := ForeignExprWalker(w.cond, g, tmp, argCxt);
    if ok {
      ok := ForeignExprWalker(w.result, g, outer, caseArg);
    }
  }

  method WalkWhenList(ws: seq<CaseWhen>, g: Glob, outer: LocCxt, caseArg: LocCxt?, argCxt: LocCxt) returns (ok: bool)
    requires caseArg != outer && argCxt != outer
    modifies outer
    ensures WalkWhens(ws, g, CaseLoc(caseArg), argCxt.Value(), old(outer.Value()))
         == if ok then Some(outer.Value()) else None
    decreases ws
  {
    var i := 0;
    while i < |ws|
      invariant 0 <= i <= |ws|
      invariant WalkWhens(ws[i..], g, CaseLoc(caseArg), argCxt.Value(), outer.Value())
             == WalkWhens(ws, g, CaseLoc(caseArg), argCxt.Value(), old(outer.Value()))
    {
      assert ws[i..][1..] == ws[i + 1..];
      ok := WalkWhenNode(ws[i], g, outer, caseArg, argCxt);
      if !ok {
        return;
      }
      i := i + 1;
    }
    ok := true;
  }

  /** `is_foreign_expr`. A relation that the planner gave no FDW state ships nothing. */
  method CheckForeignExpr(e: Expr, g: Option<Glob>, mutable: bool) returns (ok: bool)
    ensures ok == (g.Some? && IsForeignExpr(e, g.value, mutable))
  {
    if g.None? {
      return false;
    }
    var loc := new LocCxt();
    ok := ForeignExprWalker(e, g.value, loc, null);
    ok := ok && !loc.state.Unsafe? && !mutable;
  }
}
