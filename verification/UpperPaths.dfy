/** Which stages of a query may run on DB2: `classifyConditions`, `db2GetForeignUpperPaths` and the
    grouping, ordered and final stages that it tries, without their costs. */
module UpperPaths {

  datatype RelKind = BaseRel | JoinRel | UpperRel

  datatype Stage = NoStage | SetOp | PartialGroupAgg | GroupAgg | Window | PartialDistinct | Distinct | Ordered | Final

  /** An entry of a grouping target: an expression, and whether it belongs to GROUP BY. */
  datatype Target<C> = Target(expr: C, grouping: bool)

  /** What the stages look at: the shape of the query, and the answers of `is_foreign_expr` (`foreign`),
      `is_foreign_param` (`param`), and of pulling the Vars and aggregates out of an expression. The
      expressions of LIMIT and OFFSET are empty or have one element. */
  datatype Query<!C> = Query(
    setOperations: bool, hasAggs: bool, hasGroupClause: bool, groupingSets: bool, hasHaving: bool, hasSortClause: bool,
    hasTargetSRFs: bool, isSelect: bool, rowMarks: bool, limitNeeded: bool, withTies: bool,
    targets: seq<Target<C>>, having: seq<C>, limitOffset: seq<C>, limitCount: seq<C>,
    sortKeysShippable: bool, foreign: C -> bool, param: C -> bool, aggregates: C -> seq<C>, aggVarsForeign: C -> bool)

  /** The elements that have, or do not have, a property. */
  function Select<C>(cs: seq<C>, p: C -> bool, wanted: bool): seq<C> {
    if cs == [] then [] else (if p(cs[0]) == wanted then [cs[0]] else []) + Select(cs[1..], p, wanted)
  }

  lemma {:induction false} SelectSnoc<C>(cs: seq<C>, c: C, p: C -> bool, wanted: bool)
    ensures Select(cs + [c], p, wanted) == Select(cs, p, wanted) + if p(c) == wanted then [c] else []
  {
    if cs == [] {
      assert cs + [c] == [c];
    } else {
      assert (cs + [c])[1..] == cs[1..] + [c];
      SelectSnoc(cs[1..], c, p, wanted);
      var first := if p(cs[0]) == wanted then [cs[0]] else [];
      var last := if p(c) == wanted then [c] else [];
      var middle := Select(cs[1..], p, wanted);
      assert first + (middle + last) == first + middle + last;
    }
  }

  /** `classifyConditions`. */
  method ClassifyConditions<C>(conds: seq<C>, foreign: C -> bool) returns (remote: seq<C>, local: seq<C>)
    ensures remote == Select(conds, foreign, true) && local == Select(conds, foreign, false)
  {
    remote, local := [], [];
    for i := 0 to |conds|
      invariant remote == Select(conds[..i], foreign, true) && local == Select(conds[..i], foreign, false)
    {
      assert conds[..i + 1] == conds[..i] + [conds[i]];
      SelectSnoc(conds[..i], conds[i], foreign, true);
      SelectSnoc(conds[..i], conds[i], foreign, false);
      if foreign(conds[i]) {
        remote := remote + [conds[i]];
      } else {
        local := local + [conds[i]];
      }
    }
    assert conds[..|conds|] == conds;
  }

  /** No condition is lost, none is invented, and each goes where it may run. */
  lemma {:induction false} ClassificationIsPartition<C>(conds: seq<C>, foreign: C -> bool)
    ensures var remote, local := Select(conds, foreign, true), Select(conds, foreign, false);
      && multiset(remote) + multiset(local) == multiset(conds)
      && (forall c | c in remote :: foreign(c)) && (forall c | c in local :: !foreign(c))
  {
    if conds != [] {
      ClassificationIsPartition(conds[1..], foreign);
      assert conds == [conds[0]] + conds[1..];
    }
  }

  // ----- planner state

  /** DB2FdwState, as far as the stages use it. */
  class FdwState<C> {
    var pushdownSafe: bool
    var qpIsPushdownSafe: bool
    var stage: Stage
    var outerrel: RelOptInfo?<C>
    var remoteConds: seq<C>
    var localConds: seq<C>
    var groupedTlist: seq<C>

    constructor (pushdownSafe: bool, remote: seq<C>, local: seq<C>)
      ensures this.pushdownSafe == pushdownSafe && !qpIsPushdownSafe && stage == NoStage && outerrel == null
      ensures remoteConds == remote && localConds == local && groupedTlist == []
    {
      this.pushdownSafe, qpIsPushdownSafe, stage, outerrel := pushdownSafe, false, NoStage, null;
      remoteConds, localConds, groupedTlist := remote, local, [];
    }

    /** `db2CloneFdwStateUpper`: everything is copied, but nothing is known to be safe yet. */
    constructor Clone(from: FdwState<C>)
      ensures !pushdownSafe && qpIsPushdownSafe == from.qpIsPushdownSafe && stage == from.stage && outerrel == from.outerrel
      ensures remoteConds == from.remoteConds && localConds == from.localConds && groupedTlist == from.groupedTlist
    {
      pushdownSafe, qpIsPushdownSafe, stage, outerrel := false, from.qpIsPushdownSafe, from.stage, from.outerrel;
      remoteConds, localConds, groupedTlist := from.remoteConds, from.localConds, from.groupedTlist;
    }
  }

  class RelOptInfo<C> {
    const kind: RelKind
    var fdwPrivate: FdwState?<C>

    constructor (kind: RelKind, fdw: FdwState?<C>)
      ensures this.kind == kind && fdwPrivate == fdw
    {
      this.kind := kind;
      fdwPrivate := fdw;
    }
  }

  // ----- grouping

  /** A grouping expression must be computable by DB2 and no parameter; another expression must be
      computable as a whole or have only computable aggregates and columns. */
  predicate TargetOk<C>(t: Target<C>, q: Query<C>) {
    if t.grouping then q.foreign(t.expr) && !q.param(t.expr)
    else (q.foreign(t.expr) && !q.param(t.expr)) || q.aggVarsForeign(t.expr)
  }

  predicate HavingOk<C>(c: C, q: Query<C>) {
    q.foreign(c) || forall i | 0 <= i < |q.aggregates(c)| :: q.foreign(q.aggregates(c)[i])
  }

  /** When `foreign_grouping_ok` accepts, given the local conditions of the input. */
  predicate GroupingOk<C>(q: Query<C>, inputLocal: seq<C>) {
    && !q.groupingSets && inputLocal == []
    && (forall i | 0 <= i < |q.targets| :: TargetOk(q.targets[i], q))
    && (forall i | 0 <= i < |q.having| :: HavingOk(q.having[i], q))
  }

  /** What DB2 has to compute for an entry: the expression, or the aggregates in it. */
  function Wanted<C>(t: Target<C>, q: Query<C>): seq<C> {
    if t.grouping || (q.foreign(t.expr) && !q.param(t.expr)) then [t.expr] else q.aggregates(t.expr)
  }

  predicate Covers<C(==)>(tlist: seq<C>, wanted: seq<C>) {
    forall i | 0 <= i < |wanted| :: wanted[i] in tlist
  }

  /** `add_to_flat_tlist`, which suppresses duplicates. */
  method AddToFlatTlist<C(==)>(tlist: seq<C>, es: seq<C>) returns (r: seq<C>)
    ensures tlist <= r && Covers(r, es)
    ensures forall c | c in r :: c in tlist || c in es
  {
    r := tlist;
    for i := 0 to |es|
      invariant tlist <= r && Covers(r, es[..i])
      invariant forall c | c in r :: c in tlist || c in es
    {
      if es[i] !in r {
        r := r + [es[i]];
      }
    }
  }

  /** The target list that `foreign_grouping_ok` builds is complete. */
  ghost predicate TlistCovers<C>(tlist: seq<C>, q: Query<C>) {
    && (forall i | 0 <= i < |q.targets| :: Covers(tlist, Wanted(q.targets[i], q)))
    && (forall i | 0 <= i < |q.having| && !q.foreign(q.having[i]) :: Covers(tlist, q.aggregates(q.having[i])))
  }

  /** DB2 returns the expression of the entry or, unless it belongs to GROUP BY, the aggregates that it is made of. */
  predicate IsComputed<C(==)>(t: Target<C>, tlist: seq<C>, q: Query<C>) {
    t.expr in tlist || (!t.grouping && forall k | 0 <= k < |q.aggregates(t.expr)| :: q.aggregates(t.expr)[k] in tlist)
  }

  lemma TargetsAreComputed<C>(tlist: seq<C>, q: Query<C>)
    requires TlistCovers(tlist, q)
    ensures forall i | 0 <= i < |q.targets| :: IsComputed(q.targets[i], tlist, q)
  {
    forall i | 0 <= i < |q.targets| ensures IsComputed(q.targets[i], tlist, q) {
      var wanted := Wanted(q.targets[i], q);
      assert Covers(tlist, wanted);
      if wanted == [q.targets[i].expr] {
        assert wanted[0] in tlist;
      }
    }
  }

  /** The loop over the grouping target. */
  method BuildTlist<C(==)>(q: Query<C>) returns (ok: bool, tlist: seq<C>)
    ensures ok <==> forall i | 0 <= i < |q.targets| :: TargetOk(q.targets[i], q)
    ensures ok ==> forall i | 0 <= i < |q.targets| :: Covers(tlist, Wanted(q.targets[i], q))
  {
    tlist := [];
    for i := 0 to |q.targets|
      invariant forall k | 0 <= k < i :: TargetOk(q.targets[k], q) && Covers(tlist, Wanted(q.targets[k], q))
    {
      var t := q.targets[i];
      if t.grouping {
        if !q.foreign(t.expr) || q.param(t.expr) {
          return false, tlist;
        }
        tlist := tlist + [t.expr];
      } else if q.foreign(t.expr) && !q.param(t.expr) {
        tlist := AddToFlatTlist(tlist, [t.expr]);
      } else {
        if !q.aggVarsForeign(t.expr) {
          return false, tlist;
        }
        tlist := AddToFlatTlist(tlist, q.aggregates(t.expr));
      }
    }
    ok := true;
  }

  /** The loop over the aggregates of local HAVING clauses. */
  method AddLocalAggregates<C(==)>(q: Query<C>, local: seq<C>, start: seq<C>) returns (ok: bool, tlist: seq<C>)
    ensures ok <==> forall k | 0 <= k < |local| :: AllForeign(q.aggregates(local[k]), q)
    ensures ok ==> start <= tlist && forall k | 0 <= k < |local| :: Covers(tlist, q.aggregates(local[k]))
  {
    tlist := start;
    for k := 0 to |local|
      invariant start <= tlist
      invariant forall j | 0 <= j < k :: AllForeign(q.aggregates(local[j]), q) && Covers(tlist, q.aggregates(local[j]))
    {
      var aggs := q.aggregates(local[k]);
      for i := 0 to |aggs|
        invariant start <= tlist && (forall j | 0 <= j < i :: q.foreign(aggs[j])) && Covers(tlist, aggs[..i])
        invariant forall j | 0 <= j < k :: Covers(tlist, q.aggregates(local[j]))
      {
        if !q.foreign(aggs[i]) {
          return false, tlist;
        }
        tlist := AddToFlatTlist(tlist, [aggs[i]]);
        assert [aggs[i]][0] in tlist;
      }
      assert aggs[..|aggs|] == aggs;
    }
    ok := true;
  }

  predicate AllForeign<C>(cs: seq<C>, q: Query<C>) {
    forall i | 0 <= i < |cs| :: q.foreign(cs[i])
  }

  lemma {:induction false} LocalsAreHaving<C>(having: seq<C>, q: Query<C>)
    ensures var local := Select(having, q.foreign, false);
      && (forall k | 0 <= k < |local| :: local[k] in having && !q.foreign(local[k]))
      && (forall i | 0 <= i < |having| && !q.foreign(having[i]) :: having[i] in local)
  {
    if having != [] {
      LocalsAreHaving(having[1..], q);
    }
  }

  /** `foreign_grouping_ok`. What an accepted stage keeps of the conditions are HAVING clauses only:
      those of the input were copied with the state, and are dropped. */
  method ForeignGroupingOk<C(==)>(q: Query<C>, grouped: FdwState<C>, input: FdwState<C>) returns (ok: bool)
    requires grouped != input && !grouped.pushdownSafe
    modifies grouped
    ensures ok == GroupingOk(q, input.localConds) && grouped.pushdownSafe == ok
    ensures grouped.stage == old(grouped.stage) && grouped.outerrel == old(grouped.outerrel)
    ensures grouped.qpIsPushdownSafe == old(grouped.qpIsPushdownSafe)
    ensures ok ==> HoldsHaving(grouped.remoteConds, grouped.localConds, q) && TlistCovers(grouped.groupedTlist, q)
    ensures ok ==> forall i | 0 <= i < |q.targets| :: IsComputed(q.targets[i], grouped.groupedTlist, q)
  {
    if q.groupingSets || input.localConds != [] {
      return false;
    }
    var tlist;
    ok, tlist := BuildTlist(q);
    if !ok {
      return;
    }
    var remote, local := ClassifyConditions(q.having, q.foreign);
    grouped.remoteConds, grouped.localConds := remote, local;
    LocalsAreHaving(q.having, q);
    ghost var before := tlist;
    ok, tlist := AddLocalAggregates(q, local, tlist);
    assert ok ==> forall i | 0 <= i < |q.having| :: HavingOk(q.having[i], q);
    if ok {
      TargetsAreComputed(tlist, q);
      grouped.groupedTlist := tlist;
      grouped.pushdownSafe := true;
    }
  }

  ghost predicate HoldsHaving<C>(remote: seq<C>, local: seq<C>, q: Query<C>) {
    remote == Select(q.having, q.foreign, true) && local == Select(q.having, q.foreign, false)
  }

  // ----- sorting and limiting

  /** When the rows of a relation may be sorted on DB2. */
  ghost predicate OrderedOk<C>(q: Query<C>, input: RelOptInfo<C>)
    requires input.fdwPrivate != null
    reads input, input.fdwPrivate
  {
    !q.hasTargetSRFs &&
    if input.kind == UpperRel then input.fdwPrivate.pushdownSafe && q.sortKeysShippable
    else input.fdwPrivate.qpIsPushdownSafe
  }

  /** `add_foreign_ordered_paths`. Over a base or join relation the flag of presorted paths decides, which
      nothing ever sets. */
  method AddOrderedPaths<C>(q: Query<C>, input: RelOptInfo<C>, ordered: FdwState<C>)
    requires input.fdwPrivate != null && input.fdwPrivate != ordered && !ordered.pushdownSafe
    modifies ordered
    ensures ordered.stage == old(ordered.stage) && ordered.remoteConds == old(ordered.remoteConds)
    ensures ordered.localConds == old(ordered.localConds) && ordered.qpIsPushdownSafe == old(ordered.qpIsPushdownSafe)
    ensures ordered.outerrel == input || ordered.outerrel == old(ordered.outerrel)
    ensures ordered.pushdownSafe == OrderedOk(q, input)
    ensures ordered.pushdownSafe ==> ordered.outerrel == input
  {
    var i := input.fdwPrivate;
    if input.kind == UpperRel && !i.pushdownSafe {
      return;
    }
    if !q.hasTargetSRFs {
      ordered.outerrel := input;
      if input.kind != UpperRel {
        ordered.pushdownSafe := i.qpIsPushdownSafe;
      } else if q.sortKeysShippable {
        ordered.pushdownSafe := true;
      }
    }
  }

  /** The relation whose rows are limited: below an ordered relation, its input. */
  ghost predicate LimitOk<C>(q: Query<C>, limited: FdwState<C>)
    reads limited
  {
    && limited.localConds == [] && !q.withTies
    && (forall i | 0 <= i < |q.limitOffset| :: q.foreign(q.limitOffset[i]))
    && (forall i | 0 <= i < |q.limitCount| :: q.foreign(q.limitCount[i]))
  }

  /** The state below an ordered stage. */
  ghost function Limited<C>(input: RelOptInfo<C>): FdwState?<C>
    requires input.fdwPrivate != null
    reads input, input.fdwPrivate, input.fdwPrivate.outerrel
  {
    if input.kind == UpperRel && input.fdwPrivate.stage == Ordered && input.fdwPrivate.outerrel != null
    then input.fdwPrivate.outerrel.fdwPrivate
    else input.fdwPrivate
  }

  /** When the rows of a relation may be limited, or locked, on DB2. */
  ghost predicate FinalOk<C>(q: Query<C>, input: RelOptInfo<C>, hasForeignPath: bool)
    requires input.fdwPrivate != null
    reads input, input.fdwPrivate, input.fdwPrivate.outerrel,
      if input.fdwPrivate.outerrel != null then {input.fdwPrivate.outerrel.fdwPrivate} else {}
  {
    && input.fdwPrivate.pushdownSafe && q.isSelect && (q.rowMarks || q.limitNeeded) && !q.hasTargetSRFs
    && if q.limitNeeded then Limited(input) != null && LimitOk(q, Limited(input)) else hasForeignPath
  }

  /** `add_foreign_final_paths`. `hasForeignPath` says whether the input has a ForeignPath already, which
      is all that FOR UPDATE without LIMIT needs. */
  method AddFinalPaths<C>(q: Query<C>, input: RelOptInfo<C>, final: FdwState<C>, hasForeignPath: bool)
    requires input.fdwPrivate != null && input.fdwPrivate != final && !final.pushdownSafe
    requires input.kind == UpperRel && input.fdwPrivate.stage == Ordered && input.fdwPrivate.pushdownSafe ==>
      input.fdwPrivate.outerrel != null && input.fdwPrivate.outerrel.fdwPrivate != null
      && input.fdwPrivate.outerrel.fdwPrivate != final
    modifies final
    ensures final.stage == old(final.stage) && final.remoteConds == old(final.remoteConds)
    ensures final.localConds == old(final.localConds) && final.qpIsPushdownSafe == old(final.qpIsPushdownSafe)
    ensures final.outerrel == input || final.outerrel == old(final.outerrel)
    ensures final.pushdownSafe == FinalOk(q, input, hasForeignPath)
    ensures final.pushdownSafe ==> q.isSelect && !q.hasTargetSRFs && if q.limitNeeded then !q.withTies else q.rowMarks && hasForeignPath
    ensures final.pushdownSafe ==> final.outerrel == input
  {
    var i := input.fdwPrivate;
    if !i.pushdownSafe || !q.isSelect || (!q.rowMarks && !q.limitNeeded) || q.hasTargetSRFs {
      return;
    }
    final.outerrel := input;
    if !q.limitNeeded {
      if hasForeignPath {
        final.pushdownSafe := true;
      }
      return;
    }
    if input.kind == UpperRel && i.stage == Ordered {
      i := i.outerrel.fdwPrivate;
    }
    if i.localConds != [] || q.withTies {
      return;
    }
    var offsetOk, countOk := true, true;
    for k := 0 to |q.limitOffset|
      invariant offsetOk <==> forall j | 0 <= j < k :: q.foreign(q.limitOffset[j])
    {
      offsetOk := offsetOk && q.foreign(q.limitOffset[k]);
    }
    for k := 0 to |q.limitCount|
      invariant countOk <==> forall j | 0 <= j < k :: q.foreign(q.limitCount[j])
    {
      countOk := countOk && q.foreign(q.limitCount[k]);
    }
    if offsetOk && countOk {
      final.pushdownSafe := true;
    }
  }

  // ----- all stages

  /** What an accepted upper stage has beneath it: grouping a scan or join without local conditions,
      sorting an accepted stage, limiting an accepted stage of which no row is rejected locally. */
  ghost predicate Accepted<C>(q: Query<C>, f: FdwState<C>)
    reads f, f.outerrel, if f.outerrel != null then {f.outerrel.fdwPrivate} else {},
      if f.outerrel != null && f.outerrel.fdwPrivate != null then {f.outerrel.fdwPrivate.outerrel} else {},
      if f.outerrel != null && f.outerrel.fdwPrivate != null && f.outerrel.fdwPrivate.outerrel != null
      then {f.outerrel.fdwPrivate.outerrel.fdwPrivate} else {}
  {
    && f.outerrel != null && f.outerrel.fdwPrivate != null
    && var below := f.outerrel;
    match f.stage
    case GroupAgg => below.kind != UpperRel && GroupingOk(q, below.fdwPrivate.localConds) && HoldsHaving(f.remoteConds, f.localConds, q) && TlistCovers(f.groupedTlist, q)
    case PartialGroupAgg => below.kind != UpperRel && GroupingOk(q, below.fdwPrivate.localConds) && HoldsHaving(f.remoteConds, f.localConds, q) && TlistCovers(f.groupedTlist, q)
    case Ordered => below.kind == UpperRel && below.fdwPrivate.pushdownSafe && q.sortKeysShippable && !q.hasTargetSRFs
    case Final => below.fdwPrivate.pushdownSafe && q.isSelect && !q.hasTargetSRFs
      && (q.limitNeeded ==> Limited(below) != null && LimitOk(q, Limited(below)))
    case _ => false
  }

  /** Every relation underneath is one of the planner's and has FDW state. */
  ghost predicate Closed<C>(rels: set<RelOptInfo<C>>)
    reads rels, set r | r in rels :: r.fdwPrivate
  {
    forall r | r in rels && r.fdwPrivate != null && r.fdwPrivate.outerrel != null ::
      r.fdwPrivate.outerrel in rels && r.fdwPrivate.outerrel.fdwPrivate != null
  }

  /** An upper relation is marked safe only if it was accepted, and then everything beneath it was. */
  ghost predicate ChainHolds<C>(q: Query<C>, rels: set<RelOptInfo<C>>)
    reads rels, set r | r in rels :: r.fdwPrivate
  {
    && Closed(rels)
    && (forall r | r in rels && r.fdwPrivate != null :: !r.fdwPrivate.qpIsPushdownSafe)
    && (forall r | r in rels && r.fdwPrivate != null && r.kind == UpperRel && r.fdwPrivate.pushdownSafe :: Accepted(q, r.fdwPrivate))
  }

  /** Stages that never get any FDW state. */
  predicate Unsupported<C>(q: Query<C>, stage: Stage) {
    q.setOperations || stage == SetOp || stage == Window || stage == Distinct || stage == PartialDistinct
  }

  /** When a stage is accepted. */
  ghost predicate StageOk<C>(q: Query<C>, stage: Stage, input: RelOptInfo<C>, hasForeignPath: bool)
    requires input.fdwPrivate != null
    reads input, input.fdwPrivate, input.fdwPrivate.outerrel,
      if input.fdwPrivate.outerrel != null then {input.fdwPrivate.outerrel.fdwPrivate} else {}
  {
    match stage
    case GroupAgg => (q.hasAggs || q.hasGroupClause) && GroupingOk(q, input.fdwPrivate.localConds)
    case PartialGroupAgg => (q.hasAggs || q.hasGroupClause) && GroupingOk(q, input.fdwPrivate.localConds)
    case Ordered => q.hasSortClause && OrderedOk(q, input)
    case Final => FinalOk(q, input, hasForeignPath)
    case _ => false
  }

  /** The state of a new upper relation, after the attempt to push its stage down. */
  method TryStage<C(==)>(q: Query<C>, stage: Stage, input: RelOptInfo<C>, hasForeignPath: bool) returns (fpinfo: FdwState<C>)
    requires input.fdwPrivate != null && !input.fdwPrivate.qpIsPushdownSafe
    requires input.kind == UpperRel && input.fdwPrivate.stage == Ordered && input.fdwPrivate.pushdownSafe ==>
      input.fdwPrivate.outerrel != null && input.fdwPrivate.outerrel.fdwPrivate != null
    requires stage == GroupAgg || stage == PartialGroupAgg ==> input.kind != UpperRel
    ensures fresh(fpinfo) && fpinfo.stage == stage && fpinfo.outerrel == input && !fpinfo.qpIsPushdownSafe
    ensures fpinfo.pushdownSafe == StageOk(q, stage, input, hasForeignPath)
    ensures fpinfo.pushdownSafe ==> Accepted(q, fpinfo)
  {
    fpinfo := new FdwState<C>.Clone(input.fdwPrivate);
    fpinfo.stage := stage;
    fpinfo.outerrel := input;
    match stage {
      case GroupAgg =>
        if q.hasAggs || q.hasGroupClause {
          var ok := ForeignGroupingOk(q, fpinfo, input.fdwPrivate);
        }
      case PartialGroupAgg =>
        if q.hasAggs || q.hasGroupClause {
          var ok := ForeignGroupingOk(q, fpinfo, input.fdwPrivate);
        }
      case Ordered =>
        if q.hasSortClause {
          AddOrderedPaths(q, input, fpinfo);
        }
      case Final => AddFinalPaths(q, input, fpinfo, hasForeignPath);
      case _ =>
    }
  }

  /** `db2GetForeignUpperPaths`. PostgreSQL calls the grouping stages on scan and join relations. */
  method GetForeignUpperPaths<C(==)>(q: Query<C>, stage: Stage, input: RelOptInfo<C>, output: RelOptInfo<C>, hasForeignPath: bool,
                                     ghost rels: set<RelOptInfo<C>>)
    requires ChainHolds(q, rels) && input in rels && output in rels && output.kind == UpperRel
    requires stage == GroupAgg || stage == PartialGroupAgg ==> input.kind != UpperRel
    modifies output
    ensures ChainHolds(q, rels)
    ensures q.setOperations || stage in {SetOp, Window, Distinct, PartialDistinct} ==> output.fdwPrivate == old(output.fdwPrivate)
    ensures Unsupported(q, stage) || old(input.fdwPrivate) == null || old(output.fdwPrivate) != null ==> output.fdwPrivate == old(output.fdwPrivate)
    ensures !Unsupported(q, stage) && old(input.fdwPrivate) != null && old(output.fdwPrivate) == null ==>
      && output.fdwPrivate != null && fresh(output.fdwPrivate)
      && output.fdwPrivate.stage == stage && output.fdwPrivate.outerrel == input
      && output.fdwPrivate.pushdownSafe == old(StageOk(q, stage, input, hasForeignPath))
  {
    if input.fdwPrivate == null || output.fdwPrivate != null || Unsupported(q, stage) {
      return;
    }
    var fpinfo := TryStage(q, stage, input, hasForeignPath);
    output.fdwPrivate := fpinfo;
    // giving a relation its first state changes nothing for the others
    forall r | r in rels && r != output && r.fdwPrivate != null && r.kind == UpperRel && r.fdwPrivate.pushdownSafe
      ensures Accepted(q, r.fdwPrivate)
    {
      var f := r.fdwPrivate;
      assert old(Accepted(q, r.fdwPrivate));
      assert f.outerrel in rels && f.outerrel != output;
      var below := f.outerrel.fdwPrivate;
      assert below.outerrel != null ==> below.outerrel in rels && below.outerrel != output;
    }
  }

  /** A call of the planner hook. */
  datatype Call<C> = Call(stage: Stage, input: RelOptInfo<C>, output: RelOptInfo<C>, hasForeignPath: bool)

  predicate Possible<C>(c: Call<C>, rels: set<RelOptInfo<C>>) {
    && c.input in rels && c.output in rels && c.output.kind == UpperRel
    && (c.stage == GroupAgg || c.stage == PartialGroupAgg ==> c.input.kind != UpperRel)
  }

  /** Any sequence of calls, in any order and as often as PostgreSQL likes: the verdict on a relation, once
      given, stands. */
  method RunPlanner<C(==)>(q: Query<C>, calls: seq<Call<C>>, rels: set<RelOptInfo<C>>)
    requires ChainHolds(q, rels) && forall i | 0 <= i < |calls| :: Possible(calls[i], rels)
    modifies rels
    ensures ChainHolds(q, rels)
    ensures forall r | r in rels && old(r.fdwPrivate) != null :: r.fdwPrivate == old(r.fdwPrivate)
  {
    for i := 0 to |calls|
      invariant ChainHolds(q, rels)
      invariant forall r | r in rels && old(r.fdwPrivate) != null :: r.fdwPrivate == old(r.fdwPrivate)
    {
      assert Possible(calls[i], rels);
      GetForeignUpperPaths(q, calls[i].stage, calls[i].input, calls[i].output, calls[i].hasForeignPath, rels);
    }
  }

  /** No later stage revives a rejected one: beneath a safe stage every upper stage is safe, and what is
      beneath the grouping stage has no local conditions. */
  lemma NothingIsRevived<C>(q: Query<C>, rels: set<RelOptInfo<C>>, r: RelOptInfo<C>)
    requires ChainHolds(q, rels) && r in rels && r.kind == UpperRel && r.fdwPrivate != null && r.fdwPrivate.pushdownSafe
    ensures var f := r.fdwPrivate;
      && f.stage != SetOp && f.stage != Window && f.stage != Distinct && f.stage != PartialDistinct && f.stage != NoStage
      && f.outerrel != null && f.outerrel in rels && f.outerrel.fdwPrivate != null
      && (f.outerrel.kind == UpperRel ==> f.outerrel.fdwPrivate.pushdownSafe && Accepted(q, f.outerrel.fdwPrivate))
      && (f.outerrel.kind != UpperRel && f.stage != Final ==> f.outerrel.fdwPrivate.localConds == [])
  {
    assert Accepted(q, r.fdwPrivate);
    assert r.fdwPrivate.outerrel in rels;
  }
}
