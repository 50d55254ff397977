/** Joins that run on DB2: `foreign_join_ok`, and why the conditions of both sides may be checked together
    with the join clauses. */
module JoinPaths {
  import opened Nodes
  import opened RemoteSql
  import opened Deparse
  import opened Fragment
  import opened Grouping
  import opened DeparseContext
  import opened Meaning
  import opened Collation
  import opened Primitives
  import opened Preservation
  import opened Walker
  import opened Conditions
  import opened Locality
  import opened Servers

  // ----- planner state

  datatype JoinType = InnerJoin | LeftJoin | FullJoin | RightJoin | SemiJoin | AntiJoin

  /** A column descriptor of a table. */
  datatype Column = Column(pgrelid: nat, pgattnum: int, name: string, used: bool)

  /** A side of the join: a base relation with its classified conditions and its columns. */
  datatype Side = Side(relid: nat, remoteConds: seq<Expr>, localConds: seq<Expr>, cols: seq<Column>)

  /** How a Var of the join's target list names its relation. */
  datatype VarRel = OuterVar | InnerVar | RangeTable(relid: nat)

  datatype Target = TargetVar(rel: VarRel, attno: int) | NoVar

  // ----- output columns

  function FirstMatch(cols: seq<Column>, relid: nat, attno: int): Option<Column> {
    if cols == [] then None
    else if cols[0].pgrelid == relid && cols[0].pgattnum == attno then Some(cols[0])
    else FirstMatch(cols[1..], relid, attno)
  }

  /** `db2FindColumnByRelidAttnum`. */
  method FindColumn(cols: seq<Column>, relid: nat, attno: int) returns (col: Option<Column>)
    ensures col == FirstMatch(cols, relid, attno)
    ensures col.None? <==> forall k | 0 <= k < |cols| :: cols[k].pgrelid != relid || cols[k].pgattnum != attno
  {
    for i := 0 to |cols|
      invariant FirstMatch(cols, relid, attno) == FirstMatch(cols[i..], relid, attno)
      invariant forall k | 0 <= k < i :: cols[k].pgrelid != relid || cols[k].pgattnum != attno
    {
      if cols[i].pgrelid == relid && cols[i].pgattnum == attno {
        return Some(cols[i]);
      }
      assert cols[i..][1..] == cols[i + 1..];
    }
    col := None;
  }

  function Resolve(rel: VarRel, outer: Side, inner: Side): nat {
    match rel
    case OuterVar => outer.relid
    case InnerVar => inner.relid
    case RangeTable(relid) => relid
  }

  /** The column an output Var stands for, marked as used; the outer table is searched first. */
  function OutputColumn(t: Target, outer: Side, inner: Side): Option<Column> {
    if t.NoVar? then None
    else
      var relid := Resolve(t.rel, outer, inner);
      var o := FirstMatch(outer.cols, relid, t.attno);
      var col := if o.Some? then o else FirstMatch(inner.cols, relid, t.attno);
      if col.Some? then Some(col.value.(used := true)) else None
  }

  /** The column of a Var: of the relation it names, under its number, and used. */
  predicate StandsFor(col: Column, t: Target, outer: Side, inner: Side) {
    && t.TargetVar? && col.pgattnum == t.attno && col.used
    && (t.rel.OuterVar? ==> col.pgrelid == outer.relid)
    && (t.rel.InnerVar? ==> col.pgrelid == inner.relid)
    && (t.rel.RangeTable? ==> col.pgrelid == t.rel.relid)
  }

  predicate AllMapped(targets: seq<Target>, outer: Side, inner: Side) {
    forall k | 0 <= k < |targets| :: OutputColumn(targets[k], outer, inner).Some?
  }

  /** When a join may run on DB2. */
  predicate JoinOk(jointype: JoinType, clauses: seq<Expr>, targets: seq<Target>, outer: Side, inner: Side) {
    && jointype == InnerJoin && outer.localConds == [] && inner.localConds == []
    && clauses != [] && (forall k | 0 <= k < |clauses| :: Printable(clauses[k]))
    && AllMapped(targets, outer, inner)
  }

  /** What is checked ON the join: its own clauses, then the conditions of the inner and the outer side. */
  function JoinClauses(clauses: seq<Expr>, outer: Side, inner: Side): seq<Expr> {
    clauses + inner.remoteConds + outer.remoteConds
  }

  // ----- foreign_join_ok

  /** DB2FdwState of a join relation. */
  class JoinState {
    const params: ParamsList
    var remoteConds: seq<Expr>
    var localConds: seq<Expr>
    var joinClauses: seq<Expr>
    var cols: seq<Column>

    constructor ()
      ensures fresh(params) && params.items == [] && remoteConds == localConds == joinClauses == [] && cols == []
    {
      params := new ParamsList();
      remoteConds, localConds, joinClauses, cols := [], [], [], [];
    }

    /** The loop over the clauses of an inner join: deparsing decides, not the walker. */
    method Classify(clauses: seq<Expr>, scan: Scan)
      requires remoteConds == localConds == []
      modifies this`remoteConds, this`localConds, params
      ensures params.items == ParamsOfConditions(clauses, scan, old(params.items))
      ensures localConds == [] <==> forall k | 0 <= k < |clauses| :: Printable(clauses[k])
      ensures localConds == [] ==> remoteConds == clauses
    {
      for i := 0 to |clauses|
        invariant ParamsOfConditions(clauses[i..], scan, params.items) == ParamsOfConditions(clauses, scan, old(params.items))
        invariant localConds == [] <==> forall k | 0 <= k < i :: Printable(clauses[k])
        invariant localConds == [] ==> remoteConds == clauses[..i]
      {
        assert clauses[i..][1..] == clauses[i + 1..];
        assert clauses[..i + 1] == clauses[..i] + [clauses[i]];
        var context := new Context(scan, params);
        var text := context.DeparseInContext(clauses[i]);
        if text.None? {
          localConds := localConds + [clauses[i]];
        } else {
          remoteConds := remoteConds + [clauses[i]];
        }
      }
    }

    /** The loop over the join's target list. */
    method MapColumns(targets: seq<Target>, outer: Side, inner: Side) returns (ok: bool)
      requires cols == []
      modifies this`cols
      ensures ok <==> AllMapped(targets, outer, inner)
      ensures ok ==> |cols| == |targets| && forall k | 0 <= k < |cols| :: OutputColumn(targets[k], outer, inner) == Some(cols[k])
      ensures ok ==> forall k | 0 <= k < |cols| :: StandsFor(cols[k], targets[k], outer, inner)
    {
      for i := 0 to |targets|
        invariant |cols| == i
        invariant forall k | 0 <= k < i :: OutputColumn(targets[k], outer, inner) == Some(cols[k])
        invariant forall k | 0 <= k < i :: StandsFor(cols[k], targets[k], outer, inner)
      {
        if targets[i].NoVar? {
          return false;
        }
        var relid := Resolve(targets[i].rel, outer, inner);
        var col := FindColumn(outer.cols, relid, targets[i].attno);
        if col.None? {
          col := FindColumn(inner.cols, relid, targets[i].attno);
        }
        if col.None? {
          return false;
        }
        cols := cols + [col.value.(used := true, pgattnum := targets[i].attno)];
        MatchHas(outer.cols, relid, targets[i].attno);
        MatchHas(inner.cols, relid, targets[i].attno);
      }
      ok := true;
    }

    /** `foreign_join_ok`. */
    method ForeignJoinOk(jointype: JoinType, clauses: seq<Expr>, targets: seq<Target>, scan: Scan, outer: Side, inner: Side)
      returns (ok: bool)
      requires remoteConds == localConds == joinClauses == [] && cols == []
      modifies this, params
      ensures ok == JoinOk(jointype, clauses, targets, outer, inner)
      ensures ok ==> joinClauses == JoinClauses(clauses, outer, inner) && remoteConds == localConds == []
      ensures ok ==> |cols| == |targets| && forall k | 0 <= k < |cols| :: OutputColumn(targets[k], outer, inner) == Some(cols[k])
      ensures ok ==> forall k | 0 <= k < |cols| :: StandsFor(cols[k], targets[k], outer, inner)
      ensures ok ==> forall k, ps | 0 <= k < |clauses| :: Text(clauses[k], scan, ps) != []
    {
      if jointype != InnerJoin || outer.localConds != [] || inner.localConds != [] {
        return false;
      }
      Classify(clauses, scan);
      if localConds != [] || remoteConds == [] {
        return false;
      }
      remoteConds := remoteConds + inner.remoteConds;
      remoteConds := remoteConds + outer.remoteConds;
      joinClauses := remoteConds;
      remoteConds := [];
      ok := MapColumns(targets, outer, inner);
      forall k, ps | 0 <= k < |clauses| && ok ensures Text(clauses[k], scan, ps) != [] {
        PrintableIsText(clauses[k], scan, ps);
      }
    }
  }

  lemma {:induction false} MatchHas(cols: seq<Column>, relid: nat, attno: int)
    ensures var c := FirstMatch(cols, relid, attno); c.Some? ==> c.value.pgrelid == relid && c.value.pgattnum == attno
  {
    if cols != [] && (cols[0].pgrelid != relid || cols[0].pgattnum != attno) {
      MatchHas(cols[1..], relid, attno);
    }
  }

  // ----- joining

  /** All conditions are true; unknown is not enough. */
  predicate Pass(conds: seq<Expr>, env: Env, pg: PgSemantics) {
    AndAll(EvalPgs(conds, env, pg)) == BoolV(true)
  }

  /** The two base relations and what does not change from row to row. */
  datatype Join = Join(outerRel: nat, innerRel: nat, base: Env, pg: PgSemantics) {
    function PairEnv(o: Row, i: Row): Env {
      base.(relids := {outerRel, innerRel}, row := (varno: nat, attno: int) => if varno == outerRel then o(varno, attno) else i(varno, attno))
    }

    function SideEnv(relid: nat, row: Row): Env {
      base.(relids := {relid}, row := row)
    }

    /** The rows of one relation that pass its conditions. */
    function Keep(relid: nat, rows: seq<Row>, conds: seq<Expr>): seq<Row> {
      if rows == [] then []
      else (if Pass(conds, SideEnv(relid, rows[0]), pg) then [rows[0]] else []) + Keep(relid, rows[1..], conds)
    }

    /** A row of the outer relation with each row of the inner relation that matches. */
    function With(o: Row, inner: seq<Row>, conds: seq<Expr>): seq<(Row, Row)> {
      if inner == [] then []
      else (if Pass(conds, PairEnv(o, inner[0]), pg) then [(o, inner[0])] else []) + With(o, inner[1..], conds)
    }

    /** The inner join. */
    function On(outer: seq<Row>, inner: seq<Row>, conds: seq<Expr>): seq<(Row, Row)> {
      if outer == [] then [] else With(outer[0], inner, conds) + On(outer[1..], inner, conds)
    }

    /** The outer rows that have a match, or those that have none, without one. */
    function OuterRows(outer: seq<Row>, inner: seq<Row>, conds: seq<Expr>, matched: bool): seq<(Row, Row)> {
      if outer == [] then []
      else (if (With(outer[0], inner, conds) != []) == matched then [(outer[0], NULL_ROW)] else []) + OuterRows(outer[1..], inner, conds, matched)
    }

    /** The inner rows that no outer row matches. */
    function LonelyInner(outer: seq<Row>, inner: seq<Row>, conds: seq<Expr>): seq<(Row, Row)> {
      if inner == [] then []
      else (if On(outer, [inner[0]], conds) == [] then [(NULL_ROW, inner[0])] else []) + LonelyInner(outer, inner[1..], conds)
    }

    /** What a join of each type returns; the rows of an outer join without a match are filled up with NULLs. */
    function Of(jointype: JoinType, outer: seq<Row>, inner: seq<Row>, conds: seq<Expr>): seq<(Row, Row)> {
      match jointype
      case InnerJoin => On(outer, inner, conds)
      case LeftJoin => On(outer, inner, conds) + OuterRows(outer, inner, conds, false)
      case RightJoin => On(outer, inner, conds) + LonelyInner(outer, inner, conds)
      case FullJoin => On(outer, inner, conds) + OuterRows(outer, inner, conds, false) + LonelyInner(outer, inner, conds)
      case SemiJoin => OuterRows(outer, inner, conds, true)
      case AntiJoin => OuterRows(outer, inner, conds, false)
    }

    /** The rows of a side that pass all its conditions, wherever they are evaluated. */
    function Filtered(side: Side, rows: seq<Row>): seq<Row> {
      Keep(side.relid, rows, side.remoteConds + side.localConds)
    }
  }

  const NULL_ROW: Row := (varno: nat, attno: int) => NullV

  lemma {:induction false} PassBoth(a: seq<Expr>, b: seq<Expr>, env: Env, pg: PgSemantics)
    ensures Pass(a + b, env, pg) <==> Pass(a, env, pg) && Pass(b, env, pg)
  {
    if a == [] {
      assert a + b == b;
    } else {
      assert (a + b)[1..] == a[1..] + b && (a + b)[0] == a[0];
      PassBoth(a[1..], b, env, pg);
      PassFirst(a, env, pg);
      PassFirst(a + b, env, pg);
    }
  }

  lemma PassFirst(a: seq<Expr>, env: Env, pg: PgSemantics)
    requires a != []
    ensures Pass(a, env, pg) <==> EvalPg(a[0], env, pg) == BoolV(true) && Pass(a[1..], env, pg)
  {
    var vs := EvalPgs(a, env, pg);
    assert vs[1..] == EvalPgs(a[1..], env, pg);
    if |a| == 1 {
      assert a[1..] == [];
    }
  }

  /** On the joined row, the conditions of a side have the value they have on that side's row. */
  lemma SidesPass(j: Join, o: Row, i: Row, innerConds: seq<Expr>, outerConds: seq<Expr>)
    requires j.outerRel != j.innerRel && AllOnlyRead(innerConds, {j.innerRel}) && AllOnlyRead(outerConds, {j.outerRel})
    ensures Pass(innerConds, j.PairEnv(o, i), j.pg) <==> Pass(innerConds, j.SideEnv(j.innerRel, i), j.pg)
    ensures Pass(outerConds, j.PairEnv(o, i), j.pg) <==> Pass(outerConds, j.SideEnv(j.outerRel, o), j.pg)
  {
    SameValues(innerConds, {j.innerRel}, j.PairEnv(o, i), j.SideEnv(j.innerRel, i), j.pg);
    SameValues(outerConds, {j.outerRel}, j.PairEnv(o, i), j.SideEnv(j.outerRel, o), j.pg);
  }

  lemma {:induction false} WithSplits(j: Join, o: Row, inner: seq<Row>, clauses: seq<Expr>, innerConds: seq<Expr>, outerConds: seq<Expr>)
    requires j.outerRel != j.innerRel && AllOnlyRead(innerConds, {j.innerRel}) && AllOnlyRead(outerConds, {j.outerRel})
    ensures j.With(o, inner, clauses + innerConds + outerConds)
         == if Pass(outerConds, j.SideEnv(j.outerRel, o), j.pg) then j.With(o, j.Keep(j.innerRel, inner, innerConds), clauses) else []
  {
    if inner != [] {
      var i := inner[0];
      WithSplits(j, o, inner[1..], clauses, innerConds, outerConds);
      PassBoth(clauses + innerConds, outerConds, j.PairEnv(o, i), j.pg);
      PassBoth(clauses, innerConds, j.PairEnv(o, i), j.pg);
      SidesPass(j, o, i, innerConds, outerConds);
      var rest := j.Keep(j.innerRel, inner[1..], innerConds);
      if Pass(innerConds, j.SideEnv(j.innerRel, i), j.pg) {
        assert j.Keep(j.innerRel, inner, innerConds) == [i] + rest;
        assert ([i] + rest)[1..] == rest;
      } else {
        assert j.Keep(j.innerRel, inner, innerConds) == rest;
      }
    }
  }

  /** Joining the raw tables on all conditions gives the rows, in the order of a nested loop, that filtering
      each side first and then joining on the join clauses gives. */
  lemma {:induction false} FlattenedJoin(j: Join, outer: seq<Row>, inner: seq<Row>, clauses: seq<Expr>, innerConds: seq<Expr>, outerConds: seq<Expr>)
    requires j.outerRel != j.innerRel && AllOnlyRead(innerConds, {j.innerRel}) && AllOnlyRead(outerConds, {j.outerRel})
    ensures j.On(outer, inner, clauses + innerConds + outerConds)
         == j.On(j.Keep(j.outerRel, outer, outerConds), j.Keep(j.innerRel, inner, innerConds), clauses)
  {
    if outer != [] {
      WithSplits(j, outer[0], inner, clauses, innerConds, outerConds);
      FlattenedJoin(j, outer[1..], inner, clauses, innerConds, outerConds);
      var rest := j.Keep(j.outerRel, outer[1..], outerConds);
      if Pass(outerConds, j.SideEnv(j.outerRel, outer[0]), j.pg) {
        assert j.Keep(j.outerRel, outer, outerConds) == [outer[0]] + rest;
        assert ([outer[0]] + rest)[1..] == rest;
      } else {
        assert j.Keep(j.outerRel, outer, outerConds) == rest;
      }
    }
  }

  // ----- what DB2 computes

  /** One pair of rows as DB2 sees it. */
  type PairedRows = (Row, Row) -> RemoteEnv

  function RemoteWith(o: Row, inner: seq<Row>, on: Sql, pairs: PairedRows, db: Db2Semantics): seq<(Row, Row)> {
    if inner == [] then []
    else (if EvalSql(on, pairs(o, inner[0]), db) == BoolV(true) then [(o, inner[0])] else []) + RemoteWith(o, inner[1..], on, pairs, db)
  }

  /** DB2's inner join ON a condition. */
  function RemoteJoin(outer: seq<Row>, inner: seq<Row>, on: Sql, pairs: PairedRows, db: Db2Semantics): seq<(Row, Row)> {
    if outer == [] then [] else RemoteWith(outer[0], inner, on, pairs, db) + RemoteJoin(outer[1..], inner, on, pairs, db)
  }

  /** One evaluation of the conditions, on a pair of rows. */
  function PairSetting(j: Join, o: Row, i: Row, scan: Scan, ps: seq<Expr>, pairs: PairedRows, db: Db2Semantics): Setting {
    Setting(scan, ps, j.PairEnv(o, i), pairs(o, i), j.pg, db)
  }

  /** Both servers see the same columns and parameters in every pair of rows, and agree on the conditions'
      operations under the given collations. */
  ghost predicate PairsMatch(j: Join, outer: seq<Row>, inner: seq<Row>, conds: seq<Expr>, colls: set<Oid>,
                             scan: Scan, ps: seq<Expr>, pairs: PairedRows, db: Db2Semantics) {
    forall o, i | o in outer && i in inner ::
      && PairSetting(j, o, i, scan, ps, pairs, db).Sound()
      && AgreeUnder(AllPrims(conds), colls, j.pg, db, pairs(o, i).now)
  }

  lemma {:induction false} RemoteWithMeans(j: Join, o: Row, inner: seq<Row>, conds: seq<Expr>, colls: set<Oid>,
                                           earlier: seq<Expr>, scan: Scan, ps: seq<Expr>, pairs: PairedRows, db: Db2Semantics)
    requires conds != [] && AllReadable(conds, scan) && AllIntact(conds) && AllFaithful(conds, scan)
    requires ParamsOfConditions(conds, scan, earlier) <= ps
    requires Covered(AllPrims(conds), colls) && PairsMatch(j, [o], inner, conds, colls, scan, ps, pairs, db)
    ensures RemoteWith(o, inner, ReadWhere(conds, scan, ps), pairs, db) == j.With(o, inner, conds)
  {
    if inner != [] {
      var w := PairSetting(j, o, inner[0], scan, ps, pairs, db);
      assert w.Sound();
      ConditionsMean(conds, earlier, w);
      RemoteWithMeans(j, o, inner[1..], conds, colls, earlier, scan, ps, pairs, db);
    }
  }

  lemma {:induction false} RemoteJoinMeans(j: Join, outer: seq<Row>, inner: seq<Row>, conds: seq<Expr>, colls: set<Oid>,
                                           earlier: seq<Expr>, scan: Scan, ps: seq<Expr>, pairs: PairedRows, db: Db2Semantics)
    requires conds != [] && AllReadable(conds, scan) && AllIntact(conds) && AllFaithful(conds, scan)
    requires ParamsOfConditions(conds, scan, earlier) <= ps
    requires Covered(AllPrims(conds), colls) && PairsMatch(j, outer, inner, conds, colls, scan, ps, pairs, db)
    ensures RemoteJoin(outer, inner, ReadWhere(conds, scan, ps), pairs, db) == j.On(outer, inner, conds)
  {
    if outer != [] {
      RemoteWithMeans(j, outer[0], inner, conds, colls, earlier, scan, ps, pairs, db);
      RemoteJoinMeans(j, outer[1..], inner, conds, colls, earlier, scan, ps, pairs, db);
    }
  }

  /** For every accepted join: DB2 parses its ON clause if and only if it can read every condition in it. That the
      clauses are printed, which is all that was asked of them, is not enough. */
  lemma OnClauseParses(jointype: JoinType, clauses: seq<Expr>, targets: seq<Target>, outer: Side, inner: Side, scan: Scan, ps: seq<Expr>)
    requires JoinOk(jointype, clauses, targets, outer, inner)
    ensures var conds := JoinClauses(clauses, outer, inner);
      ParseExpression(ConditionsText(conds, true, scan, ps)) == if AllReadable(conds, scan) then Some(ReadWhere(conds, scan, ps)) else None
  {
    WhereParses(JoinClauses(clauses, outer, inner), scan, ps);
  }

  // ----- collations

  lemma {:induction false} PrimsOfBoth(a: seq<Expr>, b: seq<Expr>)
    ensures AllPrims(a + b) == AllPrims(a) + AllPrims(b)
    decreases |a|
  {
    if a == [] {
      assert a + b == b;
    } else {
      assert (a + b)[1..] == a[1..] + b && (a + b)[0] == a[0];
      PrimsOfBoth(a[1..], b);
    }
  }

  /** The collations of the columns in the join clauses and in the conditions of both sides. */
  function JoinColumns(clauses: seq<Expr>, outer: Side, inner: Side): set<Oid> {
    ColumnsOfAll(clauses, Glob({outer.relid, inner.relid}, false))
      + ColumnsOfAll(inner.remoteConds, Glob({inner.relid}, false)) + ColumnsOfAll(outer.remoteConds, Glob({outer.relid}, false))
  }

  /** The conditions of the sides passed the walker, so only the join clauses can bring another collation. */
  lemma JoinIsCovered(clauses: seq<Expr>, outer: Side, inner: Side)
    requires AllForeign(outer.remoteConds, Glob({outer.relid}, false)) && AllForeign(inner.remoteConds, Glob({inner.relid}, false))
    ensures Covered(AllPrims(JoinClauses(clauses, outer, inner)), JoinColumns(clauses, outer, inner))
        <==> Covered(AllPrims(clauses), JoinColumns(clauses, outer, inner))
  {
    ForeignIsCovered(outer.remoteConds, Glob({outer.relid}, false));
    ForeignIsCovered(inner.remoteConds, Glob({inner.relid}, false));
    PrimsOfBoth(clauses + inner.remoteConds, outer.remoteConds);
    PrimsOfBoth(clauses, inner.remoteConds);
  }

  /** An accepted join has clauses, is an inner join, and no condition of its sides is left to be checked locally. */
  lemma AcceptedIsInner(j: Join, jointype: JoinType, targets: seq<Target>, outerRows: seq<Row>, innerRows: seq<Row>, clauses: seq<Expr>,
                        outer: Side, inner: Side)
    requires JoinOk(jointype, clauses, targets, outer, inner)
    ensures clauses != []
    ensures j.Of(jointype, j.Filtered(outer, outerRows), j.Filtered(inner, innerRows), clauses)
         == j.On(j.Keep(outer.relid, outerRows, outer.remoteConds), j.Keep(inner.relid, innerRows, inner.remoteConds), clauses)
  {
    assert outer.remoteConds + outer.localConds == outer.remoteConds && inner.remoteConds + inner.localConds == inner.remoteConds;
  }

  /** For every accepted join whose clauses work under collations of columns only: DB2's join of the raw tables is
      PostgreSQL's join, of its type, of the sides filtered by all their conditions, if the servers agree on the
      operations under these collations. */
  lemma ShippedJoinMeans(j: Join, jointype: JoinType, targets: seq<Target>, outerRows: seq<Row>, innerRows: seq<Row>, clauses: seq<Expr>,
                         outer: Side, inner: Side, earlier: seq<Expr>, scan: Scan, ps: seq<Expr>, pairs: PairedRows, db: Db2Semantics)
    requires JoinOk(jointype, clauses, targets, outer, inner)
    requires j.outerRel == outer.relid && j.innerRel == inner.relid && outer.relid != inner.relid
    requires AllOnlyRead(inner.remoteConds, {inner.relid}) && AllOnlyRead(outer.remoteConds, {outer.relid})
    requires AllForeign(outer.remoteConds, Glob({outer.relid}, false)) && AllForeign(inner.remoteConds, Glob({inner.relid}, false))
    requires Covered(AllPrims(clauses), JoinColumns(clauses, outer, inner))
    requires var conds := JoinClauses(clauses, outer, inner);
      && AllReadable(conds, scan) && AllIntact(conds) && AllFaithful(conds, scan) && ParamsOfConditions(conds, scan, earlier) <= ps
      && PairsMatch(j, outerRows, innerRows, conds, JoinColumns(clauses, outer, inner), scan, ps, pairs, db)
    ensures var on := ParseExpression(ConditionsText(JoinClauses(clauses, outer, inner), true, scan, ps));
      && on.Some?
      && RemoteJoin(outerRows, innerRows, on.value, pairs, db)
      == j.Of(jointype, j.Filtered(outer, outerRows), j.Filtered(inner, innerRows), clauses)
  {
    hide JoinOk, AllMapped, Join.Of, Join.Filtered, Readable, AllReadable, Printable, AllForeign;
    var conds := JoinClauses(clauses, outer, inner);
    AcceptedIsInner(j, jointype, targets, outerRows, innerRows, clauses, outer, inner);
    WhereParses(conds, scan, ps);
    JoinIsCovered(clauses, outer, inner);
    RemoteJoinMeans(j, outerRows, innerRows, conds, JoinColumns(clauses, outer, inner), earlier, scan, ps, pairs, db);
    FlattenedJoin(j, outerRows, innerRows, clauses, inner.remoteConds, outer.remoteConds);
  }

  // ----- what is not checked

  /** A column, `COLLATE c`. */
  function Collated(rel: nat, coll: Oid, c: Oid): Expr {
    RelabelType(Var(rel, 1, 0, TextType, coll), TextType, c)
  }

  /** `a COLLATE c = b COLLATE c`, where the columns have the collations ca and cb. */
  function CollatedEquality(ca: Oid, cb: Oid, c: Oid): Expr {
    BinaryOp(Eq, Operator(98, TextType, TextType, true), Collated(1, ca, c), Collated(2, cb, c), PgType.Bool, INVALID_OID, c)
  }

  /** A collation is dropped. */
  lemma CollatedColumn(rel: nat, coll: Oid, c: Oid, scan: Scan)
    ensures var e := Collated(rel, coll, c);
      && Readable(e, scan) && Intact(e) && Faithful(e, scan) && Prims(e) == {}
      && (rel in scan.relids ==> Params(e, scan, []) == [] && Tr(e, scan, []) == ColumnTree(rel, 1, scan))
  {
    var a := Var(rel, 1, 0, TextType, coll);
    assert Readable(a, scan) && Intact(a) && Faithful(a, scan) && Prims(a) == {};
    assert rel in scan.relids ==> Params(a, scan, []) == [] && Tr(a, scan, []) == ColumnTree(rel, 1, scan);
  }

  /** What the deparser and the planner say about the clause. */
  lemma CollatedIsSent(ca: Oid, cb: Oid, c: Oid, outer: Side, inner: Side, scan: Scan)
    requires outer.localConds == [] && inner.localConds == []
    ensures var clause := CollatedEquality(ca, cb, c);
      Readable(clause, scan) && Intact(clause) && Faithful(clause, scan) && JoinOk(InnerJoin, [clause], [], outer, inner)
  {
    CollatedColumn(1, ca, c, scan);
    CollatedColumn(2, cb, c, scan);
  }

  lemma CollatedFacts(ca: Oid, cb: Oid, c: Oid, scan: Scan)
    requires {1, 2} <= scan.relids
    ensures var clause := CollatedEquality(ca, cb, c);
      && Prims(clause) == {Compute(Eq, clause.op, c)}
      && Params(clause, scan, []) == []
      && Tr(clause, scan, []) == Infix(OpEq, ColumnTree(1, 1, scan), ColumnTree(2, 1, scan))
  {
    hide Readable, Intact, Faithful, Printable, Text;
    CollatedColumn(1, ca, c, scan);
    CollatedColumn(2, cb, c, scan);
  }

  lemma CollatedIsMeant(ca: Oid, cb: Oid, c: Oid, w: Setting)
    ensures w.Shipped(CollatedEquality(ca, cb, c)) == w.Remote(CollatedEquality(ca, cb, c))
  {
    hide EvalSql, Read, Tr;
    CollatedIsSent(ca, cb, c, Side(1, [], [], []), Side(2, [], [], []), w.scan);
    ReadIsMeant(CollatedEquality(ca, cb, c), w.scan, w.ps);
  }

  /** Both servers see the clause's rows alike and agree under the collations of its columns. */
  ghost predicate ColumnsAgree(w: Setting, clause: Expr, ca: Oid, cb: Oid) {
    w.Sound() && AgreeUnder(Prims(clause), {ca, cb}, w.pg, w.db, w.remote.now)
  }

  /** The servers that differ: a row with two texts that are equal under c only. */
  lemma CollatedGoesWrong(ca: Oid, cb: Oid, c: Oid, scan: Scan) returns (w: Setting)
    requires {1, 2} <= scan.relids && !FromColumn(c, {ca, cb}) && scan.colName(1, 1) != scan.colName(2, 1)
    ensures var clause := CollatedEquality(ca, cb, c);
      && w.scan == scan && w.ps == [] && ColumnsAgree(w, clause, ca, cb) && AgreeElsewhere(w.pg, w.db, w.remote.now, c)
      && w.Local(clause) == BoolV(true) && w.Shipped(clause) == BoolV(false)
  {
    var clause := CollatedEquality(ca, cb, c);
    var first := scan.colName(1, 1);
    var value := (name: string) => if name == first then StringV("a") else StringV("b");
    var row: Row := (varno: nat, attno: int) => value(scan.colName(varno, attno));
    var remoteRow: RemoteRow := (rel: Option<nat>, name: string) => value(name);
    var env := Env(scan.relids, row, [], (e: Expr) => NullV, NullV);
    w := Setting(scan, [], env, RemoteEnv(remoteRow, [], [], ""), WithCollation(PLAIN_DB2, "", c), PLAIN_DB2);
    CollatedFacts(ca, cb, c, scan);
    CollatedValues(ca, cb, c, w);
    PlainAgreesElsewhere(c);
  }

  lemma CollatedValues(ca: Oid, cb: Oid, c: Oid, w: Setting)
    requires {1, 2} <= w.scan.relids && w.env.relids == w.scan.relids && w.ps == []
    ensures var clause := CollatedEquality(ca, cb, c);
      && w.Local(clause) == w.pg.binary(Eq, clause.op, c, w.env.row(1, 1), w.env.row(2, 1))
      && w.Shipped(clause) == w.db.infix(OpEq, EvalSql(ColumnTree(1, 1, w.scan), w.remote, w.db),
                                        EvalSql(ColumnTree(2, 1, w.scan), w.remote, w.db))
  {
    var clause := CollatedEquality(ca, cb, c);
    CollatedIsMeant(ca, cb, c, w);
    CollatedFacts(ca, cb, c, w.scan);
    assert w.Local(clause.left.arg) == w.env.row(1, 1) && w.Local(clause.right.arg) == w.env.row(2, 1);
    assert w.Local(clause.left) == w.env.row(1, 1) && w.Local(clause.right) == w.env.row(2, 1);
  }

  /** A join clause is not shown to the walker. This one keeps its meaning on all servers that agree under the
      collations of its columns if and only if its own collation is one of them, or none. */
  lemma CollatedIsKept(ca: Oid, cb: Oid, c: Oid, scan: Scan)
    requires {1, 2} <= scan.relids && scan.colName(1, 1) != scan.colName(2, 1)
    ensures var clause := CollatedEquality(ca, cb, c);
      (forall w: Setting | w.scan == scan && w.ps == [] && ColumnsAgree(w, clause, ca, cb) :: w.Shipped(clause) == w.Local(clause))
        <==> FromColumn(c, {ca, cb})
  {
    hide Prims, Setting.Sound, AgreeUnder, EvalPg, EvalSql, Tr, Read;
    var clause := CollatedEquality(ca, cb, c);
    if FromColumn(c, {ca, cb}) {
      forall w: Setting | w.scan == scan && w.ps == [] && ColumnsAgree(w, clause, ca, cb)
        ensures w.Shipped(clause) == w.Local(clause)
      {
        CollatedMeans(ca, cb, c, w);
      }
    } else {
      var w := CollatedGoesWrong(ca, cb, c, scan);
    }
  }

  lemma CollatedMeans(ca: Oid, cb: Oid, c: Oid, w: Setting)
    requires {1, 2} <= w.scan.relids && w.ps == [] && FromColumn(c, {ca, cb}) && ColumnsAgree(w, CollatedEquality(ca, cb, c), ca, cb)
    ensures w.Shipped(CollatedEquality(ca, cb, c)) == w.Local(CollatedEquality(ca, cb, c))
  {
    CollatedFacts(ca, cb, c, w.scan);
    CollatedIsSent(ca, cb, c, Side(1, [], [], []), Side(2, [], [], []), w.scan);
    CollatedIsMeant(ca, cb, c, w);
    hide Text, Printable, EvalSql, EvalPg, Read, Tr;
    ExprMeans(CollatedEquality(ca, cb, c), [], w);
  }

  /** The walker refuses the clause as a condition, the join sends it, and DB2 does not return the pair of rows that
      PostgreSQL joins, although the servers agree on everything under every collation but c. */
  lemma JoinClauseIsNotWalked(c: Oid, outer: Side, inner: Side, g: Glob, scan: Scan) returns (w: Setting)
    requires c != INVALID_OID && c != DEFAULT_COLLATION_OID && {1, 2} <= g.relids && {1, 2} <= scan.relids
    requires scan.colName(1, 1) != scan.colName(2, 1) && outer.localConds == [] && inner.localConds == []
    ensures var clause := CollatedEquality(DEFAULT_COLLATION_OID, DEFAULT_COLLATION_OID, c);
      && !IsForeignExpr(clause, g, false)
      && JoinOk(InnerJoin, [clause], [], outer, inner)
      && w.scan == scan && w.Sound() && AgreeElsewhere(w.pg, w.db, w.remote.now, c)
      && w.Local(clause) == BoolV(true) && w.Shipped(clause) == BoolV(false)
  {
    w := CollatedGoesWrong(DEFAULT_COLLATION_OID, DEFAULT_COLLATION_OID, c, scan);
    CollatedIsSent(DEFAULT_COLLATION_OID, DEFAULT_COLLATION_OID, c, outer, inner, scan);
    hide Readable, Intact, Faithful, Printable;
    CollatedIsRefused(c, g);
  }

  lemma CollatedIsRefused(c: Oid, g: Glob)
    requires c != INVALID_OID && c != DEFAULT_COLLATION_OID && {1, 2} <= g.relids
    ensures !IsForeignExpr(CollatedEquality(DEFAULT_COLLATION_OID, DEFAULT_COLLATION_OID, c), g, false)
  {
    var clause := CollatedEquality(DEFAULT_COLLATION_OID, DEFAULT_COLLATION_OID, c);
    assert Walk(clause.left.arg, g, None) == Some(Loc(DEFAULT_COLLATION_OID, Safe));
    assert Walk(clause.left, g, None) == Some(Loc(c, Unsafe));
  }
}
