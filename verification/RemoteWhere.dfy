/** What DB2 does with the conditions of a statement: the rows, or groups of rows, that it keeps, evaluating the WHERE or
    HAVING clause it parsed, are those on which PostgreSQL's remote conditions hold. So what DB2 computes from the
    clauses it was sent is what the plan says. */
module RemoteWhere {
  import opened Nodes
  import opened RemoteSql
  import opened Deparse
  import opened Grouping
  import opened Fragment
  import opened Meaning
  import opened Primitives
  import opened Preservation
  import opened Walker
  import opened Agreement
  import opened Conditions
  import opened PlanEquivalence
  import UP = UpperPaths

  /** How rows, or groups of rows, are seen by the two servers while one statement runs. */
  datatype View<!T> = View(scan: Scan, ps: seq<Expr>, pg: PgSemantics, db: Db2Semantics, local: T -> Env, remote: T -> RemoteEnv) {
    function At(x: T): Setting {
      Setting(scan, ps, local(x), remote(x), pg, db)
    }

    function Holds(): (Expr, T) -> bool {
      (c: Expr, x: T) => EvalPg(c, local(x), pg) == BoolV(true)
    }

    /** The rows that DB2 keeps. */
    function Kept(rows: seq<T>, clause: Sql): seq<T> {
      if rows == [] then []
      else (if EvalSql(clause, remote(rows[0]), db) == BoolV(true) then [rows[0]] else []) + Kept(rows[1..], clause)
    }

    /** Both servers see every row alike, and agree on the conditions' operations under the given collations. */
    ghost predicate Matches(rows: seq<T>, es: seq<Expr>, colls: set<Oid>) {
      forall x | x in rows :: At(x).Sound() && AgreeUnder(AllPrims(es), colls, pg, db, remote(x).now)
    }
  }

  /** What `appendConditions` is given: conditions that passed the walker, without a gap, intact and with a counterpart
      for every part, printed after whatever earlier parts of the statement. */
  ghost predicate Sendable<T>(v: View<T>, es: seq<Expr>, earlier: seq<Expr>, g: Glob) {
    && AllForeign(es, g) && g.relids == v.scan.relids
    && AllNoGap(es, v.scan) && AllIntact(es) && AllFaithful(es, v.scan)
    && ParamsOfConditions(es, v.scan, earlier) <= v.ps
  }

  lemma {:induction false} AllTrue<T>(v: View<T>, es: seq<Expr>, x: T)
    ensures AndAll(EvalPgs(es, v.local(x), v.pg)) == BoolV(true) <==> AllHold(es, x, v.Holds())
    decreases |es|
  {
    if es != [] {
      AllTrue(v, es[1..], x);
      var vs := EvalPgs(es, v.local(x), v.pg);
      assert vs[1..] == EvalPgs(es[1..], v.local(x), v.pg);
      assert v.Holds()(es[0], x) <==> vs[0] == BoolV(true);
      assert forall i | 0 < i < |es| :: es[i] == es[1..][i - 1];
      assert forall i | 0 <= i < |es[1..]| :: es[1..][i] == es[i + 1];
      if |es| == 1 {
        assert es[1..] == [];
      }
    }
  }

  lemma {:induction false} KeptAlike<T>(v: View<T>, rows: seq<T>, es: seq<Expr>, earlier: seq<Expr>, colls: set<Oid>)
    requires es != [] && AllReadable(es, v.scan) && AllIntact(es) && AllFaithful(es, v.scan)
    requires ParamsOfConditions(es, v.scan, earlier) <= v.ps
    requires Covered(AllPrims(es), colls) && v.Matches(rows, es, colls)
    ensures v.Kept(rows, ReadWhere(es, v.scan, v.ps)) == Filter(rows, es, v.Holds())
    decreases |rows|
  {
    if rows != [] {
      var w := v.At(rows[0]);
      assert rows[0] in rows && w.Sound();
      ConditionsMean(es, earlier, w);
      AllTrue(v, es, rows[0]);
      KeptAlike(v, rows[1..], es, earlier, colls);
    }
  }

  /** Remote conditions on rows (WHERE) or on groups (HAVING): DB2 parses them and filters as the plan says. */
  lemma RemoteFilterIsFilter<T>(v: View<T>, rows: seq<T>, es: seq<Expr>, earlier: seq<Expr>, g: Glob)
    requires es != [] && Sendable(v, es, earlier, g) && v.Matches(rows, es, ColumnsOfAll(es, g))
    ensures var clause := ParseExpression(ConditionsText(es, true, v.scan, v.ps));
      clause.Some? && v.Kept(rows, clause.value) == Filter(rows, es, v.Holds())
  {
    ForeignAgrees(es, g, v.scan);
    ForeignIsCovered(es, g);
    WhereParses(es, v.scan, v.ps);
    KeptAlike(v, rows, es, earlier, ColumnsOfAll(es, g));
  }

  // ----- a whole statement

  /** The clause for a list of conditions, which is left out if there are none. */
  function Clause(es: seq<Expr>, scan: Scan, ps: seq<Expr>): Option<seq<Token>> {
    if es == [] then None else Some(ConditionsText(es, true, scan, ps))
  }

  /** What DB2 makes of a clause: an error if it cannot parse it. */
  function Answer<T>(v: View<T>, rows: seq<T>, clause: Option<seq<Token>>): Option<seq<T>> {
    if clause.None? then Some(rows)
    else
      var parsed := ParseExpression(clause.value);
      if parsed.None? then None else Some(v.Kept(rows, parsed.value))
  }

  lemma AnswerIsFilter<T>(v: View<T>, rows: seq<T>, es: seq<Expr>, earlier: seq<Expr>, g: Glob)
    requires Sendable(v, es, earlier, g) && v.Matches(rows, es, ColumnsOfAll(es, g))
    ensures Answer(v, rows, Clause(es, v.scan, v.ps)) == Some(Filter(rows, es, v.Holds()))
  {
    if es == [] {
      FilterNothing(rows, v.Holds());
    } else {
      RemoteFilterIsFilter(v, rows, es, earlier, g);
    }
  }

  /** DB2 runs a statement with these clauses: scan, group if it is asked to, filter groups, sort, limit. */
  ghost predicate StatementSteps<T>(v: View<T>, where: Option<seq<Token>>, having: Option<seq<Token>>, p: Plan<Expr>,
                                    q: Query<Expr, T>, table: seq<T>, r: seq<T>, g: seq<T>, kept: seq<T>) {
    var scanned, filtered := Answer(v, table, where), Answer(v, g, having);
    scanned.Some? && filtered.Some? && PrintedSteps(p, q, scanned.value, filtered.value, r, g, kept)
  }

  /** Of the statement with the WHERE and HAVING clauses that are printed for a plan, DB2 computes what the plan expects. */
  lemma StatementIsPlan<T(!new)>(v: View<T>, p: Plan<Expr>, q: Query<Expr, T>, table: seq<T>, r: seq<T>, g: seq<T>, kept: seq<T>,
                                 beforeWhere: seq<Expr>, beforeHaving: seq<Expr>, gw: Glob, gh: Glob)
    requires q.holds == v.Holds() && (!p.groupRemote ==> p.remoteHaving == [])
    requires Sendable(v, p.remoteWhere, beforeWhere, gw) && v.Matches(table, p.remoteWhere, ColumnsOfAll(p.remoteWhere, gw))
    requires Sendable(v, p.remoteHaving, beforeHaving, gh) && v.Matches(g, p.remoteHaving, ColumnsOfAll(p.remoteHaving, gh))
    ensures StatementSteps(v, Clause(p.remoteWhere, v.scan, v.ps), Clause(p.remoteHaving, v.scan, v.ps), p, q, table, r, g, kept)
        <==> RemoteSteps(p, q, table, r, g, kept)
  {
    AnswerIsFilter(v, table, p.remoteWhere, beforeWhere, gw);
    AnswerIsFilter(v, g, p.remoteHaving, beforeHaving, gh);
    if !p.groupRemote {
      FilterNothing(g, q.holds);
    }
  }

  /** Pushdown, down to the text: DB2 runs the statement with the clauses printed for an accepted plan, and whatever rows it
      returns in whatever order, the local plan above makes a result of the query out of them. */
  lemma ShippedQueryIsCorrect<T(!new)>(v: View<T>, u: UP.Query<Expr>, q: Query<Expr, T>, rels: set<UP.RelOptInfo<Expr>>,
                                       stack: Stack<Expr>, top: Top, table: seq<T>, r: seq<T>, g: seq<T>, kept: seq<T>, out: seq<T>,
                                       beforeWhere: seq<Expr>, beforeHaving: seq<Expr>, gw: Glob, gh: Glob)
    requires SameQuery(u, q) && UP.ChainHolds(u, rels) && stack.Valid(u, q, rels) && stack.MayAsk(u, q, top)
    requires !top.AtScan? && q.grouping.Some? ==> stack.grouped.fdwPrivate != null
    requires q.holds == v.Holds()
    requires var p := stack.PlanAt(q, top);
      && Sendable(v, p.remoteWhere, beforeWhere, gw) && v.Matches(table, p.remoteWhere, ColumnsOfAll(p.remoteWhere, gw))
      && Sendable(v, p.remoteHaving, beforeHaving, gh) && v.Matches(g, p.remoteHaving, ColumnsOfAll(p.remoteHaving, gh))
      && StatementSteps(v, Clause(p.remoteWhere, v.scan, v.ps), Clause(p.remoteHaving, v.scan, v.ps), p, q, table, r, g, kept)
      && LocalResult(p, q, r, out)
    ensures QueryResult(q, table, out)
  {
    var p := stack.PlanAt(q, top);
    StatementIsPlan(v, p, q, table, r, g, kept, beforeWhere, beforeHaving, gw, gh);
    PushdownIsCorrect(u, q, rels, stack, top, table, r, out);
  }
}
