/** Splitting a query: part of WHERE, GROUP BY, HAVING, ORDER BY and LIMIT runs on DB2, the rest locally.
    Whatever order DB2 returns its rows in, the outcome is a result of the query. */
module PlanEquivalence {
  import opened Nodes
  import UP = UpperPaths

  /** What DB2 makes of the clauses that are printed: GROUP BY, ORDER BY, and the numbers in LIMIT and OFFSET. */
  datatype Printed<!T> = Printed(groups: multiset<T> -> multiset<T>, le: (T, T) -> bool, offset: nat, limit: Option<nat>)

  /** A query over the rows of one relation, as it is meant, and what its clauses say when they are printed for DB2. Grouping
      turns the bag of rows into a bag of group rows. A set-returning function in the target list makes several rows of one.
      The order is a comparison; rows that compare equal may come in any order, and WITH TIES counts them as one place. */
  datatype Query<!C, !T> = Query(
    where: seq<C>, grouping: Option<multiset<T> -> multiset<T>>, having: seq<C>, expand: Option<T -> seq<T>>,
    order: Option<(T, T) -> bool>, offset: nat, limit: Option<nat>, ties: bool, holds: (C, T) -> bool, printed: Printed<T>)

  /** HAVING without grouping and ties without an order do not exist. */
  predicate WellFormed<C, T>(q: Query<C, T>) {
    (q.grouping.None? ==> q.having == []) && (q.ties ==> q.order.Some?)
  }

  predicate AllHold<C, T>(conds: seq<C>, x: T, holds: (C, T) -> bool) {
    forall i | 0 <= i < |conds| :: holds(conds[i], x)
  }

  /** The rows on which all conditions hold, in their order. */
  function Filter<C, T>(rows: seq<T>, conds: seq<C>, holds: (C, T) -> bool): seq<T> {
    if rows == [] then []
    else (if AllHold(conds, rows[0], holds) then [rows[0]] else []) + Filter(rows[1..], conds, holds)
  }

  /** The rows that the set-returning functions make of each. */
  function Expanded<T>(rows: seq<T>, expand: Option<T -> seq<T>>): seq<T> {
    if expand.None? then rows else if rows == [] then [] else expand.value(rows[0]) + Expanded(rows[1..], expand)
  }

  /** The rows behind the offset, as many as the limit allows. */
  function Slice<T>(rows: seq<T>, offset: nat, limit: Option<nat>): (out: seq<T>)
    ensures forall i | 0 <= i < |out| :: offset + i < |rows| && out[i] == rows[offset + i]
    ensures var left := if offset < |rows| then |rows| - offset else 0; |out| == if limit.Some? && limit.value < left then limit.value else left
  {
    var rest := if offset <= |rows| then rows[offset..] else [];
    if limit.Some? && limit.value <= |rest| then rest[..limit.value] else rest
  }

  /** Where the rows end that are, from the n-th on, not behind the last one in the order. */
  function LastTied<T>(rows: seq<T>, n: nat, last: T, le: (T, T) -> bool): (m: nat)
    requires n <= |rows|
    ensures n <= m <= |rows|
    ensures forall k | n <= k < m :: le(rows[k], last)
    ensures m < |rows| ==> !le(rows[m], last)
    decreases |rows| - n
  {
    if n < |rows| && le(rows[n], last) then LastTied(rows, n + 1, last, le) else n
  }

  /** LIMIT and OFFSET as they are meant: with ties, every row that is equal in the order to the last one counts as well. */
  function Cut<C, T>(q: Query<C, T>, rows: seq<T>): seq<T> {
    var out := Slice(rows, q.offset, q.limit);
    if q.ties && q.order.Some? && q.limit.Some? && out != [] then
      rows[q.offset..LastTied(rows, q.offset + |out|, out[|out| - 1], q.order.value)]
    else out
  }

  ghost predicate Sorted<T>(rows: seq<T>, le: (T, T) -> bool) {
    forall i, j | 0 <= i < j < |rows| :: le(rows[i], rows[j])
  }

  ghost predicate Ordered<C, T>(q: Query<C, T>, rows: seq<T>) {
    q.order.Some? ==> Sorted(rows, q.order.value)
  }

  /** The rows after GROUP BY, in any order. */
  ghost predicate Grouped<C, T>(q: Query<C, T>, rows: seq<T>, g: seq<T>) {
    multiset(g) == if q.grouping.Some? then q.grouping.value(multiset(rows)) else multiset(rows)
  }

  /** What SQL allows as the result of the query. */
  ghost predicate QueryResult<C, T(!new)>(q: Query<C, T>, table: seq<T>, out: seq<T>) {
    exists g: seq<T>, kept: seq<T> :: QuerySteps(q, table, out, g, kept)
  }

  ghost predicate QuerySteps<C, T>(q: Query<C, T>, table: seq<T>, out: seq<T>, g: seq<T>, kept: seq<T>) {
    && Grouped(q, Filter(table, q.where, q.holds), g)
    && multiset(kept) == multiset(Expanded(Filter(g, q.having, q.holds), q.expand))
    && Ordered(q, kept)
    && out == Cut(q, kept)
  }

  // ----- a plan

  /** How the conditions are split, and which later stages run remotely. */
  datatype Plan<C> = Plan(
    remoteWhere: seq<C>, localWhere: seq<C>, groupRemote: bool, remoteHaving: seq<C>, localHaving: seq<C>,
    sortRemote: bool, limitRemote: bool)

  /** What DB2 may return. */
  ghost predicate RemoteResult<C, T(!new)>(p: Plan<C>, q: Query<C, T>, table: seq<T>, r: seq<T>) {
    exists g: seq<T>, kept: seq<T> :: RemoteSteps(p, q, table, r, g, kept)
  }

  /** DB2 groups, sorts and limits by what is printed. */
  ghost predicate RemoteSteps<C, T>(p: Plan<C>, q: Query<C, T>, table: seq<T>, r: seq<T>, g: seq<T>, kept: seq<T>) {
    var scanned := Filter(table, p.remoteWhere, q.holds);
    PrintedSteps(p, q, scanned, if p.groupRemote then Filter(g, p.remoteHaving, q.holds) else g, r, g, kept)
  }

  /** The stages after the scan, given the groups that pass HAVING. */
  ghost predicate PrintedSteps<C, T>(p: Plan<C>, q: Query<C, T>, scanned: seq<T>, passed: seq<T>, r: seq<T>, g: seq<T>, kept: seq<T>) {
    && multiset(g) == (if p.groupRemote then q.printed.groups(multiset(scanned)) else multiset(scanned))
    && multiset(kept) == multiset(passed)
    && (p.sortRemote ==> Sorted(kept, q.printed.le))
    && r == if p.limitRemote then Slice(kept, q.printed.offset, q.printed.limit) else kept
  }

  /** What the local plan above the foreign scan may make of it. Filters and ungrouped rows keep their
      order. */
  ghost predicate LocalResult<C, T(!new)>(p: Plan<C>, q: Query<C, T>, r: seq<T>, out: seq<T>) {
    exists g: seq<T>, s: seq<T> :: LocalSteps(p, q, r, out, g, s)
  }

  /** Filter, group, filter groups and expand, as far as this is left to do; then sort and limit. */
  ghost predicate LocalSteps<C, T>(p: Plan<C>, q: Query<C, T>, r: seq<T>, out: seq<T>, g: seq<T>, s: seq<T>) {
    && (if p.groupRemote then g == r
        else if q.grouping.Some? then Grouped(q, Filter(r, p.localWhere, q.holds), g)
        else g == Filter(r, p.localWhere, q.holds))
    && var h := Expanded(Filter(g, if p.groupRemote then p.localHaving else q.having, q.holds), q.expand);
    && (if q.order.Some? && !p.sortRemote then multiset(s) == multiset(h) && Ordered(q, s) else s == h)
    && out == if p.limitRemote then s else Cut(q, s)
  }

  /** The printed GROUP BY groups as it is meant. */
  ghost predicate GroupsAsMeant<C, T(!new)>(q: Query<C, T>) {
    q.grouping.Some? && forall m: multiset<T> :: q.printed.groups(m) == q.grouping.value(m)
  }

  /** The printed ORDER BY sorts as it is meant. */
  ghost predicate SortsAsMeant<C, T(!new)>(q: Query<C, T>) {
    q.order.Some? && forall a: T, b: T :: q.printed.le(a, b) == q.order.value(a, b)
  }

  predicate LimitsAsMeant<C, T>(q: Query<C, T>) {
    q.printed.offset == q.offset && q.printed.limit == q.limit
  }

  /** What the stages guarantee when they accept. */
  ghost predicate ValidPlan<C, T(!new)>(p: Plan<C>, q: Query<C, T>) {
    && WellFormed(q)
    && multiset(q.where) == multiset(p.remoteWhere) + multiset(p.localWhere)
    && (p.groupRemote ==> GroupsAsMeant(q) && p.localWhere == [])
    && (p.groupRemote ==> multiset(q.having) == multiset(p.remoteHaving) + multiset(p.localHaving))
    && (p.sortRemote ==> SortsAsMeant(q) && q.expand.None? && (q.grouping.Some? ==> p.groupRemote))
    && (p.limitRemote ==> LimitsAsMeant(q) && !q.ties && q.expand.None?)
    && (p.limitRemote ==> p.localWhere == [] && (p.groupRemote ==> p.localHaving == []))
    && (p.limitRemote ==> (q.grouping.Some? ==> p.groupRemote) && (q.order.Some? ==> p.sortRemote))
  }

  // ----- filters

  lemma HoldsByBag<C, T>(conds: seq<C>, a: seq<C>, b: seq<C>, x: T, holds: (C, T) -> bool)
    requires multiset(conds) == multiset(a) + multiset(b)
    ensures AllHold(conds, x, holds) <==> AllHold(a, x, holds) && AllHold(b, x, holds)
  {
    forall c: C ensures c in conds <==> c in a || c in b {
      assert c in conds <==> c in multiset(conds);
    }
    if AllHold(conds, x, holds) {
      forall i | 0 <= i < |a| ensures holds(a[i], x) {
        assert a[i] in conds;
      }
      forall i | 0 <= i < |b| ensures holds(b[i], x) {
        assert b[i] in conds;
      }
    } else {
      var i :| 0 <= i < |conds| && !holds(conds[i], x);
      assert conds[i] in a || conds[i] in b;
    }
  }

  /** Filtering by all conditions is filtering by one part and then by the other. */
  lemma {:induction false} FilterSplits<C, T>(rows: seq<T>, conds: seq<C>, a: seq<C>, b: seq<C>, holds: (C, T) -> bool)
    requires multiset(conds) == multiset(a) + multiset(b)
    ensures Filter(rows, conds, holds) == Filter(Filter(rows, a, holds), b, holds)
  {
    if rows != [] {
      FilterSplits(rows[1..], conds, a, b, holds);
      HoldsByBag(conds, a, b, rows[0], holds);
      var rest := Filter(rows[1..], a, holds);
      if AllHold(a, rows[0], holds) {
        assert Filter(rows, a, holds) == [rows[0]] + rest;
        assert ([rows[0]] + rest)[1..] == rest;
      } else {
        assert Filter(rows, a, holds) == rest;
      }
    }
  }

  lemma {:induction false} FilterNothing<C, T>(rows: seq<T>, holds: (C, T) -> bool)
    ensures Filter(rows, [], holds) == rows
  {
    if rows != [] {
      FilterNothing(rows[1..], holds);
    }
  }

  /** How often a row passes depends only on how often it is there. */
  lemma {:induction false} FilterCounts<C, T>(rows: seq<T>, conds: seq<C>, holds: (C, T) -> bool, x: T)
    ensures multiset(Filter(rows, conds, holds))[x] == if AllHold(conds, x, holds) then multiset(rows)[x] else 0
  {
    if rows != [] {
      FilterCounts(rows[1..], conds, holds, x);
      assert rows == [rows[0]] + rows[1..];
    }
  }

  lemma {:induction false} EqualCounts<T>(m: multiset<T>, n: multiset<T>)
    requires forall x | x in m + n :: m[x] == n[x]
    ensures m == n
  {
    forall x | x in m || x in n ensures m[x] == n[x] {
      assert x in m + n;
    }
  }

  /** The bag of rows that pass depends only on the bag of rows. */
  lemma FilterOfBag<C, T>(a: seq<T>, b: seq<T>, conds: seq<C>, holds: (C, T) -> bool)
    requires multiset(a) == multiset(b)
    ensures multiset(Filter(a, conds, holds)) == multiset(Filter(b, conds, holds))
  {
    var m, n := multiset(Filter(a, conds, holds)), multiset(Filter(b, conds, holds));
    hide Filter, AllHold;
    forall x | x in m + n ensures m[x] == n[x] {
      FilterCounts(a, conds, holds, x);
      FilterCounts(b, conds, holds, x);
    }
    EqualCounts(m, n);
  }

  lemma {:induction false} FilterIsSubset<C, T>(rows: seq<T>, conds: seq<C>, holds: (C, T) -> bool, i: nat)
    requires i < |Filter(rows, conds, holds)|
    ensures Filter(rows, conds, holds)[i] in rows
  {
    if AllHold(conds, rows[0], holds) {
      if i > 0 {
        FilterIsSubset(rows[1..], conds, holds, i - 1);
      }
    } else {
      FilterIsSubset(rows[1..], conds, holds, i);
    }
  }

  /** A filter keeps sorted rows sorted. */
  lemma {:induction false} FilterKeepsSorted<C, T>(rows: seq<T>, conds: seq<C>, holds: (C, T) -> bool, le: (T, T) -> bool)
    requires Sorted(rows, le)
    ensures Sorted(Filter(rows, conds, holds), le)
  {
    if rows != [] {
      var rest := Filter(rows[1..], conds, holds);
      FilterKeepsSorted(rows[1..], conds, holds, le);
      forall j | 0 <= j < |rest| ensures le(rows[0], rest[j]) {
        FilterIsSubset(rows[1..], conds, holds, j);
        var k :| 0 <= k < |rows[1..]| && rows[1..][k] == rest[j];
        assert rows[k + 1] == rest[j];
      }
    }
  }

  lemma {:induction false} ExpandedCat<T>(a: seq<T>, b: seq<T>, expand: Option<T -> seq<T>>)
    ensures Expanded(a + b, expand) == Expanded(a, expand) + Expanded(b, expand)
    decreases |a|
  {
    if expand.Some? {
      if a == [] {
        assert a + b == b;
      } else {
        assert (a + b)[1..] == a[1..] + b;
        ExpandedCat(a[1..], b, expand);
      }
    }
  }

  lemma TakenOut<T>(rows: seq<T>, i: nat)
    requires i < |rows|
    ensures multiset(rows[..i] + rows[i + 1..]) == multiset(rows) - multiset{rows[i]}
  {
    assert rows == rows[..i] + ([rows[i]] + rows[i + 1..]);
  }

  lemma ExpandedOut<T>(rows: seq<T>, i: nat, expand: T -> seq<T>)
    requires i < |rows|
    ensures multiset(Expanded(rows, Some(expand))) == multiset(expand(rows[i])) + multiset(Expanded(rows[..i] + rows[i + 1..], Some(expand)))
  {
    var before, after := rows[..i], rows[i + 1..];
    assert rows == before + ([rows[i]] + after);
    ExpandedCat(before, [rows[i]] + after, Some(expand));
    ExpandedCat(before, after, Some(expand));
    assert ([rows[i]] + after)[1..] == after;
  }

  /** The bag of expanded rows depends only on the bag of rows. */
  lemma {:induction false} ExpandedOfBag<T>(a: seq<T>, b: seq<T>, expand: Option<T -> seq<T>>)
    requires multiset(a) == multiset(b)
    ensures multiset(Expanded(a, expand)) == multiset(Expanded(b, expand))
    decreases |a|
  {
    if expand.Some? {
      if a == [] {
        assert |b| == |multiset(b)| == 0;
      } else {
        assert a[0] in multiset(b);
        var i :| 0 <= i < |b| && b[i] == a[0];
        var others := b[..i] + b[i + 1..];
        TakenOut(a, 0);
        TakenOut(b, i);
        assert a[..0] + a[1..] == a[1..];
        ExpandedOfBag(a[1..], others, expand);
        ExpandedOut(a, 0, expand.value);
        ExpandedOut(b, i, expand.value);
      }
    }
  }

  // ----- the plan computes the query

  /** Grouping and HAVING on DB2: the rest of HAVING may be checked after the remote sort. */
  lemma RemoteGroupsAreGroups<C, T(!new)>(p: Plan<C>, q: Query<C, T>, table: seq<T>, g: seq<T>, kept: seq<T>)
    requires ValidPlan(p, q) && p.groupRemote
    requires multiset(g) == q.printed.groups(multiset(Filter(table, p.remoteWhere, q.holds))) && multiset(kept) == multiset(Filter(g, p.remoteHaving, q.holds))
    ensures Grouped(q, Filter(table, q.where, q.holds), g)
    ensures multiset(Filter(kept, p.localHaving, q.holds)) == multiset(Filter(g, q.having, q.holds))
  {
    FilterSplits(table, q.where, p.remoteWhere, p.localWhere, q.holds);
    FilterNothing(Filter(table, p.remoteWhere, q.holds), q.holds);
    FilterSplits(g, q.having, p.remoteHaving, p.localHaving, q.holds);
    FilterOfBag(kept, Filter(g, p.remoteHaving, q.holds), p.localHaving, q.holds);
  }

  /** Scanning on DB2 and everything above locally, except perhaps sorting. */
  lemma RemoteRowsAreRows<C, T(!new)>(p: Plan<C>, q: Query<C, T>, table: seq<T>, r: seq<T>)
    requires ValidPlan(p, q) && multiset(r) == multiset(Filter(table, p.remoteWhere, q.holds))
    ensures multiset(Filter(r, p.localWhere, q.holds)) == multiset(Filter(table, q.where, q.holds))
  {
    FilterSplits(table, q.where, p.remoteWhere, p.localWhere, q.holds);
    FilterOfBag(r, Filter(table, p.remoteWhere, q.holds), p.localWhere, q.holds);
  }

  /** A plan that limits remotely has nothing left to do locally. */
  lemma NothingLeft<C, T(!new)>(p: Plan<C>, q: Query<C, T>, r: seq<T>, out: seq<T>)
    requires ValidPlan(p, q) && p.limitRemote && LocalResult(p, q, r, out)
    ensures out == r
  {
    var g, s :| LocalSteps(p, q, r, out, g, s);
    FilterNothing(r, q.holds);
  }

  lemma LimitedPlan<C, T(!new)>(p: Plan<C>, q: Query<C, T>, table: seq<T>, r: seq<T>, out: seq<T>)
    requires ValidPlan(p, q) && p.limitRemote && RemoteResult(p, q, table, r) && LocalResult(p, q, r, out)
    ensures QueryResult(q, table, out)
  {
    var g, kept :| RemoteSteps(p, q, table, r, g, kept);
    NothingLeft(p, q, r, out);
    hide LocalResult, QueryResult, RemoteResult, Filter;
    FilterNothing(kept, q.holds);
    FilterNothing(g, q.holds);
    if p.groupRemote {
      RemoteGroupsAreGroups(p, q, table, g, kept);
    } else {
      RemoteRowsAreRows(p, q, table, kept);
    }
    assert q.order.Some? ==> Sorted(kept, q.order.value);
    LimitedSteps(p, q, table, out, g, kept);
  }

  lemma LimitedSteps<C, T(!new)>(p: Plan<C>, q: Query<C, T>, table: seq<T>, out: seq<T>, g: seq<T>, kept: seq<T>)
    requires ValidPlan(p, q) && p.limitRemote
    requires Grouped(q, Filter(table, q.where, q.holds), g) && multiset(kept) == multiset(Filter(g, q.having, q.holds))
    requires Ordered(q, kept) && out == Slice(kept, q.offset, q.limit)
    ensures QueryResult(q, table, out)
  {
    assert QuerySteps(q, table, out, g, kept);
  }

  /** A plan that groups remotely and limits locally. */
  lemma GroupedPlan<C, T(!new)>(p: Plan<C>, q: Query<C, T>, table: seq<T>, r: seq<T>, out: seq<T>)
    requires ValidPlan(p, q) && p.groupRemote && !p.limitRemote && RemoteResult(p, q, table, r) && LocalResult(p, q, r, out)
    ensures QueryResult(q, table, out)
  {
    var g, kept :| RemoteSteps(p, q, table, r, g, kept);
    var g', s :| LocalSteps(p, q, r, out, g', s);
    RemoteGroupsAreGroups(p, q, table, g, r);
    ExpandedOfBag(Filter(r, p.localHaving, q.holds), Filter(g, q.having, q.holds), q.expand);
    if p.sortRemote {
      assert Sorted(r, q.order.value);
      FilterKeepsSorted(r, p.localHaving, q.holds, q.order.value);
    }
    assert QuerySteps(q, table, out, g, s);
  }

  /** A plan that only scans, and perhaps sorts, remotely. */
  lemma ScanPlan<C, T(!new)>(p: Plan<C>, q: Query<C, T>, table: seq<T>, r: seq<T>, out: seq<T>)
    requires ValidPlan(p, q) && !p.groupRemote && !p.limitRemote && RemoteResult(p, q, table, r) && LocalResult(p, q, r, out)
    ensures QueryResult(q, table, out)
  {
    var g, kept :| RemoteSteps(p, q, table, r, g, kept);
    var g', s :| LocalSteps(p, q, r, out, g', s);
    RemoteRowsAreRows(p, q, table, r);
    if p.sortRemote {
      assert Sorted(r, q.order.value);
      FilterKeepsSorted(r, p.localWhere, q.holds, q.order.value);
      FilterKeepsSorted(g', q.having, q.holds, q.order.value);
    }
    assert QuerySteps(q, table, out, g', s);
  }

  /** For every classification of the conditions and every outcome of the stages, and whatever DB2 returns:
      what the split plan computes is a result of the query. */
  lemma PlanIsCorrect<C, T(!new)>(p: Plan<C>, q: Query<C, T>, table: seq<T>, r: seq<T>, out: seq<T>)
    requires ValidPlan(p, q) && RemoteResult(p, q, table, r) && LocalResult(p, q, r, out)
    ensures QueryResult(q, table, out)
  {
    if p.limitRemote {
      LimitedPlan(p, q, table, r, out);
    } else if p.groupRemote {
      GroupedPlan(p, q, table, r, out);
    } else {
      ScanPlan(p, q, table, r, out);
    }
  }

  // ----- the stages only accept valid plans

  /** DB2 can compute everything that the group rows consist of. */
  predicate GroupsComputable<C>(u: UP.Query<C>) {
    && !u.groupingSets
    && (forall i | 0 <= i < |u.targets| :: var t := u.targets[i];
      (u.foreign(t.expr) && !u.param(t.expr)) || (!t.grouping && u.aggVarsForeign(t.expr)))
    && (forall i | 0 <= i < |u.having| ::
      u.foreign(u.having[i]) || forall k | 0 <= k < |u.aggregates(u.having[i])| :: u.foreign(u.aggregates(u.having[i])[k]))
  }

  /** The query that the planner sees and the one that is meant: same conditions, grouping where the planner groups, an order
      where it sorts. A printed clause says what is meant if DB2 can compute what is in it. */
  ghost predicate SameQuery<C, T(!new)>(u: UP.Query<C>, q: Query<C, T>) {
    && WellFormed(q) && q.having == u.having
    && (q.grouping.Some? <==> u.hasAggs || u.hasGroupClause)
    && (q.order.Some? <==> u.hasSortClause)
    && (q.expand.Some? <==> u.hasTargetSRFs)
    && (q.ties <==> u.withTies)
    && (q.grouping.Some? && GroupsComputable(u) ==> GroupsAsMeant(q))
    && (q.order.Some? && u.sortKeysShippable ==> SortsAsMeant(q))
    && ((forall e | e in u.limitOffset + u.limitCount :: u.foreign(e)) ==> LimitsAsMeant(q))
  }

  /** A relation that has been tried stands for its stage, on the relation PostgreSQL put it on. */
  ghost predicate Stacked<C>(r: UP.RelOptInfo<C>, stage: UP.Stage, below: UP.RelOptInfo<C>)
    reads r, r.fdwPrivate
  {
    r.kind == UP.UpperRel && (r.fdwPrivate != null ==> r.fdwPrivate.stage == stage && r.fdwPrivate.outerrel == below)
  }

  /** The relation for which DB2 is asked: everything beneath it runs remotely, everything above locally. */
  datatype Top = AtScan | AtGroup | AtSort | AtLimit

  /** The relations of one query, as PostgreSQL stacks them. */
  datatype Stack<C> = Stack(scan: UP.RelOptInfo<C>, grouped: UP.RelOptInfo<C>, ordered: UP.RelOptInfo<C>, final: UP.RelOptInfo<C>) {
    function BelowSort<T(==)>(q: Query<C, T>): UP.RelOptInfo<C> {
      if q.grouping.Some? then grouped else scan
    }

    function BelowLimit<T(==)>(q: Query<C, T>): UP.RelOptInfo<C> {
      if q.order.Some? then ordered else BelowSort(q)
    }

    function At(top: Top): UP.RelOptInfo<C> {
      match top
      case AtScan => scan
      case AtGroup => grouped
      case AtSort => ordered
      case AtLimit => final
    }

    ghost predicate Valid<T>(u: UP.Query<C>, q: Query<C, T>, rels: set<UP.RelOptInfo<C>>)
      reads rels, set r | r in rels :: r.fdwPrivate
    {
      && scan in rels && grouped in rels && ordered in rels && final in rels
      && grouped != ordered && ordered != final && grouped != final
      && scan.kind != UP.UpperRel && scan.fdwPrivate != null && scan.fdwPrivate.stage != UP.Ordered
      && scan.fdwPrivate.remoteConds == UP.Select(q.where, u.foreign, true)
      && scan.fdwPrivate.localConds == UP.Select(q.where, u.foreign, false)
      && Stacked(grouped, UP.GroupAgg, scan) && Stacked(ordered, UP.Ordered, BelowSort(q)) && Stacked(final, UP.Final, BelowLimit(q))
    }

    /** The stage exists in the query, and its relation was accepted. */
    ghost predicate MayAsk<T>(u: UP.Query<C>, q: Query<C, T>, top: Top)
      reads At(top), At(top).fdwPrivate
    {
      && At(top).fdwPrivate != null && (top.AtScan? || At(top).fdwPrivate.pushdownSafe)
      && (top.AtGroup? ==> q.grouping.Some?) && (top.AtSort? ==> q.order.Some?) && (top.AtLimit? ==> u.limitNeeded)
    }

    /** The plan that DB2 being asked for a relation amounts to. */
    ghost function PlanAt<T>(q: Query<C, T>, top: Top): Plan<C>
      requires scan.fdwPrivate != null && (!top.AtScan? && q.grouping.Some? ==> grouped.fdwPrivate != null)
      reads scan, scan.fdwPrivate, grouped, grouped.fdwPrivate
    {
      var groups := !top.AtScan? && q.grouping.Some?;
      Plan(scan.fdwPrivate.remoteConds, scan.fdwPrivate.localConds, groups,
        if groups then grouped.fdwPrivate.remoteConds else [], if groups then grouped.fdwPrivate.localConds else [],
        (top.AtSort? || top.AtLimit?) && q.order.Some?, top.AtLimit?)
    }
  }

  /** What the grouping stage tests is what DB2 needs to compute the groups. */
  lemma GroupingIsComputable<C>(u: UP.Query<C>, inputLocal: seq<C>)
    requires UP.GroupingOk(u, inputLocal)
    ensures GroupsComputable(u)
  {
    forall i | 0 <= i < |u.targets|
      ensures var t := u.targets[i]; (u.foreign(t.expr) && !u.param(t.expr)) || (!t.grouping && u.aggVarsForeign(t.expr))
    {
      assert UP.TargetOk(u.targets[i], u);
    }
    forall i | 0 <= i < |u.having|
      ensures u.foreign(u.having[i]) || forall k | 0 <= k < |u.aggregates(u.having[i])| :: u.foreign(u.aggregates(u.having[i])[k])
    {
      assert UP.HavingOk(u.having[i], u);
    }
  }

  /** What the final stage tests is what makes the printed numbers right. */
  lemma LimitIsComputable<C, T(!new)>(u: UP.Query<C>, q: Query<C, T>, limited: UP.FdwState<C>)
    requires SameQuery(u, q) && UP.LimitOk(u, limited)
    ensures LimitsAsMeant(q) && !q.ties && limited.localConds == []
  {
    forall e | e in u.limitOffset + u.limitCount ensures u.foreign(e) {
      if e in u.limitOffset {
        var i :| 0 <= i < |u.limitOffset| && u.limitOffset[i] == e;
      } else {
        var i :| 0 <= i < |u.limitCount| && u.limitCount[i] == e;
      }
    }
  }

  /** Beneath an accepted grouping stage nothing is filtered locally, it keeps HAVING clauses only, and DB2 groups as it is
      meant. */
  lemma BeneathGroup<C, T(!new)>(u: UP.Query<C>, q: Query<C, T>, rels: set<UP.RelOptInfo<C>>, stack: Stack<C>)
    requires SameQuery(u, q) && UP.ChainHolds(u, rels) && stack.Valid(u, q, rels) && stack.MayAsk(u, q, AtGroup)
    ensures stack.scan.fdwPrivate.localConds == []
    ensures stack.grouped.fdwPrivate.remoteConds == UP.Select(q.having, u.foreign, true)
    ensures stack.grouped.fdwPrivate.localConds == UP.Select(q.having, u.foreign, false)
    ensures GroupsAsMeant(q)
  {
    assert UP.Accepted(u, stack.grouped.fdwPrivate);
    GroupingIsComputable(u, stack.scan.fdwPrivate.localConds);
  }

  /** An accepted sort stands on an accepted grouping stage. */
  lemma BeneathSort<C, T(!new)>(u: UP.Query<C>, q: Query<C, T>, rels: set<UP.RelOptInfo<C>>, stack: Stack<C>)
    requires SameQuery(u, q) && UP.ChainHolds(u, rels) && stack.Valid(u, q, rels) && stack.MayAsk(u, q, AtSort)
    ensures q.grouping.Some? && stack.MayAsk(u, q, AtGroup)
    ensures SortsAsMeant(q) && q.expand.None?
  {
    assert UP.Accepted(u, stack.ordered.fdwPrivate);
  }

  /** An accepted limit stands on the accepted stages of the query, and nothing is filtered locally. */
  lemma BeneathLimit<C, T(!new)>(u: UP.Query<C>, q: Query<C, T>, rels: set<UP.RelOptInfo<C>>, stack: Stack<C>)
    requires SameQuery(u, q) && UP.ChainHolds(u, rels) && stack.Valid(u, q, rels) && stack.MayAsk(u, q, AtLimit)
    ensures q.order.Some? ==> stack.MayAsk(u, q, AtSort)
    ensures q.grouping.Some? ==> stack.MayAsk(u, q, AtGroup)
    ensures stack.BelowSort(q).fdwPrivate != null && stack.BelowSort(q).fdwPrivate.localConds == []
    ensures LimitsAsMeant(q) && !q.ties && q.expand.None?
  {
    assert UP.Accepted(u, stack.final.fdwPrivate);
    LimitIsComputable(u, q, UP.Limited(stack.BelowLimit(q)));
    if q.order.Some? {
      BeneathSort(u, q, rels, stack);
    }
  }

  /** Whatever relation DB2 is asked for, the stages beneath it were accepted, and the plan is valid. */
  lemma AcceptedPlanIsValid<C, T(!new)>(u: UP.Query<C>, q: Query<C, T>, rels: set<UP.RelOptInfo<C>>, stack: Stack<C>, top: Top)
    requires SameQuery(u, q) && UP.ChainHolds(u, rels) && stack.Valid(u, q, rels) && stack.MayAsk(u, q, top)
    ensures !top.AtScan? && q.grouping.Some? ==> stack.grouped.fdwPrivate != null
    ensures ValidPlan(stack.PlanAt(q, top), q)
  {
    UP.ClassificationIsPartition(q.where, u.foreign);
    UP.ClassificationIsPartition(u.having, u.foreign);
    hide UP.ChainHolds, UP.Accepted, UP.Select, GroupsAsMeant, SortsAsMeant, GroupsComputable;
    if top.AtLimit? {
      BeneathLimit(u, q, rels, stack);
    } else if top.AtSort? {
      BeneathSort(u, q, rels, stack);
    }
    if top.AtLimit? && q.order.Some? {
      BeneathSort(u, q, rels, stack);
    }
    if !top.AtScan? && q.grouping.Some? {
      BeneathGroup(u, q, rels, stack);
    }
  }

  /** The scan with its classified conditions, and the upper relations, which have no state yet. */
  method BeginPlan<C, T>(u: UP.Query<C>, ghost q: Query<C, T>, where: seq<C>) returns (stack: Stack<C>, ghost rels: set<UP.RelOptInfo<C>>)
    requires q.where == where
    ensures UP.ChainHolds(u, rels) && stack.Valid(u, q, rels) && fresh(rels)
    ensures stack.grouped.fdwPrivate == stack.ordered.fdwPrivate == stack.final.fdwPrivate == null
  {
    var remote, local := UP.ClassifyConditions(where, u.foreign);
    var state := new UP.FdwState<C>(true, remote, local);
    var scan := new UP.RelOptInfo<C>(UP.BaseRel, state);
    var grouped := new UP.RelOptInfo<C>(UP.UpperRel, null);
    var ordered := new UP.RelOptInfo<C>(UP.UpperRel, null);
    var final := new UP.RelOptInfo<C>(UP.UpperRel, null);
    stack := Stack(scan, grouped, ordered, final);
    rels := {scan, grouped, ordered, final};
    assert forall r | r in rels && r.fdwPrivate != null :: r == scan && r.fdwPrivate.outerrel == null;
    assert UP.Closed(rels);
  }

  /** One stage is tried on the relation beneath it. */
  method PushStage<C(==), T>(u: UP.Query<C>, ghost q: Query<C, T>, stack: Stack<C>, stage: UP.Stage, input: UP.RelOptInfo<C>,
                             output: UP.RelOptInfo<C>, hasForeignPath: bool, ghost rels: set<UP.RelOptInfo<C>>)
    requires UP.ChainHolds(u, rels) && stack.Valid(u, q, rels)
    requires || (stage == UP.GroupAgg && input == stack.scan && output == stack.grouped)
             || (stage == UP.Ordered && input == stack.BelowSort(q) && output == stack.ordered)
             || (stage == UP.Final && input == stack.BelowLimit(q) && output == stack.final)
    modifies output
    ensures UP.ChainHolds(u, rels) && stack.Valid(u, q, rels)
    ensures old(input.fdwPrivate) != null && !u.setOperations ==> output.fdwPrivate != null
  {
    label Before:
    UP.GetForeignUpperPaths(u, stage, input, output, hasForeignPath, rels);
    assert forall r | r in rels && r != output :: r.fdwPrivate == old@Before(r.fdwPrivate);
    assert stack.scan.kind != UP.UpperRel && stack.scan != output;
  }

  /** The planner on one query: the conditions of the scan are classified, then every stage that the query has is tried
      on the relation beneath it. */
  method PlanQuery<C(==), T(!new)>(u: UP.Query<C>, ghost q: Query<C, T>, where: seq<C>, hasForeignPath: bool)
    returns (stack: Stack<C>, ghost rels: set<UP.RelOptInfo<C>>)
    requires SameQuery(u, q) && q.where == where
    ensures UP.ChainHolds(u, rels) && stack.Valid(u, q, rels)
  {
    hide UP.ChainHolds, Stack.Valid;
    stack, rels := BeginPlan(u, q, where);
    var input := stack.scan;
    if u.hasAggs || u.hasGroupClause {
      PushStage(u, q, stack, UP.GroupAgg, input, stack.grouped, hasForeignPath, rels);
      input := stack.grouped;
    }
    if u.hasSortClause {
      PushStage(u, q, stack, UP.Ordered, input, stack.ordered, hasForeignPath, rels);
      input := stack.ordered;
    }
    PushStage(u, q, stack, UP.Final, input, stack.final, hasForeignPath, rels);
  }

  /** Pushdown is correct: for relations stacked as `PlanQuery` stacks them, whichever accepted relation DB2 is asked
      for, and whatever rows in whatever order it returns, what is computed is a result of the query. */
  lemma PushdownIsCorrect<C, T(!new)>(u: UP.Query<C>, q: Query<C, T>, rels: set<UP.RelOptInfo<C>>, stack: Stack<C>, top: Top,
                                      table: seq<T>, r: seq<T>, out: seq<T>)
    requires SameQuery(u, q) && UP.ChainHolds(u, rels) && stack.Valid(u, q, rels) && stack.MayAsk(u, q, top)
    requires !top.AtScan? && q.grouping.Some? ==> stack.grouped.fdwPrivate != null
    requires RemoteResult(stack.PlanAt(q, top), q, table, r) && LocalResult(stack.PlanAt(q, top), q, r, out)
    ensures QueryResult(q, table, out)
  {
    AcceptedPlanIsValid(u, q, rels, stack, top);
    PlanIsCorrect(stack.PlanAt(q, top), q, table, r, out);
  }
}
