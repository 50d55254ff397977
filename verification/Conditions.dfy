/** The WHERE clause that `appendConditions` builds: it parses exactly when DB2 can read every condition in it, and
    then it means the conjunction of the conditions. */
module Conditions {
  import opened Nodes
  import opened RemoteSql
  import opened Deparse
  import opened Fragment
  import opened Grouping
  import opened Denotation
  import opened RoundTrip
  import opened Spoiling
  import opened Meaning
  import opened Primitives
  import opened Preservation
  import opened Walker
  import opened Agreement

  // ----- clauses that can be read

  lemma InParentheses(text: seq<Token>, t: Sql)
    requires Sums(text, t)
    ensures Denotes([LP] + text + [RP], t)
  {
    forall k ensures ParseSign(Feed([LP] + text + [RP], k)) == Some((t, k)) {
      FeedAround([LP], text, [RP], k);
      FeedOne(RP, k);
      FeedOne(LP, Feed(text, Cons(RP, k)));
      SumAlone(Feed(text, Cons(RP, k)), t, k);
    }
  }

  lemma AndStep(ts: Stream)
    ensures var first := ParseNot(ts);
      ParseAndTail(Cons(Kw(AND), ts)) ==
        if first.None? || ParseAndTail(first.value.1).None? then None
        else Some(([first.value.0] + ParseAndTail(first.value.1).value.0, ParseAndTail(first.value.1).value.1))
  {
  }

  /** A condition in its parentheses, before others. */
  lemma FirstCondition(e: Expr, rest: seq<Token>, scan: Scan, ps: seq<Expr>)
    requires Readable(e, scan) && (rest != [] ==> rest[0] == Kw(AND))
    ensures ParseNot(Feed([LP] + Text(e, scan, ps) + [RP] + rest, Done)) == Some((Read(e, scan, ps), Feed(rest, Done)))
  {
    var text := [LP] + Text(e, scan, ps) + [RP];
    var m := Feed(rest, Done);
    FeedCat(text, rest, Done);
    ExprSums(e, scan, ps);
    InParentheses(Text(e, scan, ps), Read(e, scan, ps));
    SignToSum(Feed(text, m), Read(e, scan, ps), m);
    SumToNot(Feed(text, m), Read(e, scan, ps), m);
  }

  /** After the first condition. */
  lemma {:induction false} OthersParse(es: seq<Expr>, scan: Scan, ps: seq<Expr>)
    requires AllReadable(es, scan)
    ensures ParseAndTail(Feed(ConditionsText(es, false, scan, ps), Done)) == Some((ReadAll(es, scan, ps), Done))
  {
    if es != [] {
      var rest := ConditionsText(es[1..], false, scan, ps);
      var after := [LP] + Text(es[0], scan, ps) + [RP] + rest;
      OthersParse(es[1..], scan, ps);
      FirstCondition(es[0], rest, scan, ps);
      FeedCat([Kw(AND)], after, Done);
      FeedOne(Kw(AND), Feed(after, Done));
      AndStep(Feed(after, Done));
    }
  }

  /** The conjunction that is read. */
  function ReadWhere(es: seq<Expr>, scan: Scan, ps: seq<Expr>): Sql
    requires es != []
  {
    if |es| == 1 then Read(es[0], scan, ps) else AndCond(ReadAll(es, scan, ps))
  }

  lemma ReadableWhere(es: seq<Expr>, scan: Scan, ps: seq<Expr>)
    requires es != [] && AllReadable(es, scan)
    ensures ParseExpression(ConditionsText(es, true, scan, ps)) == Some(ReadWhere(es, scan, ps))
  {
    var rest := ConditionsText(es[1..], false, scan, ps);
    FirstCondition(es[0], rest, scan, ps);
    OthersParse(es[1..], scan, ps);
    var ts := Feed(ConditionsText(es, true, scan, ps), Done);
    assert ReadAll(es, scan, ps) == [Read(es[0], scan, ps)] + ReadAll(es[1..], scan, ps);
    assert ParseAnd(ts) == Some((ReadWhere(es, scan, ps), Done));
    assert ParseOr(ts) == Some((ReadWhere(es, scan, ps), Done));
  }

  // ----- clauses that cannot

  /** A condition that cannot be read spoils the clause, unless it is the first and has no text. */
  lemma {:induction false} UnreadableCondition(es: seq<Expr>, first: bool, scan: Scan, ps: seq<Expr>)
    requires es != [] && !AllReadable(es, scan) && (first ==> Printable(es[0]))
    ensures Spoilt(ConditionsText(es, first, scan, ps))
    decreases |es|
  {
    var head := if first then [LP] else [Kw(AND), LP];
    var text, rest := Text(es[0], scan, ps), ConditionsText(es[1..], false, scan, ps);
    assert ConditionsText(es, first, scan, ps) == head + text + ([RP] + rest);
    if Readable(es[0], scan) {
      UnreadableCondition(es[1..], false, scan, ps);
      SpoiltBehind(head + text + [RP], rest);
      assert ConditionsText(es, first, scan, ps) == head + text + [RP] + rest;
    } else if Printable(es[0]) {
      UnreadableIsSpoilt(es[0], scan, ps);
      SpoiltInside(head, text, [RP] + rest);
    } else {
      var whole := ConditionsText(es, first, scan, ps);
      assert whole[0] == Kw(AND) && whole[1] == LP && whole[2] == RP;
    }
  }

  /** Nothing between two parentheses is no expression. */
  lemma EmptyConditionFails(rest: seq<Token>)
    ensures ParseExpression([LP, RP] + rest) == None
  {
    FeedCat([LP, RP], rest, Done);
    FeedTwo(LP, RP, Feed(rest, Done));
    assert !Starts(Feed([LP, RP] + rest, Done));
  }

  /** For every list of conditions: the clause parses if and only if every one of them is readable. */
  lemma WhereParses(es: seq<Expr>, scan: Scan, ps: seq<Expr>)
    requires es != []
    ensures ParseExpression(ConditionsText(es, true, scan, ps))
         == if AllReadable(es, scan) then Some(ReadWhere(es, scan, ps)) else None
  {
    if AllReadable(es, scan) {
      ReadableWhere(es, scan, ps);
    } else if Printable(es[0]) {
      UnreadableCondition(es, true, scan, ps);
      SpoiltFails(ConditionsText(es, true, scan, ps));
    } else {
      var rest := ConditionsText(es[1..], false, scan, ps);
      EmptyConditionFails(rest);
      assert ConditionsText(es, true, scan, ps) == [LP, RP] + rest;
    }
  }

  // ----- clauses that the walker accepted

  predicate AllForeign(es: seq<Expr>, g: Glob) {
    es == [] || (IsForeignExpr(es[0], g, false) && AllForeign(es[1..], g))
  }

  lemma {:induction false} ForeignAgrees(es: seq<Expr>, g: Glob, scan: Scan)
    requires AllForeign(es, g) && g.relids == scan.relids
    ensures AllReadable(es, scan) <==> AllNoGap(es, scan)
    decreases |es|
  {
    if es != [] {
      WalkerDeparserAgree(es[0], g, None, scan);
      ForeignAgrees(es[1..], g, scan);
    }
  }

  /** For every list of accepted conditions: the clause parses if and only if none of them has a gap. */
  lemma AcceptedWhereParses(es: seq<Expr>, g: Glob, scan: Scan, ps: seq<Expr>)
    requires es != [] && AllForeign(es, g) && g.relids == scan.relids
    ensures ParseExpression(ConditionsText(es, true, scan, ps))
         == if AllNoGap(es, scan) then Some(ReadWhere(es, scan, ps)) else None
  {
    ForeignAgrees(es, g, scan);
    WhereParses(es, scan, ps);
  }

  // ----- meaning

  lemma {:induction false} ConditionsAreList(es: seq<Expr>, scan: Scan, ps: seq<Expr>)
    requires AllPrintable(es)
    ensures ParamsOfConditions(es, scan, ps) == ParamsOfList(es, scan, ps)
  {
    if es != [] {
      ConditionsAreList(es[1..], scan, Params(es[0], scan, ps));
    }
  }

  /** DB2's value of the clause, printed after whatever earlier parts of the statement, is PostgreSQL's value of the
      conjunction, in all three truth values. */
  lemma ConditionsMean(es: seq<Expr>, earlier: seq<Expr>, w: Setting)
    requires es != [] && CoversAll(w, es) && ParamsOfConditions(es, w.scan, earlier) <= w.ps
    ensures ParseExpression(ConditionsText(es, true, w.scan, w.ps)) == Some(ReadWhere(es, w.scan, w.ps))
    ensures EvalSql(ReadWhere(es, w.scan, w.ps), w.remote, w.db) == AndAll(EvalPgs(es, w.env, w.pg))
  {
    WhereParses(es, w.scan, w.ps);
    ReadableIsPrintable(es, w.scan);
    ConditionsAreList(es, w.scan, earlier);
    ListMeans(es, earlier, w);
    AllMeant(es, w.scan, w.ps);
    WhereValue(es, w);
  }

  lemma WhereValue(es: seq<Expr>, w: Setting)
    requires es != [] && EvalSqls(ReadAll(es, w.scan, w.ps), w.remote, w.db) == EvalPgs(es, w.env, w.pg)
    ensures EvalSql(ReadWhere(es, w.scan, w.ps), w.remote, w.db) == AndAll(EvalPgs(es, w.env, w.pg))
  {
    var trees := ReadAll(es, w.scan, w.ps);
    if |es| == 1 {
      assert es[1..] == [];
      assert trees == [Read(es[0], w.scan, w.ps)];
      OneArg(Read(es[0], w.scan, w.ps), w);
    }
  }

  lemma {:induction false} ForeignIsCovered(es: seq<Expr>, g: Glob)
    requires AllForeign(es, g)
    ensures Covered(AllPrims(es), ColumnsOfAll(es, g))
    decreases |es|
  {
    if es != [] {
      AcceptedIsCovered(es[0], g, false);
      ForeignIsCovered(es[1..], g);
    }
  }

  /** For accepted conditions without a gap, intact and with a counterpart for every part: if the servers agree on the
      operations in them, under the collations of foreign columns, DB2's value of the clause is that of the conjunction. */
  lemma WhereMeans(es: seq<Expr>, earlier: seq<Expr>, g: Glob, w: Setting)
    requires es != [] && AllForeign(es, g) && g.relids == w.scan.relids
    requires AllNoGap(es, w.scan) && AllIntact(es) && AllFaithful(es, w.scan)
    requires w.Sound() && AgreeUnder(AllPrims(es), ColumnsOfAll(es, g), w.pg, w.db, w.remote.now)
    requires ParamsOfConditions(es, w.scan, earlier) <= w.ps
    ensures var parsed := ParseExpression(ConditionsText(es, true, w.scan, w.ps));
      parsed.Some? && EvalSql(parsed.value, w.remote, w.db) == AndAll(EvalPgs(es, w.env, w.pg))
  {
    ForeignAgrees(es, g, w.scan);
    ForeignIsCovered(es, g);
    ConditionsMean(es, earlier, w);
  }

  /** The same for one accepted expression: a target or a grouping expression, an aggregate, a sort key. */
  lemma AcceptedMeans(e: Expr, earlier: seq<Expr>, g: Glob, w: Setting)
    requires IsForeignExpr(e, g, false) && g.relids == w.scan.relids
    requires NoGap(e, w.scan) && Intact(e) && Faithful(e, w.scan)
    requires w.Sound() && AgreeUnder(Prims(e), Columns(e, g), w.pg, w.db, w.remote.now)
    requires Params(e, w.scan, earlier) <= w.ps
    ensures var parsed := ParseExpression(Text(e, w.scan, Params(e, w.scan, earlier)));
      parsed.Some? && EvalSql(parsed.value, w.remote, w.db) == EvalPg(e, w.env, w.pg)
  {
    WalkerDeparserAgree(e, g, None, w.scan);
    AcceptedIsCovered(e, g, false);
    ShippedTextMeans(e, earlier, w);
  }

  // ----- a gap in a WHERE clause

  /** A boolean constant passes the walker, prints nothing, and makes a WHERE clause that DB2 cannot
      parse. */
  lemma BooleanConstantBreaksWhere(g: Glob, scan: Scan, ps: seq<Expr>)
    ensures var truth := Const(PgType.Bool, INVALID_OID, Unrendered);
      && IsForeignExpr(truth, g, false)
      && ConditionsText([truth], true, scan, ps) == [LP, RP]
      && ParseExpression([LP, RP]) == None
  {
    var truth := Const(PgType.Bool, INVALID_OID, Unrendered);
    assert !Printable(truth);
    EmptyConditionFails([]);
    assert [LP, RP] + [] == [LP, RP];
    assert ConditionsText([truth], true, scan, ps) == [LP, RP];
  }
}
