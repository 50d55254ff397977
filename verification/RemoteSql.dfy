/** The DB2 side of expression shipping: the tokens of a remote expression, its syntax tree, and a
    recursive-descent parser with SQL's usual precedences (OR, AND, NOT, predicates, + and -, *,
    unary sign, primaries). */
module RemoteSql {
  import opened Nodes

  datatype SqlOp = OpGt | OpLt | OpGe | OpLe | OpEq | OpNe | OpAdd | OpSub | OpMul

  predicate IsComparison(o: SqlOp) {
    !o.OpAdd? && !o.OpSub? && !o.OpMul?
  }

  datatype SqlFn = F(fn: PlainFn) | LengthB | InStr | BitAndFn | TranslateFn

  datatype SqlType = DateType | TimeType | TimestampType

  datatype Keyword =
    | AND | OR | NOT | LIKE | ESCAPE | IN | IS | NULL | DISTINCT | FROM
    | CASE | WHEN | THEN | ELSE | END | CAST | AS | EXTRACT | WHERE

  datatype TimeUnit = YEAR | MONTH | DAY | HOUR | MINUTE | SECOND | MICROSECOND

  /** `Marker(n)` is a `?` printed for the n-th parameter, `Named(n)` is `:pn`, `NowMarker` is the
      `?` that carries the transaction timestamp. `Dur` is a number and its unit, as in `2 DAYS`.
      `Comment` is two adjacent minus signs, `RowText` the text of a whole row. */
  datatype Token =
    | LP | RP | Comma
    | Op(op: SqlOp)
    | Kw(k: Keyword)
    | Ident(rel: Option<nat>, name: string)
    | Fn(fn: SqlFn)
    | AggFn(agg: AggName)
    | Num(r: real)
    | Str(s: string)
    | Ty(t: SqlType)
    | Field(s: string)
    | Marker(n: nat)
    | Named(n: nat)
    | NowMarker
    | Dur(count: int, unit: TimeUnit)
    | Comment
    | RowText(varno: nat)

  datatype SqlWhen = SqlWhen(cond: Sql, result: Sql)

  /** Expressions. The parser yields no `SpecialLit` (a number such as `NaN`), no `NoForm` (something that DB2 has no form
      for), and no aggregate with a filter: what was meant can be written with them, what is read cannot. */
  datatype Sql =
    | Column(rel: Option<nat>, name: string)
    | NumLit(value: real)
    | StrLit(s: string)
    | NullLit
    | SpecialLit(name: string)
    | NoForm
    | MarkerRef(n: nat)
    | NamedRef(n: nat)
    | NowRef
    | Duration(count: int, unit: TimeUnit)
    | CastTo(e: Sql, t: SqlType)
    | Call(fn: SqlFn, args: seq<Sql>)
    | ExtractField(field: string, e: Sql)
    | Signed(op: SqlOp, e: Sql)
    | Infix(op: SqlOp, l: Sql, r: Sql)
    | LikePred(negated: bool, l: Sql, r: Sql)
    | InPred(negated: bool, l: Sql, items: seq<Sql>)
    | IsNullPred(negated: bool, e: Sql)
    | DistinctPred(negated: bool, l: Sql, r: Sql)
    | NotCond(e: Sql)
    | AndCond(es: seq<Sql>)
    | OrCond(es: seq<Sql>)
    | Case(whens: seq<SqlWhen>, els: Option<Sql>)
    | SimpleCase(arg: Sql, whens: seq<SqlWhen>, els: Option<Sql>)
    | Aggregate(agg: AggName, distinct: bool, star: bool, args: seq<Sql>, filter: Option<Sql>)

  // ----- parsing: a successful parse is a tree and the tokens after it

  datatype Stream = Done | Cons(head: Token, tail: Stream)

  type Parsed<T> = Option<(T, Stream)>

  function Size(ts: Stream): nat {
    if ts.Done? then 0 else 1 + Size(ts.tail)
  }

  /** A token no expression contains. */
  predicate Foreign(t: Token) {
    t.Comment? || t.RowText?
  }

  /** Neighbours that no expression contains: an operand or an item is missing between them, or an
      operator is missing between two durations. */
  predicate BadPair(a: Token, b: Token) {
    || (a.LP? && (b.Comma? || (b.Kw? && b.k.IS?)))
    || (a.Comma? && (b.Comma? || b.RP?))
    || (a.Dur? && b.Dur?)
    || (a.Kw? && a.k.CASE? && b.Kw? && (b.k.END? || b.k.ELSE?))
    || (a.Kw? && a.k.DISTINCT? && b.RP?)
  }

  /** Only a function may have nothing between its parentheses. */
  predicate NeedsItems(t: Token) {
    t.AggFn? || (t.Kw? && (t.k.IN? || t.k.AND?))
  }

  predicate EmptyParens(ts: Stream) {
    ts.Cons? && ts.head.LP? && ts.tail.Cons? && ts.tail.head.RP?
  }

  /** After CASE: `(null)` and no WHEN. */
  predicate NoBranches(ts: Stream) {
    && ts.Cons? && ts.head.LP?
    && ts.tail.Cons? && ts.tail.head == Kw(NULL)
    && ts.tail.tail.Cons? && ts.tail.tail.head.RP?
    && ts.tail.tail.tail.Cons? && (var t := ts.tail.tail.tail.head; t.Kw? && (t.k.END? || t.k.ELSE?))
  }

  /** Something is wrong with a token or with what follows it. */
  predicate BadHead(t: Token, k: Stream) {
    Foreign(t) || (k.Cons? && BadPair(t, k.head)) || (NeedsItems(t) && EmptyParens(k)) || (t == Kw(CASE) && NoBranches(k))
  }

  /** Tokens that nothing can be wrong with. */
  predicate Harmless(t: Token) {
    !Foreign(t) && !NeedsItems(t) && !t.LP? && !t.Comma? && !t.Dur? && (t.Kw? ==> !t.k.CASE? && !t.k.DISTINCT?)
  }

  function BadCount(ts: Stream): nat {
    if ts.Done? then 0 else (if BadHead(ts.head, ts.tail) then 1 else 0) + BadCount(ts.tail)
  }

  predicate Is(ts: Stream, t: Token) {
    ts.Cons? && ts.head == t
  }

  /** What an expression may start with. */
  predicate Starts(ts: Stream) {
    && ts.Cons? && !ts.head.RP? && !ts.head.Comma?
    && (ts.head.Kw? ==> !ts.head.k.IS? && !ts.head.k.END? && !ts.head.k.ELSE?)
    && !EmptyParens(ts)
  }

  /** What every parsing function promises: it takes tokens away, and no bad neighbours. (It may stop in
      front of a duration, which nothing can follow up.) */
  ghost predicate Takes<T>(ts: Stream, r: Parsed<T>) {
    r.Some? ==>
      && Size(r.value.1) <= Size(ts)
      && ((r.value.1.Cons? && r.value.1.head.Dur?) || BadCount(r.value.1) == BadCount(ts))
  }

  /** It takes an expression. */
  ghost predicate Consumes<T>(ts: Stream, r: Parsed<T>) {
    Takes(ts, r) && (r.Some? ==> Size(r.value.1) < Size(ts) && Starts(ts))
  }

  /** The tokens after the one expected. */
  function Expect(ts: Stream, t: Token): (r: Option<Stream>)
    ensures r.Some? ==> Size(r.value) < Size(ts) && ts == Cons(t, r.value)
    ensures r.Some? && Harmless(t) ==> BadCount(r.value) == BadCount(ts)
    ensures r.Some? && t == LP && Starts(r.value) ==> BadCount(r.value) == BadCount(ts)
  {
    if Is(ts, t) then Some(ts.tail) else None
  }

  function ParseOr(ts: Stream): (r: Parsed<Sql>)
    ensures Consumes(ts, r)
    decreases Size(ts), 9
  {
    var (e, k) :- ParseAnd(ts);
    var (es, m) :- ParseOrTail(k);
    Some((if es == [] then e else OrCond([e] + es), m))
  }

  function ParseOrTail(ts: Stream): (r: Parsed<seq<Sql>>)
    ensures Takes(ts, r)
    decreases Size(ts), 9
  {
    if !Is(ts, Kw(OR)) then Some(([], ts))
    else
      var (e, k) :- ParseAnd(ts.tail);
      var (es, m) :- ParseOrTail(k);
      Some(([e] + es, m))
  }

  function ParseAnd(ts: Stream): (r: Parsed<Sql>)
    ensures Consumes(ts, r)
    decreases Size(ts), 8
  {
    var (e, k) :- ParseNot(ts);
    var (es, m) :- ParseAndTail(k);
    Some((if es == [] then e else AndCond([e] + es), m))
  }

  function ParseAndTail(ts: Stream): (r: Parsed<seq<Sql>>)
    ensures Takes(ts, r)
    decreases Size(ts), 8
  {
    if !Is(ts, Kw(AND)) then Some(([], ts))
    else
      var (e, k) :- ParseNot(ts.tail);
      var (es, m) :- ParseAndTail(k);
      Some(([e] + es, m))
  }

  function ParseNot(ts: Stream): (r: Parsed<Sql>)
    ensures Consumes(ts, r)
    decreases Size(ts), 7
  {
    if Is(ts, Kw(NOT)) then
      var (e, k) :- ParseNot(ts.tail);
      Some((NotCond(e), k))
    else
      ParsePredicate(ts)
  }

  function ParsePredicate(ts: Stream): (r: Parsed<Sql>)
    ensures Consumes(ts, r)
    decreases Size(ts), 5
  {
    var (l, k) :- ParseSum(ts);
    if k.Done? then
      Some((l, k))
    else if k.head.Op? && IsComparison(k.head.op) then
      var (r, m) :- ParseSum(k.tail);
      Some((Infix(k.head.op, l, r), m))
    else if Is(k, Kw(NOT)) then
      if Is(k.tail, Kw(LIKE)) || Is(k.tail, Kw(IN)) then ParseLikeOrIn(true, l, k.tail) else Some((l, k))
    else if Is(k, Kw(IS)) then
      ParseIs(l, k.tail)
    else
      ParseLikeOrIn(false, l, k)
  }

  /** The rest of a LIKE or IN predicate, or nothing more. */
  function ParseLikeOrIn(negated: bool, l: Sql, ts: Stream): (r: Parsed<Sql>)
    ensures Takes(ts, r)
    decreases Size(ts), 4
  {
    if Is(ts, Kw(LIKE)) then ParseLike(negated, l, ts.tail)
    else if Is(ts, Kw(IN)) then ParseIn(negated, l, ts.tail)
    else Some((l, ts))
  }

  /** After LIKE. */
  function ParseLike(negated: bool, l: Sql, ts: Stream): (r: Parsed<Sql>)
    ensures Takes(ts, r)
    decreases Size(ts), 5
  {
    var (p, k) :- ParseSum(ts);
    var m :- Expect(k, Kw(ESCAPE));
    var n :- Expect(m, Str("\\"));
    Some((LikePred(negated, l, p), n))
  }

  /** After IN. */
  function ParseIn(negated: bool, l: Sql, ts: Stream): (r: Parsed<Sql>)
    ensures Takes(ts, r)
    ensures r.Some? ==> !EmptyParens(ts)
    decreases Size(ts), 5
  {
    var k :- Expect(ts, LP);
    var (items, m) :- ParseItems(k);
    var n :- Expect(m, RP);
    Some((InPred(negated, l, items), n))
  }

  /** After IS. */
  function ParseIs(l: Sql, ts: Stream): (r: Parsed<Sql>)
    ensures Takes(ts, r)
    decreases Size(ts), 5
  {
    if Is(ts, Kw(NOT)) then ParseNullOrDistinct(true, l, ts.tail) else ParseNullOrDistinct(false, l, ts)
  }

  function ParseNullOrDistinct(negated: bool, l: Sql, ts: Stream): (r: Parsed<Sql>)
    ensures Takes(ts, r)
    decreases Size(ts), 4
  {
    if Is(ts, Kw(NULL)) then
      Some((IsNullPred(negated, l), ts.tail))
    else
      var k :- Expect(ts, Kw(DISTINCT));
      var m :- Expect(k, Kw(FROM));
      var (e, n) :- ParseSum(m);
      Some((DistinctPred(negated, l, e), n))
  }

  predicate IsSign(o: SqlOp) {
    o.OpAdd? || o.OpSub?
  }

  function ParseSum(ts: Stream): (r: Parsed<Sql>)
    ensures Consumes(ts, r)
    decreases Size(ts), 4
  {
    var (l, k) :- ParseProduct(ts);
    ParseSumTail(l, k)
  }

  function ParseSumTail(l: Sql, ts: Stream): (r: Parsed<Sql>)
    ensures Takes(ts, r)
    decreases Size(ts), 3
  {
    if ts.Cons? && ts.head.Op? && IsSign(ts.head.op) then
      var (r, k) :- ParseProduct(ts.tail);
      ParseSumTail(Infix(ts.head.op, l, r), k)
    else
      Some((l, ts))
  }

  function ParseProduct(ts: Stream): (r: Parsed<Sql>)
    ensures Consumes(ts, r)
    decreases Size(ts), 3
  {
    var (l, k) :- ParseSign(ts);
    ParseProductTail(l, k)
  }

  function ParseProductTail(l: Sql, ts: Stream): (r: Parsed<Sql>)
    ensures Takes(ts, r)
    decreases Size(ts), 2
  {
    if Is(ts, Op(OpMul)) then
      var (r, k) :- ParseSign(ts.tail);
      ParseProductTail(Infix(OpMul, l, r), k)
    else
      Some((l, ts))
  }

  function ParseSign(ts: Stream): (r: Parsed<Sql>)
    ensures Consumes(ts, r)
    decreases Size(ts), 2
  {
    if ts.Cons? && ts.head.Op? && IsSign(ts.head.op) then
      var (e, k) :- ParseSign(ts.tail);
      Some((Signed(ts.head.op, e), k))
    else
      ParsePrimary(ts)
  }

  function ParsePrimary(ts: Stream): (r: Parsed<Sql>)
    ensures Consumes(ts, r)
    decreases Size(ts), 1
  {
    if ts.Done? then None
    else if ts.head.LP? then ParseParens(ts)
    else if ts.head.Fn? then ParseCall(ts.head.fn, ts.tail)
    else if ts.head.AggFn? then ParseAggregate(ts.head.agg, ts.tail)
    else if ts.head.Kw? then ParseKeyword(ts.head.k, ts.tail)
    else
      var e :- Atom(ts.head);
      Some((e, ts.tail))
  }

  function ParseParens(ts: Stream): (r: Parsed<Sql>)
    ensures Consumes(ts, r)
    decreases Size(ts), 0
  {
    var k :- Expect(ts, LP);
    var (e, m) :- ParseOr(k);
    var n :- Expect(m, RP);
    Some((e, n))
  }

  /** An operand of one token. */
  function Atom(t: Token): (r: Option<Sql>)
    ensures r.Some? ==> !Foreign(t) && !t.LP? && !t.RP? && !t.Comma? && !t.Kw? && !t.AggFn?
  {
    match t
    case Num(r) => Some(NumLit(r))
    case Str(s) => Some(StrLit(s))
    case Ident(rel, name) => Some(Column(rel, name))
    case Marker(n) => Some(MarkerRef(n))
    case Named(n) => Some(NamedRef(n))
    case NowMarker => Some(NowRef)
    case Dur(n, u) => Some(Duration(n, u))
    case _ => None
  }

  /** After a keyword that opens an operand. */
  function ParseKeyword(w: Keyword, ts: Stream): (r: Parsed<Sql>)
    ensures Takes(ts, r)
    ensures r.Some? ==> w == NULL || w == CAST || w == EXTRACT || (w == CASE && !Is(ts, Kw(END)) && !Is(ts, Kw(ELSE)) && !NoBranches(ts))
    decreases Size(ts), 13
  {
    if w == NULL then Some((NullLit, ts))
    else if w == CAST then ParseCast(ts)
    else if w == EXTRACT then ParseExtract(ts)
    else if w == CASE then ParseCase(ts)
    else None
  }

  /** After a function name. */
  function ParseCall(f: SqlFn, ts: Stream): (r: Parsed<Sql>)
    ensures Takes(ts, r)
    decreases Size(ts), 12
  {
    var k :- Expect(ts, LP);
    if Is(k, RP) then Some((Call(f, []), k.tail))
    else
      var (args, m) :- ParseItems(k);
      var n :- Expect(m, RP);
      Some((Call(f, args), n))
  }

  function ParseAggregate(a: AggName, ts: Stream): (r: Parsed<Sql>)
    ensures Takes(ts, r)
    ensures r.Some? ==> !EmptyParens(ts)
    decreases Size(ts), 12
  {
    var k :- Expect(ts, LP);
    if Is(k, Kw(DISTINCT)) then ParseAggArgs(a, true, k.tail) else ParseAggArgs(a, false, k)
  }

  function ParseAggArgs(a: AggName, distinct: bool, ts: Stream): (r: Parsed<Sql>)
    ensures Takes(ts, r)
    ensures r.Some? ==> Starts(ts)
    decreases Size(ts), 11
  {
    if Is(ts, Op(OpMul)) then
      var k :- Expect(ts.tail, RP);
      Some((Aggregate(a, distinct, true, [], None), k))
    else
      var (args, k) :- ParseItems(ts);
      var m :- Expect(k, RP);
      Some((Aggregate(a, distinct, false, args, None), m))
  }

  /** After CAST. */
  function ParseCast(ts: Stream): (r: Parsed<Sql>)
    ensures Takes(ts, r)
    decreases Size(ts), 12
  {
    var k :- Expect(ts, LP);
    var (e, m) :- ParseOr(k);
    var n :- Expect(m, Kw(AS));
    if n.Cons? && n.head.Ty? then
      var o :- Expect(n.tail, RP);
      Some((CastTo(e, n.head.t), o))
    else
      None
  }

  /** After EXTRACT. */
  function ParseExtract(ts: Stream): (r: Parsed<Sql>)
    ensures Takes(ts, r)
    decreases Size(ts), 12
  {
    var k :- Expect(ts, LP);
    if k.Cons? && k.head.Field? then
      var m :- Expect(k.tail, Kw(FROM));
      var (e, n) :- ParseOr(m);
      var o :- Expect(n, RP);
      Some((ExtractField(k.head.s, e), o))
    else
      None
  }

  /** After CASE: with conditions, or with an operand that the values after WHEN are compared with. */
  function ParseCase(ts: Stream): (r: Parsed<Sql>)
    ensures Takes(ts, r)
    ensures r.Some? ==> !Is(ts, Kw(END)) && !Is(ts, Kw(ELSE)) && !NoBranches(ts)
    decreases Size(ts), 12
  {
    if Is(ts, Kw(WHEN)) then
      var (whens, els, k) :- ParseBranches(ts);
      Some((Case(whens, els), k))
    else if NoBranches(ts) then None // as the test for WHEN below would find
    else
      var (arg, m) :- ParseOr(ts);
      if !Is(m, Kw(WHEN)) then None
      else
        var (whens, els, k) :- ParseBranches(m);
        Some((SimpleCase(arg, whens, els), k))
  }

  /** WHEN clauses up to END. */
  function ParseBranches(ts: Stream): (r: Option<(seq<SqlWhen>, Option<Sql>, Stream)>)
    ensures r.Some? ==> Size(r.value.2) < Size(ts)
    ensures r.Some? ==> Takes(ts, Some(((), r.value.2)))
    decreases Size(ts), 11
  {
    var (whens, k) :- ParseWhens(ts);
    if Is(k, Kw(ELSE)) then
      var (e, m) :- ParseOr(k.tail);
      var n :- Expect(m, Kw(END));
      Some((whens, Some(e), n))
    else
      var m :- Expect(k, Kw(END));
      Some((whens, None, m))
  }

  function ParseWhens(ts: Stream): (r: Parsed<seq<SqlWhen>>)
    ensures Takes(ts, r)
    decreases Size(ts), 10
  {
    if !Is(ts, Kw(WHEN)) then Some(([], ts))
    else
      var (c, k) :- ParseOr(ts.tail);
      if !Is(k, Kw(THEN)) then None
      else
        var (e, m) :- ParseOr(k.tail);
        var (ws, n) :- ParseWhens(m);
        Some(([SqlWhen(c, e)] + ws, n))
  }

  /** A non-empty list of expressions separated by commas. */
  function ParseItems(ts: Stream): (r: Parsed<seq<Sql>>)
    ensures Consumes(ts, r)
    decreases Size(ts), 10
  {
    var (e, k) :- ParseOr(ts);
    var (es, m) :- ParseItemsTail(k);
    Some(([e] + es, m))
  }

  function ParseItemsTail(ts: Stream): (r: Parsed<seq<Sql>>)
    ensures Takes(ts, r)
    decreases Size(ts), 10
  {
    if !Is(ts, Comma) then Some(([], ts))
    else
      var (e, k) :- ParseOr(ts.tail);
      var (es, m) :- ParseItemsTail(k);
      Some(([e] + es, m))
  }

  /** The tokens of a text followed by more tokens. */
  function Feed(text: seq<Token>, k: Stream): Stream {
    if text == [] then k else Cons(text[0], Feed(text[1..], k))
  }

  /** A whole text is an expression when a parse consumes all of it. */
  function ParseExpression(text: seq<Token>): Option<Sql> {
    var (e, k) :- ParseOr(Feed(text, Done));
    if k == Done then Some(e) else None
  }

  /** The same for a text: a token or neighbours that no expression contains. */
  predicate Spoilt(text: seq<Token>) {
    text != [] && (SpoiltHere(text) || Spoilt(text[1..]))
  }

  predicate SpoiltHere(text: seq<Token>)
    requires text != []
  {
    || Foreign(text[0])
    || (|text| > 1 && BadPair(text[0], text[1]))
    || (|text| > 2 && NeedsItems(text[0]) && text[1] == LP && text[2] == RP)
    || (|text| > 4 && text[..4] == [Kw(CASE), LP, Kw(NULL), RP] && (text[4] == Kw(END) || text[4] == Kw(ELSE)))
  }

  /** The first five tokens of a text. */
  lemma {:induction false} FeedHeads(text: seq<Token>, k: Stream)
    requires text != []
    ensures var ts := Feed(text, k);
      && ts.Cons? && ts.head == text[0]
      && (|text| > 1 ==> ts.tail.Cons? && ts.tail.head == text[1])
      && (|text| > 2 ==> ts.tail.tail.Cons? && ts.tail.tail.head == text[2])
      && (|text| > 3 ==> ts.tail.tail.tail.Cons? && ts.tail.tail.tail.head == text[3])
      && (|text| > 4 ==> ts.tail.tail.tail.tail.Cons? && ts.tail.tail.tail.tail.head == text[4])
  {
    if |text| > 1 {
      FeedHeads(text[1..], k);
    }
  }

  lemma {:induction false} SpoiltCounts(text: seq<Token>, k: Stream)
    requires Spoilt(text)
    ensures BadCount(Feed(text, k)) > 0
  {
    if SpoiltHere(text) {
      FeedHeads(text, k);
    } else {
      SpoiltCounts(text[1..], k);
    }
  }

  /** A spoilt text does not parse. */
  lemma SpoiltFails(text: seq<Token>)
    requires Spoilt(text)
    ensures ParseExpression(text) == None
  {
    SpoiltCounts(text, Done);
  }
}
