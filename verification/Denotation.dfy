/** When a text denotes a remote expression: parsing it as an operand yields that expression and stops
    right after the text, whatever follows. One lemma for each shape the deparser prints. */
module Denotation {
  import opened Nodes
  import opened RemoteSql
  import opened Deparse
  import opened Fragment
  import opened Intervals
  import opened Grouping
  import opened Sequences

  // ----- feeding texts

  lemma {:induction false} FeedCat(a: seq<Token>, b: seq<Token>, k: Stream)
    ensures Feed(a + b, k) == Feed(a, Feed(b, k))
  {
    if a == [] {
      assert a + b == b;
    } else {
      assert (a + b)[1..] == a[1..] + b;
      FeedCat(a[1..], b, k);
    }
  }

  lemma FeedOne(a: Token, k: Stream)
    ensures Feed([a], k) == Cons(a, k)
  {
  }

  lemma FeedTwo(a: Token, b: Token, k: Stream)
    ensures Feed([a, b], k) == Cons(a, Cons(b, k))
  {
    assert [a, b][1..] == [b];
    FeedOne(b, k);
  }

  lemma FeedThree(a: Token, b: Token, c: Token, k: Stream)
    ensures Feed([a, b, c], k) == Cons(a, Cons(b, Cons(c, k)))
  {
    assert [a, b, c][1..] == [b, c];
    FeedTwo(b, c, k);
  }

  lemma FeedFour(a: Token, b: Token, c: Token, d: Token, k: Stream)
    ensures Feed([a, b, c, d], k) == Cons(a, Cons(b, Cons(c, Cons(d, k))))
  {
    assert [a, b, c, d][1..] == [b, c, d];
    FeedThree(b, c, d, k);
  }

  lemma FeedSix(a: Token, b: Token, c: Token, d: Token, e: Token, f: Token, k: Stream)
    ensures Feed([a, b, c, d, e, f], k) == Cons(a, Cons(b, Cons(c, Cons(d, Cons(e, Cons(f, k))))))
  {
    assert [a, b, c, d, e, f] == [a, b] + [c, d, e, f];
    FeedCat([a, b], [c, d, e, f], k);
    FeedFour(c, d, e, f, k);
    FeedTwo(a, b, Feed([c, d, e, f], k));
  }

  /** One text between two pieces, and two texts between three. */
  lemma FeedAround(x: seq<Token>, l: seq<Token>, y: seq<Token>, k: Stream)
    ensures Feed(x + l + y, k) == Feed(x, Feed(l, Feed(y, k)))
  {
    FeedCat(x + l, y, k);
    FeedCat(x, l, Feed(y, k));
  }

  lemma FeedBetween(x: seq<Token>, l: seq<Token>, y: seq<Token>, r: seq<Token>, z: seq<Token>, k: Stream)
    ensures Feed(x + l + y + r + z, k) == Feed(x, Feed(l, Feed(y, Feed(r, Feed(z, k)))))
  {
    FeedCat(x + l + y + r, z, k);
    FeedCat(x + l + y, r, Feed(z, k));
    FeedAround(x, l, y, Feed(r, Feed(z, k)));
  }

  // ----- from operands to whole expressions

  /** What follows cannot continue a sum. */
  ghost predicate EndsSum(k: Stream) {
    k.Cons? ==> !k.head.Op? || IsComparison(k.head.op)
  }

  /** What follows cannot continue a predicate. */
  ghost predicate EndsPredicate(k: Stream) {
    k.Cons? ==> !k.head.Op? && k.head != Kw(LIKE) && k.head != Kw(NOT) && k.head != Kw(IN) && k.head != Kw(IS)
  }

  /** What follows cannot continue an expression. */
  ghost predicate Ends(k: Stream) {
    EndsPredicate(k) && !Is(k, Kw(AND)) && !Is(k, Kw(OR))
  }

  lemma SignToSum(ts: Stream, t: Sql, k: Stream)
    requires ParseSign(ts) == Some((t, k)) && EndsSum(k)
    ensures ParseProduct(ts) == ParseSum(ts) == Some((t, k))
  {
  }

  /** A keyword in front of an operand. */
  lemma KeywordStep(w: Keyword, k: Stream)
    ensures ParseSign(Cons(Kw(w), k)) == ParseKeyword(w, k)
  {
    assert ParsePrimary(Cons(Kw(w), k)) == ParseKeyword(w, k);
  }

  lemma NullStarts(k: Stream)
    ensures ParseSign(Cons(Kw(NULL), k)) == Some((NullLit, k))
  {
    KeywordStep(NULL, k);
  }

  lemma SumStarts(ts: Stream)
    requires ParseSum(ts).Some?
    ensures !Is(ts, Kw(NOT)) && !Is(ts, RP)
  {
    assert ParseProduct(ts).Some? && ParseSign(ts).Some?;
    if Is(ts, Kw(NOT)) {
      KeywordStep(NOT, ts.tail);
    }
  }

  lemma SumToNot(ts: Stream, t: Sql, k: Stream)
    requires ParseSum(ts) == Some((t, k)) && EndsPredicate(k)
    ensures ParsePredicate(ts) == ParseNot(ts) == Some((t, k))
  {
    SumStarts(ts);
  }

  lemma SumToAnd(ts: Stream, t: Sql, k: Stream)
    requires ParseSum(ts) == Some((t, k)) && EndsPredicate(k) && !Is(k, Kw(AND))
    ensures ParseAnd(ts) == Some((t, k))
  {
    SumToNot(ts, t, k);
  }

  lemma SumToOr(ts: Stream, t: Sql, k: Stream)
    requires ParseSum(ts) == Some((t, k)) && Ends(k)
    ensures ParseOr(ts) == Some((t, k))
  {
    SumToAnd(ts, t, k);
  }

  lemma PredicateToOr(ts: Stream, t: Sql, k: Stream)
    requires ParsePredicate(ts) == Some((t, Cons(RP, k))) && !Is(ts, Kw(NOT))
    ensures ParseOr(ts) == Some((t, Cons(RP, k)))
  {
    assert ParseNot(ts) == Some((t, Cons(RP, k)));
    assert ParseAnd(ts) == Some((t, Cons(RP, k)));
  }

  /** A parenthesised expression is an operand. */
  lemma Parenthesised(ts: Stream, t: Sql, k: Stream)
    requires ParseOr(ts) == Some((t, Cons(RP, k)))
    ensures ParseSign(Cons(LP, ts)) == Some((t, k))
  {
    assert ParseParens(Cons(LP, ts)) == Some((t, k));
  }

  /** A predicate in parentheses is an operand. */
  lemma PredicateParens(ts: Stream, t: Sql, k: Stream)
    requires ParsePredicate(ts) == Some((t, Cons(RP, k))) && !Is(ts, Kw(NOT))
    ensures ParseSign(Cons(LP, ts)) == Some((t, k))
  {
    PredicateToOr(ts, t, k);
    Parenthesised(ts, t, k);
  }

  lemma ComparisonStep(ts: Stream, op: SqlOp, l: Sql, m: Stream, r: Sql, k: Stream)
    requires IsComparison(op) && ParseSum(ts) == Some((l, Cons(Op(op), m))) && ParseSum(m) == Some((r, k))
    ensures ParsePredicate(ts) == Some((Infix(op, l, r), k))
  {
  }

  lemma SumAlone(ts: Stream, t: Sql, k: Stream)
    requires ParseSum(ts) == Some((t, Cons(RP, k)))
    ensures ParseSign(Cons(LP, ts)) == Some((t, k))
  {
    SumToOr(ts, t, Cons(RP, k));
    Parenthesised(ts, t, k);
  }

  lemma ComparisonBody(ts: Stream, op: SqlOp, l: Sql, m: Stream, r: Sql, k: Stream)
    requires IsComparison(op) && ParseSum(ts) == Some((l, Cons(Op(op), m))) && ParseSum(m) == Some((r, Cons(RP, k)))
    ensures ParseSign(Cons(LP, ts)) == Some((Infix(op, l, r), k))
  {
    SumStarts(ts);
    ComparisonStep(ts, op, l, m, r, Cons(RP, k));
    PredicateParens(ts, Infix(op, l, r), k);
  }

  /** The operand and what follows it make a predicate. */
  lemma LikeOrInStep(ts: Stream, negated: bool, l: Sql, m: Stream, t: Sql, k: Stream)
    requires ParseSum(ts) == Some((l, if negated then Cons(Kw(NOT), m) else m))
    requires Is(m, Kw(LIKE)) || Is(m, Kw(IN))
    requires ParseLikeOrIn(negated, l, m) == Some((t, k))
    ensures ParsePredicate(ts) == Some((t, k))
  {
  }

  lemma LikeOrInBody(ts: Stream, negated: bool, l: Sql, m: Stream, t: Sql, k: Stream)
    requires ParseSum(ts) == Some((l, if negated then Cons(Kw(NOT), m) else m))
    requires Is(m, Kw(LIKE)) || Is(m, Kw(IN))
    requires ParseLikeOrIn(negated, l, m) == Some((t, Cons(RP, k)))
    ensures ParseSign(Cons(LP, ts)) == Some((t, k))
  {
    SumStarts(ts);
    LikeOrInStep(ts, negated, l, m, t, Cons(RP, k));
    PredicateParens(ts, t, k);
  }

  lemma LikeStep(negated: bool, l: Sql, m: Stream, r: Sql, k: Stream)
    requires ParseSum(m) == Some((r, Cons(Kw(ESCAPE), Cons(Str("\\"), k))))
    ensures ParseLikeOrIn(negated, l, Cons(Kw(LIKE), m)) == Some((LikePred(negated, l, r), k))
  {
    assert ParseLike(negated, l, m) == Some((LikePred(negated, l, r), k));
  }

  lemma InStep(negated: bool, l: Sql, m: Stream, items: seq<Sql>, k: Stream)
    requires ParseItems(m) == Some((items, Cons(RP, k)))
    ensures ParseLikeOrIn(negated, l, Cons(Kw(IN), Cons(LP, m))) == Some((InPred(negated, l, items), k))
  {
    assert ParseIn(negated, l, Cons(LP, m)) == Some((InPred(negated, l, items), k));
  }

  lemma IsStep(ts: Stream, l: Sql, m: Stream, t: Sql, k: Stream)
    requires ParseSum(ts) == Some((l, Cons(Kw(IS), m))) && ParseIs(l, m) == Some((t, k))
    ensures ParsePredicate(ts) == Some((t, k))
  {
  }

  lemma IsBody(ts: Stream, l: Sql, m: Stream, t: Sql, k: Stream)
    requires ParseSum(ts) == Some((l, Cons(Kw(IS), m))) && ParseIs(l, m) == Some((t, Cons(RP, k)))
    ensures ParseSign(Cons(LP, ts)) == Some((t, k))
  {
    SumStarts(ts);
    IsStep(ts, l, m, t, Cons(RP, k));
    PredicateParens(ts, t, k);
  }

  lemma DistinctStep(negated: bool, l: Sql, m: Stream, r: Sql, k: Stream)
    requires ParseSum(m) == Some((r, k))
    ensures ParseNullOrDistinct(negated, l, Cons(Kw(DISTINCT), Cons(Kw(FROM), m))) == Some((DistinctPred(negated, l, r), k))
  {
  }

  lemma ItemsTailStep(ts: Stream, e: Sql, m: Stream, es: seq<Sql>, k: Stream)
    requires ParseSum(ts) == Some((e, m)) && Ends(m) && ParseItemsTail(m) == Some((es, k))
    ensures ParseItemsTail(Cons(Comma, ts)) == Some(([e] + es, k))
  {
    SumToOr(ts, e, m);
  }

  lemma ItemsStep(ts: Stream, e: Sql, m: Stream, es: seq<Sql>, k: Stream)
    requires ParseSum(ts) == Some((e, m)) && Ends(m) && ParseItemsTail(m) == Some((es, k))
    ensures ParseItems(ts) == Some(([e] + es, k))
  {
    SumToOr(ts, e, m);
  }

  // ----- texts that denote

  /** Whatever follows the text, parsing an operand yields the tree and stops after the text. */
  ghost predicate Denotes(text: seq<Token>, t: Sql) {
    forall k :: ParseSign(Feed(text, k)) == Some((t, k))
  }

  /** The same for parsing a sum, if what follows does not continue it. */
  ghost predicate Sums(text: seq<Token>, t: Sql) {
    forall k | EndsSum(k) :: ParseSum(Feed(text, k)) == Some((t, k))
  }

  lemma DenotesSums(text: seq<Token>, t: Sql)
    requires Denotes(text, t)
    ensures Sums(text, t)
  {
    forall k | EndsSum(k) ensures ParseSum(Feed(text, k)) == Some((t, k)) {
      SignToSum(Feed(text, k), t, k);
    }
  }

  /** An operand, and durations that are added to it. */
  ghost predicate Chains(text: seq<Token>, c: Chain) {
    && AllSigned(c.rest)
    && (forall k :: ParseSign(Feed(text, k)) == Some((c.head, Feed(PieceText(c.rest), k))))
  }

  /** A comma-separated list up to a closing parenthesis. */
  ghost predicate ItemsDenote(text: seq<Token>, items: seq<Sql>) {
    forall k :: ParseItems(Feed(text, Cons(RP, k))) == Some((items, Cons(RP, k)))
  }

  /** The rest of such a list. */
  ghost predicate TailDenotes(text: seq<Token>, items: seq<Sql>) {
    forall k :: ParseItemsTail(Feed(text, Cons(RP, k))) == Some((items, Cons(RP, k)))
  }

  lemma ComparisonDenotes(op: SqlOp, lt: seq<Token>, l: Sql, rt: seq<Token>, r: Sql)
    requires IsComparison(op) && Sums(lt, l) && Sums(rt, r)
    ensures Denotes([LP] + lt + [Op(op)] + rt + [RP], Infix(op, l, r))
  {
    forall k ensures ParseSign(Feed([LP] + lt + [Op(op)] + rt + [RP], k)) == Some((Infix(op, l, r), k)) {
      FeedBetween([LP], lt, [Op(op)], rt, [RP], k);
      FeedOne(RP, k);
      var m := Feed(rt, Cons(RP, k));
      FeedOne(Op(op), m);
      var ts := Feed(lt, Cons(Op(op), m));
      FeedOne(LP, ts);
      ComparisonBody(ts, op, l, m, r, k);
    }
  }

  // ----- sums with durations

  /** The durations are added one after the other. */
  lemma {:induction false} TailFolds(l: Sql, rest: seq<Piece>, k: Stream)
    requires AllSigned(rest) && !Is(k, Op(OpMul))
    ensures ParseSumTail(l, Feed(PieceText(rest), k)) == ParseSumTail(Folded(l, rest), k)
    decreases |rest|
  {
    if rest != [] {
      FeedPiece(rest, k);
      var m := Feed(PieceText(rest[1..]), k);
      var d := Duration(rest[0].count, rest[0].unit);
      NoProduct(rest[1..], k);
      DurationAlone(rest[0].count, rest[0].unit, m);
      TailFolds(Infix(rest[0].sign.value, l, d), rest[1..], k);
    }
  }

  lemma FeedPiece(rest: seq<Piece>, k: Stream)
    requires rest != [] && AllSigned(rest)
    ensures Feed(PieceText(rest), k)
         == Cons(Op(rest[0].sign.value), Cons(Dur(rest[0].count, rest[0].unit), Feed(PieceText(rest[1..]), k)))
  {
    var a, b := Op(rest[0].sign.value), Dur(rest[0].count, rest[0].unit);
    assert PieceText(rest) == [a, b] + PieceText(rest[1..]);
    FeedCat([a, b], PieceText(rest[1..]), k);
    FeedTwo(a, b, Feed(PieceText(rest[1..]), k));
  }

  lemma NoProduct(rest: seq<Piece>, k: Stream)
    requires AllSigned(rest) && !Is(k, Op(OpMul))
    ensures !Is(Feed(PieceText(rest), k), Op(OpMul))
  {
    if rest != [] {
      FeedPiece(rest, k);
    }
  }

  lemma DurationAlone(count: int, unit: TimeUnit, k: Stream)
    ensures ParseSign(Cons(Dur(count, unit), k)) == Some((Duration(count, unit), k))
    ensures !Is(k, Op(OpMul)) ==> ParseProduct(Cons(Dur(count, unit), k)) == Some((Duration(count, unit), k))
  {
  }

  lemma ProductAlone(ts: Stream, t: Sql, k: Stream)
    requires ParseSign(ts) == Some((t, k)) && !Is(k, Op(OpMul))
    ensures ParseProduct(ts) == Some((t, k))
  {
  }

  lemma ChainsSum(text: seq<Token>, c: Chain)
    requires Chains(text, c)
    ensures Sums(text, Folded(c.head, c.rest))
  {
    forall k | EndsSum(k) ensures ParseSum(Feed(text, k)) == Some((Folded(c.head, c.rest), k)) {
      var m := Feed(PieceText(c.rest), k);
      NoProduct(c.rest, k);
      ProductAlone(Feed(text, k), c.head, m);
      TailFolds(c.head, c.rest, k);
    }
  }

  /** The right operand of a sum, up to the closing parenthesis. */
  lemma RightOperand(op: SqlOp, l: Sql, rt: seq<Token>, r: Chain, k: Stream)
    requires IsSign(op) && Chains(rt, r)
    ensures ParseSumTail(l, Cons(Op(op), Feed(rt, Cons(RP, k)))) == Some((Folded(Infix(op, l, r.head), r.rest), Cons(RP, k)))
  {
    var y := Feed(PieceText(r.rest), Cons(RP, k));
    NoProduct(r.rest, Cons(RP, k));
    ProductAlone(Feed(rt, Cons(RP, k)), r.head, y);
    TailFolds(Infix(op, l, r.head), r.rest, Cons(RP, k));
  }

  /** A product whose right operand is a sum ends with it. */
  lemma ProductOperand(l: Sql, rt: seq<Token>, r: Chain, k: Stream)
    requires Chains(rt, r)
    ensures var y := Feed(PieceText(r.rest), Cons(RP, k));
      ParseProductTail(l, Cons(Op(OpMul), Feed(rt, Cons(RP, k)))) == Some((Infix(OpMul, l, r.head), y))
  {
    NoProduct(r.rest, Cons(RP, k));
  }

  lemma {:induction false} AllSignedInit(rest: seq<Piece>)
    requires rest != [] && AllSigned(rest)
    ensures var n := |rest| - 1; AllSigned(rest[..n]) && rest[n].sign.Some? && IsSign(rest[n].sign.value)
    decreases |rest|
  {
    if |rest| > 1 {
      AllSignedInit(rest[1..]);
      assert rest[1..][..|rest| - 2] == rest[..|rest| - 1][1..];
    }
  }

  lemma {:induction false} PieceTextInit(rest: seq<Piece>)
    requires rest != [] && AllSigned(rest)
    ensures var n := |rest| - 1;
      && rest[n].sign.Some?
      && PieceText(rest) == PieceText(rest[..n]) + [Op(rest[n].sign.value), Dur(rest[n].count, rest[n].unit)]
    decreases |rest|
  {
    if |rest| > 1 {
      PieceTextInit(rest[1..]);
      var n := |rest| - 1;
      assert rest[1..][..n - 1] == rest[..n][1..];
      var last := [Op(rest[n].sign.value), Dur(rest[n].count, rest[n].unit)];
      var first := [Op(rest[0].sign.value), Dur(rest[0].count, rest[0].unit)];
      assert PieceText(rest) == first + PieceText(rest[1..]);
      assert PieceText(rest[..n]) == first + PieceText(rest[..n][1..]);
      Regroup(first, PieceText(rest[..n][1..]), last);
    }
  }

  /** `(l op r)` for +, - and *: read from left to right, products first. */
  lemma ArithmeticDenotes(op: SqlOp, lt: seq<Token>, l: Chain, rt: seq<Token>, r: Chain)
    requires (IsSign(op) || op.OpMul?) && Chains(lt, l) && Chains(rt, r)
    ensures Denotes([LP] + lt + [Op(op)] + rt + [RP], ReadInfix(op, l, r))
  {
    forall k ensures ParseSign(Feed([LP] + lt + [Op(op)] + rt + [RP], k)) == Some((ReadInfix(op, l, r), k)) {
      FeedBetween([LP], lt, [Op(op)], rt, [RP], k);
      FeedOne(RP, k);
      var m := Feed(rt, Cons(RP, k));
      FeedOne(Op(op), m);
      var ts := Feed(lt, Cons(Op(op), m));
      FeedOne(LP, ts);
      ArithmeticBody(op, lt, l, rt, r, k);
      SumAlone(ts, ReadInfix(op, l, r), k);
    }
  }

  lemma ArithmeticBody(op: SqlOp, lt: seq<Token>, l: Chain, rt: seq<Token>, r: Chain, k: Stream)
    requires (IsSign(op) || op.OpMul?) && Chains(lt, l) && Chains(rt, r)
    ensures ParseSum(Feed(lt, Cons(Op(op), Feed(rt, Cons(RP, k))))) == Some((ReadInfix(op, l, r), Cons(RP, k)))
  {
    var after := Cons(Op(op), Feed(rt, Cons(RP, k)));
    var ts := Feed(lt, after);
    if !op.OpMul? {
      NoProduct(l.rest, after);
      ProductAlone(ts, l.head, Feed(PieceText(l.rest), after));
      TailFolds(l.head, l.rest, after);
      RightOperand(op, Folded(l.head, l.rest), rt, r, k);
    } else if l.rest == [] {
      ProductOperand(l.head, rt, r, k);
      assert ParseProduct(ts) == Some((Infix(OpMul, l.head, r.head), Feed(PieceText(r.rest), Cons(RP, k))));
      TailFolds(Infix(OpMul, l.head, r.head), r.rest, Cons(RP, k));
    } else {
      ProductAfterDurations(l, rt, r, k, ts);
    }
  }

  lemma ProductAfterDurations(l: Chain, rt: seq<Token>, r: Chain, k: Stream, ts: Stream)
    requires l.rest != [] && AllSigned(l.rest) && Chains(rt, r)
    requires ParseSign(ts) == Some((l.head, Feed(PieceText(l.rest), Cons(Op(OpMul), Feed(rt, Cons(RP, k))))))
    ensures ParseSum(ts) == Some((ReadInfix(OpMul, l, r), Cons(RP, k)))
  {
    var after := Cons(Op(OpMul), Feed(rt, Cons(RP, k)));
    var n := |l.rest| - 1;
    var init, last := l.rest[..n], l.rest[n];
    AllSignedInit(l.rest);
    PieceTextInit(l.rest);
    var d := Duration(last.count, last.unit);
    var fromLast := Cons(Op(last.sign.value), Cons(Dur(last.count, last.unit), after));
    FeedCat(PieceText(init), [Op(last.sign.value), Dur(last.count, last.unit)], after);
    FeedTwo(Op(last.sign.value), Dur(last.count, last.unit), after);
    NoProduct(init, fromLast);
    ProductAlone(ts, l.head, Feed(PieceText(init), fromLast));
    TailFolds(l.head, init, fromLast);
    var acc := Folded(l.head, init);
    DurationAlone(last.count, last.unit, after);
    ProductOperand(d, rt, r, k);
    var y := Feed(PieceText(r.rest), Cons(RP, k));
    assert ParseProduct(Cons(Dur(last.count, last.unit), after)) == Some((Infix(OpMul, d, r.head), y));
    assert ParseSumTail(acc, fromLast) == ParseSumTail(Infix(last.sign.value, acc, Infix(OpMul, d, r.head)), y);
    TailFolds(Infix(last.sign.value, acc, Infix(OpMul, d, r.head)), r.rest, Cons(RP, k));
  }

  lemma LikeDenotes(negated: bool, lt: seq<Token>, l: Sql, rt: seq<Token>, r: Sql)
    requires Sums(lt, l) && Sums(rt, r)
    ensures Denotes(LikeText(negated, lt, rt), LikePred(negated, l, r))
  {
    var z := [Kw(ESCAPE), Str("\\"), RP];
    forall k ensures ParseSign(Feed(LikeText(negated, lt, rt), k)) == Some((LikePred(negated, l, r), k)) {
      FeedThree(Kw(ESCAPE), Str("\\"), RP, k);
      var m := Feed(rt, Feed(z, k));
      LikeStep(negated, l, m, r, Cons(RP, k));
      var like := Cons(Kw(LIKE), m);
      if negated {
        FeedBetween([LP], lt, [Kw(NOT), Kw(LIKE)], rt, z, k);
        FeedTwo(Kw(NOT), Kw(LIKE), m);
        FeedOne(LP, Feed(lt, Cons(Kw(NOT), like)));
        LikeOrInBody(Feed(lt, Cons(Kw(NOT), like)), true, l, like, LikePred(true, l, r), k);
      } else {
        FeedBetween([LP], lt, [Kw(LIKE)], rt, z, k);
        FeedOne(Kw(LIKE), m);
        FeedOne(LP, Feed(lt, like));
        LikeOrInBody(Feed(lt, like), false, l, like, LikePred(false, l, r), k);
      }
    }
  }

  lemma CallDenotes(f: SqlFn, it: seq<Token>, items: seq<Sql>)
    requires ItemsDenote(it, items)
    ensures Denotes([Fn(f), LP] + it + [RP], Call(f, items))
  {
    forall k ensures ParseSign(Feed([Fn(f), LP] + it + [RP], k)) == Some((Call(f, items), k)) {
      FeedAround([Fn(f), LP], it, [RP], k);
      FeedOne(RP, k);
      var ts := Feed(it, Cons(RP, k));
      FeedTwo(Fn(f), LP, ts);
      assert ParseItems(ts).Some? && Starts(ts);
      CallStep(f, ts, items, k);
    }
  }

  lemma CallStep(f: SqlFn, ts: Stream, items: seq<Sql>, k: Stream)
    requires ParseItems(ts) == Some((items, Cons(RP, k))) && !Is(ts, RP)
    ensures ParseSign(Cons(Fn(f), Cons(LP, ts))) == Some((Call(f, items), k))
  {
    assert ParseCall(f, Cons(LP, ts)) == Some((Call(f, items), k));
  }

  lemma CallNothing(f: SqlFn)
    ensures Denotes([Fn(f), LP] + [] + [RP], Call(f, []))
  {
    forall k ensures ParseSign(Feed([Fn(f), LP] + [] + [RP], k)) == Some((Call(f, []), k)) {
      FeedAround([Fn(f), LP], [], [RP], k);
      FeedOne(RP, k);
      FeedTwo(Fn(f), LP, Cons(RP, k));
      assert ParseCall(f, Cons(LP, Cons(RP, k))) == Some((Call(f, []), k));
    }
  }

  lemma NoItems()
    ensures TailDenotes([], [])
  {
  }

  lemma MoreItems(at: seq<Token>, a: Sql, rest: seq<Token>, items: seq<Sql>)
    requires Sums(at, a) && TailDenotes(rest, items) && (rest != [] ==> rest[0] == Comma)
    ensures TailDenotes([Comma] + at + rest, [a] + items)
  {
    forall k ensures ParseItemsTail(Feed([Comma] + at + rest, Cons(RP, k))) == Some(([a] + items, Cons(RP, k))) {
      FeedAround([Comma], at, rest, Cons(RP, k));
      var m := Feed(rest, Cons(RP, k));
      FeedOne(Comma, Feed(at, m));
      ItemsTailStep(Feed(at, m), a, m, items, Cons(RP, k));
    }
  }

  lemma FirstItem(at: seq<Token>, a: Sql, rest: seq<Token>, items: seq<Sql>)
    requires Sums(at, a) && TailDenotes(rest, items) && (rest != [] ==> rest[0] == Comma)
    ensures ItemsDenote(at + rest, [a] + items)
  {
    forall k ensures ParseItems(Feed(at + rest, Cons(RP, k))) == Some(([a] + items, Cons(RP, k))) {
      FeedCat(at, rest, Cons(RP, k));
      var m := Feed(rest, Cons(RP, k));
      ItemsStep(Feed(at, m), a, m, items, Cons(RP, k));
    }
  }

  lemma OneItem(at: seq<Token>, a: Sql)
    requires Sums(at, a)
    ensures ItemsDenote(at, [a])
  {
    NoItems();
    FirstItem(at, a, [], []);
    assert at + [] == at;
    assert [a] + [] == [a];
  }

  lemma TwoItems(at: seq<Token>, a: Sql, bt: seq<Token>, b: Sql)
    requires Sums(at, a) && Sums(bt, b)
    ensures ItemsDenote(at + ([Comma] + bt), [a, b])
  {
    NoItems();
    MoreItems(bt, b, [], []);
    assert [Comma] + bt + [] == [Comma] + bt;
    assert [b] + [] == [b];
    FirstItem(at, a, [Comma] + bt, [b]);
    assert [a] + [b] == [a, b];
  }

  lemma CallPairDenotes(f: SqlFn, lt: seq<Token>, l: Sql, rt: seq<Token>, r: Sql)
    requires Sums(lt, l) && Sums(rt, r)
    ensures Denotes([Fn(f), LP] + lt + [Comma] + rt + [RP], Call(f, [l, r]))
  {
    TwoItems(lt, l, rt, r);
    CallDenotes(f, lt + ([Comma] + rt), [l, r]);
    assert [Fn(f), LP] + lt + [Comma] + rt + [RP] == [Fn(f), LP] + (lt + ([Comma] + rt)) + [RP];
  }

  lemma TranslateDenotes(st: seq<Token>, s: Sql, ft: seq<Token>, f: Sql, tt: seq<Token>, t: Sql)
    requires Sums(st, s) && Sums(ft, f) && Sums(tt, t)
    ensures Denotes(TranslateText(st, ft, tt), Call(TranslateFn, [s, t, f]))
  {
    NoItems();
    MoreItems(ft, f, [], []);
    assert [Comma] + ft + [] == [Comma] + ft;
    assert [f] + [] == [f];
    MoreItems(tt, t, [Comma] + ft, [f]);
    FirstItem(st, s, [Comma] + tt + ([Comma] + ft), [t] + [f]);
    assert [s] + ([t] + [f]) == [s, t, f];
    var items := st + ([Comma] + tt + ([Comma] + ft));
    CallDenotes(TranslateFn, items, [s, t, f]);
    assert TranslateText(st, ft, tt) == [Fn(TranslateFn), LP] + items + [RP];
  }

  lemma UpperDenotes(at: seq<Token>, a: Sql)
    requires Sums(at, a)
    ensures Denotes(UpperText(at), UpperOf(a))
  {
    OneItem(at, a);
    CallDenotes(F(Upper), at, [a]);
  }

  lemma BinaryDenotes(name: BinName, lt: seq<Token>, l: Chain, rt: seq<Token>, r: Chain)
    requires !name.OtherBin? && Chains(lt, l) && Chains(rt, r)
    ensures Denotes(BinaryText(name, lt, rt), ReadBinary(name, l, r))
  {
    ChainsSum(lt, l);
    ChainsSum(rt, r);
    match name
    case Like => LikeDenotes(false, lt, Whole(l), rt, Whole(r));
    case NotLike => LikeDenotes(true, lt, Whole(l), rt, Whole(r));
    case ILike => UpperLikeDenotes(false, lt, Whole(l), rt, Whole(r));
    case NotILike => UpperLikeDenotes(true, lt, Whole(l), rt, Whole(r));
    case Pow => CallPairDenotes(F(Power), lt, Whole(l), rt, Whole(r));
    case Mod => CallPairDenotes(F(ModFn), lt, Whole(l), rt, Whole(r));
    case BitAnd => CallPairDenotes(BitAndFn, lt, Whole(l), rt, Whole(r));
    case Add => ArithmeticDenotes(OpAdd, lt, l, rt, r);
    case Sub => ArithmeticDenotes(OpSub, lt, l, rt, r);
    case Mul => ArithmeticDenotes(OpMul, lt, l, rt, r);
    case _ => ComparisonDenotes(SqlOpOf(name), lt, Whole(l), rt, Whole(r));
  }

  lemma UpperLikeDenotes(negated: bool, lt: seq<Token>, l: Sql, rt: seq<Token>, r: Sql)
    requires Sums(lt, l) && Sums(rt, r)
    ensures Denotes(LikeText(negated, UpperText(lt), UpperText(rt)), LikePred(negated, UpperOf(l), UpperOf(r)))
  {
    UpperDenotes(lt, l);
    UpperDenotes(rt, r);
    DenotesSums(UpperText(lt), UpperOf(l));
    DenotesSums(UpperText(rt), UpperOf(r));
    LikeDenotes(negated, UpperText(lt), UpperOf(l), UpperText(rt), UpperOf(r));
  }

  /** A sign applies to the first duration only. */
  lemma SignedDenotes(op: SqlOp, at: seq<Token>, a: Chain)
    requires IsSign(op) && Chains(at, a)
    ensures Denotes([LP] + ([Op(op)] + at) + [RP], Folded(Signed(op, a.head), a.rest))
  {
    var t := Folded(Signed(op, a.head), a.rest);
    forall k ensures ParseSign(Feed([LP] + ([Op(op)] + at) + [RP], k)) == Some((t, k)) {
      assert [LP] + ([Op(op)] + at) + [RP] == [LP, Op(op)] + at + [RP];
      FeedAround([LP, Op(op)], at, [RP], k);
      FeedOne(RP, k);
      var m := Feed(at, Cons(RP, k));
      FeedTwo(LP, Op(op), m);
      NoProduct(a.rest, Cons(RP, k));
      ProductAlone(Cons(Op(op), m), Signed(op, a.head), Feed(PieceText(a.rest), Cons(RP, k)));
      TailFolds(Signed(op, a.head), a.rest, Cons(RP, k));
      SumAlone(Cons(Op(op), m), t, k);
    }
  }

  lemma UnaryDenotes(name: UnName, at: seq<Token>, a: Chain)
    requires !name.OtherUn? && Chains(at, a)
    requires name.Minus? ==> at == [] || at[0] != Op(OpSub)
    ensures Denotes(UnaryText(name, at), ReadUnary(name, a))
  {
    ChainsSum(at, a);
    match name
    case SqrtOp =>
      OneItem(at, Whole(a));
      CallDenotes(F(Sqrt), at, [Whole(a)]);
    case AbsOp =>
      OneItem(at, Whole(a));
      CallDenotes(F(Abs), at, [Whole(a)]);
    case Minus => SignedDenotes(OpSub, at, a);
    case Plus => SignedDenotes(OpAdd, at, a);
  }

  lemma DistinctDenotes(lt: seq<Token>, l: Sql, rt: seq<Token>, r: Sql)
    requires Sums(lt, l) && Sums(rt, r)
    ensures Denotes(DistinctText(lt, rt), DistinctPred(false, l, r))
  {
    forall k ensures ParseSign(Feed(DistinctText(lt, rt), k)) == Some((DistinctPred(false, l, r), k)) {
      FeedBetween([LP], lt, [Kw(IS), Kw(DISTINCT), Kw(FROM)], rt, [RP], k);
      FeedOne(RP, k);
      var m := Feed(rt, Cons(RP, k));
      FeedThree(Kw(IS), Kw(DISTINCT), Kw(FROM), m);
      var tail := Cons(Kw(DISTINCT), Cons(Kw(FROM), m));
      var ts := Feed(lt, Cons(Kw(IS), tail));
      FeedOne(LP, ts);
      DistinctStep(false, l, m, r, Cons(RP, k));
      IsBody(ts, l, tail, DistinctPred(false, l, r), k);
    }
  }

  lemma NullTestDenotes(isNull: bool, plainForm: bool, at: seq<Token>, a: Sql)
    requires Sums(at, a)
    ensures Denotes(NullTestText(isNull, plainForm, at), NullTestTree(isNull, plainForm, a))
  {
    var t := NullTestTree(isNull, plainForm, a);
    forall k ensures ParseSign(Feed(NullTestText(isNull, plainForm, at), k)) == Some((t, k)) {
      var suffix := NullTestSuffix(isNull, plainForm);
      FeedAround([LP], at, suffix, k);
      var ts := Feed(at, Feed(suffix, k));
      FeedOne(LP, ts);
      var tail := NullTestStream(isNull, plainForm, k);
      NullTestParses(isNull, plainForm, a, k);
      IsBody(ts, a, tail, t, k);
    }
  }

  /** What stands after IS in a null test. */
  function NullTestStream(isNull: bool, plainForm: bool, k: Stream): Stream {
    var end := if plainForm then Cons(Kw(NULL), Cons(RP, k)) else Cons(Kw(DISTINCT), Cons(Kw(FROM), Cons(Kw(NULL), Cons(RP, k))));
    if isNull == plainForm then end else Cons(Kw(NOT), end)
  }

  lemma NullStep(negated: bool, a: Sql, k: Stream)
    ensures ParseNullOrDistinct(negated, a, Cons(Kw(NULL), k)) == Some((IsNullPred(negated, a), k))
  {
  }

  lemma FeedSuffix(isNull: bool, plainForm: bool, k: Stream)
    ensures Feed(NullTestSuffix(isNull, plainForm), k) == Cons(Kw(IS), NullTestStream(isNull, plainForm, k))
  {
    if plainForm {
      FeedThree(Kw(IS), Kw(NULL), RP, k);
      FeedFour(Kw(IS), Kw(NOT), Kw(NULL), RP, k);
    } else if isNull {
      FeedSix(Kw(IS), Kw(NOT), Kw(DISTINCT), Kw(FROM), Kw(NULL), RP, k);
    } else {
      assert [Kw(IS), Kw(DISTINCT), Kw(FROM), Kw(NULL), RP] == [Kw(IS)] + [Kw(DISTINCT), Kw(FROM), Kw(NULL), RP];
      FeedCat([Kw(IS)], [Kw(DISTINCT), Kw(FROM), Kw(NULL), RP], k);
      FeedFour(Kw(DISTINCT), Kw(FROM), Kw(NULL), RP, k);
    }
  }

  lemma NullTestParses(isNull: bool, plainForm: bool, a: Sql, k: Stream)
    ensures Feed(NullTestSuffix(isNull, plainForm), k) == Cons(Kw(IS), NullTestStream(isNull, plainForm, k))
    ensures ParseIs(a, NullTestStream(isNull, plainForm, k)) == Some((NullTestTree(isNull, plainForm, a), Cons(RP, k)))
  {
    hide Feed;
    FeedSuffix(isNull, plainForm, k);
    NullStarts(Cons(RP, k));
    SignToSum(Cons(Kw(NULL), Cons(RP, k)), NullLit, Cons(RP, k));
    DistinctStep(isNull, a, Cons(Kw(NULL), Cons(RP, k)), NullLit, Cons(RP, k));
    NullStep(!isNull, a, Cons(RP, k));
  }

  lemma NotDenotes(at: seq<Token>, a: Sql)
    requires Sums(at, a)
    ensures Denotes([LP, Kw(NOT)] + at + [RP], NotCond(a))
  {
    forall k ensures ParseSign(Feed([LP, Kw(NOT)] + at + [RP], k)) == Some((NotCond(a), k)) {
      FeedAround([LP, Kw(NOT)], at, [RP], k);
      FeedOne(RP, k);
      var m := Feed(at, Cons(RP, k));
      FeedTwo(LP, Kw(NOT), m);
      NotBody(m, a, k);
    }
  }

  lemma NotBody(m: Stream, a: Sql, k: Stream)
    requires ParseSum(m) == Some((a, Cons(RP, k)))
    ensures ParseSign(Cons(LP, Cons(Kw(NOT), m))) == Some((NotCond(a), k))
  {
    var ts := Cons(Kw(NOT), m);
    SumToNot(m, a, Cons(RP, k));
    assert ParseNot(ts) == Some((NotCond(a), Cons(RP, k)));
    assert ParseAnd(ts) == Some((NotCond(a), Cons(RP, k)));
    Parenthesised(ts, NotCond(a), k);
  }

  lemma InDenotes(useOr: bool, lt: seq<Token>, l: Sql, it: seq<Token>, items: seq<Sql>)
    requires Sums(lt, l) && ItemsDenote(it, items)
    ensures Denotes(InText(useOr, lt, it), InPred(!useOr, l, items))
  {
    forall k ensures ParseSign(Feed(InText(useOr, lt, it), k)) == Some((InPred(!useOr, l, items), k)) {
      var y := if useOr then [Kw(IN), LP] else [Kw(NOT), Kw(IN), LP];
      FeedBetween([LP], lt, y, it, [RP, RP], k);
      FeedTwo(RP, RP, k);
      var m := Feed(it, Cons(RP, Cons(RP, k)));
      FeedTwo(Kw(IN), LP, m);
      FeedThree(Kw(NOT), Kw(IN), LP, m);
      var ts := Feed(lt, Feed(y, m));
      FeedOne(LP, ts);
      InStep(!useOr, l, m, items, Cons(RP, k));
      LikeOrInBody(ts, !useOr, l, Cons(Kw(IN), Cons(LP, m)), InPred(!useOr, l, items), k);
    }
  }

  lemma ExtractStep(field: string, m: Stream, a: Sql, k: Stream)
    requires ParseOr(m) == Some((a, Cons(RP, k)))
    ensures ParseExtract(Cons(LP, Cons(Field(field), Cons(Kw(FROM), m)))) == Some((ExtractField(field, a), k))
  {
  }

  lemma ExtractParses(field: string, m: Stream, a: Sql, k: Stream)
    requires ParseSum(m) == Some((a, Cons(RP, k)))
    ensures ParseSign(Cons(Kw(EXTRACT), Cons(LP, Cons(Field(field), Cons(Kw(FROM), m))))) == Some((ExtractField(field, a), k))
  {
    SumToOr(m, a, Cons(RP, k));
    ExtractStep(field, m, a, k);
    KeywordStep(EXTRACT, Cons(LP, Cons(Field(field), Cons(Kw(FROM), m))));
  }

  lemma ExtractDenotes(field: string, at: seq<Token>, a: Sql)
    requires Sums(at, a)
    ensures Denotes(ExtractText(field, at), ExtractField(field, a))
  {
    forall k ensures ParseSign(Feed(ExtractText(field, at), k)) == Some((ExtractField(field, a), k)) {
      FeedAround([Kw(EXTRACT), LP, Field(field), Kw(FROM)], at, [RP], k);
      FeedOne(RP, k);
      var m := Feed(at, Cons(RP, k));
      FeedFour(Kw(EXTRACT), LP, Field(field), Kw(FROM), m);
      ExtractParses(field, m, a, k);
    }
  }

  lemma FeedAggHead(agg: AggName, distinct: bool, m: Stream)
    ensures Feed(if distinct then [AggFn(agg), LP, Kw(DISTINCT)] else [AggFn(agg), LP], m)
         == Cons(AggFn(agg), Cons(LP, if distinct then Cons(Kw(DISTINCT), m) else m))
  {
    FeedTwo(AggFn(agg), LP, m);
    FeedThree(AggFn(agg), LP, Kw(DISTINCT), m);
  }

  lemma AggStep(agg: AggName, distinct: bool, m: Stream)
    requires !Is(m, Kw(DISTINCT))
    ensures ParseSign(Cons(AggFn(agg), Cons(LP, if distinct then Cons(Kw(DISTINCT), m) else m))) == ParseAggArgs(agg, distinct, m)
  {
    assert ParseAggregate(agg, Cons(LP, if distinct then Cons(Kw(DISTINCT), m) else m)) == ParseAggArgs(agg, distinct, m);
  }

  lemma AggDenotes(agg: AggName, distinct: bool, at: seq<Token>, a: Sql)
    requires Sums(at, a) && at != [] && at[0] != Op(OpMul) && at[0] != Kw(DISTINCT)
    ensures Denotes(AggText(agg, distinct, at), Aggregate(agg, distinct, false, [a], None))
  {
    OneItem(at, a);
    forall k ensures ParseSign(Feed(AggText(agg, distinct, at), k)) == Some((Aggregate(agg, distinct, false, [a], None), k)) {
      FeedAround(if distinct then [AggFn(agg), LP, Kw(DISTINCT)] else [AggFn(agg), LP], at, [RP], k);
      FeedOne(RP, k);
      var m := Feed(at, Cons(RP, k));
      FeedAggHead(agg, distinct, m);
      assert m.head == at[0];
      AggStep(agg, distinct, m);
    }
  }

  lemma AggStarDenotes(agg: AggName, distinct: bool)
    ensures Denotes(AggText(agg, distinct, [Op(OpMul)]), Aggregate(agg, distinct, true, [], None))
  {
    forall k
      ensures ParseSign(Feed(AggText(agg, distinct, [Op(OpMul)]), k)) == Some((Aggregate(agg, distinct, true, [], None), k))
    {
      FeedAround(if distinct then [AggFn(agg), LP, Kw(DISTINCT)] else [AggFn(agg), LP], [Op(OpMul)], [RP], k);
      FeedOne(RP, k);
      var m := Cons(Op(OpMul), Cons(RP, k));
      FeedOne(Op(OpMul), Cons(RP, k));
      FeedAggHead(agg, distinct, m);
      AggStep(agg, distinct, m);
    }
  }

  // ----- constants and parameters

  lemma TokenDenotes(x: Token, t: Sql)
    requires forall k :: ParseSign(Cons(x, k)) == Some((t, k))
    ensures Denotes([x], t)
  {
    forall k ensures ParseSign(Feed([x], k)) == Some((t, k)) {
      FeedOne(x, k);
    }
  }

  lemma NullDenotes()
    ensures Denotes([Kw(NULL)], NullLit)
  {
    forall k ensures ParseSign(Cons(Kw(NULL), k)) == Some((NullLit, k)) {
      NullStarts(k);
    }
    TokenDenotes(Kw(NULL), NullLit);
  }

  lemma NumberDenotes(r: real)
    ensures Denotes(NumberTokens(r), NumberTree(r))
  {
    forall k ensures ParseSign(Feed(NumberTokens(r), k)) == Some((NumberTree(r), k)) {
      if r < 0.0 {
        FeedTwo(Op(OpSub), Num(-r), k);
        assert ParseSign(Cons(Num(-r), k)) == Some((NumLit(-r), k));
      } else {
        FeedOne(Num(r), k);
      }
    }
  }

  lemma CastStep(ts: Stream, e: Sql, t: SqlType, k: Stream)
    requires ParseOr(ts) == Some((e, Cons(Kw(AS), Cons(Ty(t), Cons(RP, k)))))
    ensures ParseCast(Cons(LP, ts)) == Some((CastTo(e, t), k))
  {
  }

  /** `CAST (x AS t)` around a one-token operand, bare and in parentheses. */
  lemma CastParses(x: Token, e: Sql, t: SqlType, k: Stream)
    requires forall m :: ParseSign(Cons(x, m)) == Some((e, m))
    ensures ParseSign(Cons(Kw(CAST), Cons(LP, Cons(x, Cons(Kw(AS), Cons(Ty(t), Cons(RP, k))))))) == Some((CastTo(e, t), k))
  {
    var m := Cons(Kw(AS), Cons(Ty(t), Cons(RP, k)));
    SignToSum(Cons(x, m), e, m);
    SumToOr(Cons(x, m), e, m);
    CastStep(Cons(x, m), e, t, k);
    KeywordStep(CAST, Cons(LP, Cons(x, m)));
  }

  lemma BareCast(x: Token, e: Sql, t: SqlType)
    requires forall m :: ParseSign(Cons(x, m)) == Some((e, m))
    ensures Denotes([Kw(CAST), LP, x, Kw(AS), Ty(t), RP], CastTo(e, t))
  {
    forall k ensures ParseSign(Feed([Kw(CAST), LP, x, Kw(AS), Ty(t), RP], k)) == Some((CastTo(e, t), k)) {
      FeedSix(Kw(CAST), LP, x, Kw(AS), Ty(t), RP, k);
      CastParses(x, e, t, k);
    }
  }

  lemma WrappedCast(x: Token, e: Sql, t: SqlType)
    requires forall m :: ParseSign(Cons(x, m)) == Some((e, m))
    ensures Denotes([LP, Kw(CAST), LP, x, Kw(AS), Ty(t), RP, RP], CastTo(e, t))
  {
    var inner := [Kw(CAST), LP, x, Kw(AS), Ty(t), RP];
    BareCast(x, e, t);
    assert [LP, Kw(CAST), LP, x, Kw(AS), Ty(t), RP, RP] == [LP] + inner + [RP];
    forall k ensures ParseSign(Feed([LP] + inner + [RP], k)) == Some((CastTo(e, t), k)) {
      FeedAround([LP], inner, [RP], k);
      FeedOne(RP, k);
      var m := Feed(inner, Cons(RP, k));
      FeedOne(LP, m);
      SignToSum(m, CastTo(e, t), Cons(RP, k));
      SumAlone(m, CastTo(e, t), k);
    }
  }

  lemma SpecialDenotes(negative: bool, name: string)
    ensures Denotes(SpecialTokens(negative, name), SpecialTree(negative, name))
  {
    forall k ensures ParseSign(Feed(SpecialTokens(negative, name), k)) == Some((SpecialTree(negative, name), k)) {
      if negative {
        FeedTwo(Op(OpSub), Ident(None, name), k);
        assert ParseSign(Cons(Ident(None, name), k)) == Some((Column(None, name), k));
      } else {
        FeedOne(Ident(None, name), k);
      }
    }
  }

  lemma {:induction false} PiecesChain(ps: seq<Piece>)
    requires Joined(ps) && ps[0].sign.None?
    ensures Chains(PieceText(ps), ChainOfPieces(ps))
  {
    var d := Dur(ps[0].count, ps[0].unit);
    assert PieceText(ps) == [d] + PieceText(ps[1..]);
    forall k ensures ParseSign(Feed(PieceText(ps), k)) == Some((Duration(ps[0].count, ps[0].unit), Feed(PieceText(ps[1..]), k))) {
      FeedCat([d], PieceText(ps[1..]), k);
      FeedOne(d, Feed(PieceText(ps[1..]), k));
      DurationAlone(ps[0].count, ps[0].unit, Feed(PieceText(ps[1..]), k));
    }
  }

  /** An operand alone is a sum to which nothing is added. */
  lemma OperandChains(text: seq<Token>, t: Sql)
    requires Denotes(text, t)
    ensures Chains(text, Chain(t, []))
  {
    forall k ensures Feed(PieceText([]), k) == k {
    }
  }

  /** What a rendered constant is. */
  function DatumChain(d: Datum, t: PgType): Chain {
    if d.Span? && DatumText(d, t).Some? then ChainOfInterval(d.iv) else Chain(DatumTree(d, t), [])
  }

  lemma DatumChains(d: Datum, t: PgType)
    requires DatumReadable(d) && DatumText(d, t).Some?
    ensures Chains(DatumText(d, t).value, DatumChain(d, t))
  {
    match d
    case Number(r) =>
      NumberDenotes(r);
      OperandChains(DatumText(d, t).value, DatumTree(d, t));
    case Special(negative, name) =>
      SpecialDenotes(negative, name);
      OperandChains(DatumText(d, t).value, DatumTree(d, t));
    case Chars(s) =>
      TokenDenotes(Str(s), StrLit(s));
      OperandChains(DatumText(d, t).value, DatumTree(d, t));
    case Moment(s) =>
      WrappedCast(Str(s), StrLit(s), DatumTree(d, t).t);
      OperandChains(DatumText(d, t).value, DatumTree(d, t));
    case Span(iv) =>
      IntervalStarts(iv);
      PiecesChain(IntervalPieces(iv).value);
  }

  lemma ElementSums(d: Datum, t: PgType)
    requires ElementReadable(d, t)
    ensures Sums(ElementText(d, t).value, DatumTree(d, t))
  {
    if d.NullDatum? {
      NullDenotes();
      DenotesSums([Kw(NULL)], NullLit);
    } else {
      DatumChains(d, t);
      ChainsSum(DatumText(d, t).value, DatumChain(d, t));
    }
  }

  lemma {:induction false} ElementsTailDenotes(ds: seq<Datum>, t: PgType)
    requires ElementsReadable(ds, t) && ElementsRendered(ds, t)
    ensures TailDenotes(ElementsTail(ds, t), DatumTrees(ds, t))
  {
    if ds == [] {
      NoItems();
    } else {
      ElementSums(ds[0], t);
      ElementsTailDenotes(ds[1..], t);
      MoreItems(ElementText(ds[0], t).value, DatumTree(ds[0], t), ElementsTail(ds[1..], t), DatumTrees(ds[1..], t));
    }
  }

  lemma ParamDenotes(t: PgType, n: nat)
    ensures Denotes(ParamText(t, n), ParamTree(t, n))
  {
    match t
    case Date => BareCast(Marker(n), MarkerRef(n), DateType);
    case Timestamp => BareCast(Marker(n), MarkerRef(n), TimestampType);
    case TimestampTz => BareCast(Marker(n), MarkerRef(n), TimestampType);
    case Time => WrappedCast(Marker(n), MarkerRef(n), TimeType);
    case _ => TokenDenotes(Marker(n), MarkerRef(n));
  }

  // ----- AND/OR lists and CASE

  /** The rest of an AND or OR list up to the closing parenthesis. */
  ghost predicate AndTailDenotes(text: seq<Token>, es: seq<Sql>) {
    forall k :: ParseAndTail(Feed(text, Cons(RP, k))) == Some((es, Cons(RP, k)))
  }

  ghost predicate OrTailDenotes(text: seq<Token>, es: seq<Sql>) {
    forall k :: ParseOrTail(Feed(text, Cons(RP, k))) == Some((es, Cons(RP, k)))
  }

  lemma MoreAnds(at: seq<Token>, a: Sql, rest: seq<Token>, es: seq<Sql>)
    requires Sums(at, a) && AndTailDenotes(rest, es) && (rest != [] ==> rest[0] == Kw(AND))
    ensures AndTailDenotes([Kw(AND)] + at + rest, [a] + es)
  {
    forall k ensures ParseAndTail(Feed([Kw(AND)] + at + rest, Cons(RP, k))) == Some(([a] + es, Cons(RP, k))) {
      FeedAround([Kw(AND)], at, rest, Cons(RP, k));
      var m := Feed(rest, Cons(RP, k));
      FeedOne(Kw(AND), Feed(at, m));
      SumToNot(Feed(at, m), a, m);
    }
  }

  lemma MoreOrs(at: seq<Token>, a: Sql, rest: seq<Token>, es: seq<Sql>)
    requires Sums(at, a) && OrTailDenotes(rest, es) && (rest != [] ==> rest[0] == Kw(OR))
    ensures OrTailDenotes([Kw(OR)] + at + rest, [a] + es)
  {
    forall k ensures ParseOrTail(Feed([Kw(OR)] + at + rest, Cons(RP, k))) == Some(([a] + es, Cons(RP, k))) {
      FeedAround([Kw(OR)], at, rest, Cons(RP, k));
      var m := Feed(rest, Cons(RP, k));
      FeedOne(Kw(OR), Feed(at, m));
      SumToAnd(Feed(at, m), a, m);
    }
  }

  lemma AndDenotes(at: seq<Token>, a: Sql, rest: seq<Token>, es: seq<Sql>)
    requires Sums(at, a) && AndTailDenotes(rest, es) && (rest != [] ==> rest[0] == Kw(AND))
    ensures Denotes([LP] + at + rest + [RP], if es == [] then a else AndCond([a] + es))
  {
    var t := if es == [] then a else AndCond([a] + es);
    forall k ensures ParseSign(Feed([LP] + at + rest + [RP], k)) == Some((t, k)) {
      FeedCat([LP] + at + rest, [RP], k);
      FeedOne(RP, k);
      FeedAround([LP], at, rest, Cons(RP, k));
      var m := Feed(rest, Cons(RP, k));
      var ts := Feed(at, m);
      FeedOne(LP, ts);
      if rest == [] {
        assert m == Cons(RP, k);
      } else {
        assert m == Cons(Kw(AND), Feed(rest[1..], Cons(RP, k)));
      }
      AndBody(ts, a, m, es, k);
    }
  }

  lemma AndBody(ts: Stream, a: Sql, m: Stream, es: seq<Sql>, k: Stream)
    requires ParseSum(ts) == Some((a, m)) && EndsPredicate(m)
    requires ParseAndTail(m) == Some((es, Cons(RP, k)))
    ensures ParseSign(Cons(LP, ts)) == Some((if es == [] then a else AndCond([a] + es), k))
  {
    var t := if es == [] then a else AndCond([a] + es);
    SumToNot(ts, a, m);
    assert ParseAnd(ts) == Some((t, Cons(RP, k)));
    Parenthesised(ts, t, k);
  }

  lemma OrDenotes(at: seq<Token>, a: Sql, rest: seq<Token>, es: seq<Sql>)
    requires Sums(at, a) && OrTailDenotes(rest, es) && (rest != [] ==> rest[0] == Kw(OR))
    ensures Denotes([LP] + at + rest + [RP], if es == [] then a else OrCond([a] + es))
  {
    var t := if es == [] then a else OrCond([a] + es);
    forall k ensures ParseSign(Feed([LP] + at + rest + [RP], k)) == Some((t, k)) {
      FeedCat([LP] + at + rest, [RP], k);
      FeedOne(RP, k);
      FeedAround([LP], at, rest, Cons(RP, k));
      var m := Feed(rest, Cons(RP, k));
      var ts := Feed(at, m);
      FeedOne(LP, ts);
      SumToAnd(ts, a, m);
      assert ParseOr(ts) == Some((t, Cons(RP, k)));
      Parenthesised(ts, t, k);
    }
  }

  /** WHEN clauses up to ELSE or END. */
  ghost predicate WhensDenote(text: seq<Token>, ws: seq<SqlWhen>) {
    && (forall k :: ParseWhens(Feed(text, Cons(Kw(ELSE), k))) == Some((ws, Cons(Kw(ELSE), k))))
    && (forall k :: ParseWhens(Feed(text, Cons(Kw(END), k))) == Some((ws, Cons(Kw(END), k))))
  }

  lemma WhenParses(ct: seq<Token>, c: Sql, rt: seq<Token>, r: Sql, ts: Stream, ws: seq<SqlWhen>, k: Stream)
    requires Sums(ct, c) && Sums(rt, r)
    requires Ends(ts) && ParseWhens(ts) == Some((ws, k))
    ensures ParseWhens(Feed([Kw(WHEN)] + ct + [Kw(THEN)] + rt, ts)) == Some(([SqlWhen(c, r)] + ws, k))
  {
    FeedCat([Kw(WHEN)] + ct + [Kw(THEN)], rt, ts);
    var m := Feed(rt, ts);
    FeedAround([Kw(WHEN)], ct, [Kw(THEN)], m);
    FeedOne(Kw(THEN), m);
    var n := Feed(ct, Cons(Kw(THEN), m));
    FeedOne(Kw(WHEN), n);
    SumToOr(n, c, Cons(Kw(THEN), m));
    SumToOr(m, r, ts);
  }

  lemma MoreWhens(ct: seq<Token>, c: Sql, rt: seq<Token>, r: Sql, rest: seq<Token>, ws: seq<SqlWhen>)
    requires Sums(ct, c) && Sums(rt, r) && WhensDenote(rest, ws) && (rest != [] ==> rest[0] == Kw(WHEN))
    ensures WhensDenote([Kw(WHEN)] + ct + [Kw(THEN)] + rt + rest, [SqlWhen(c, r)] + ws)
  {
    var head := [Kw(WHEN)] + ct + [Kw(THEN)] + rt;
    forall k ensures ParseWhens(Feed(head + rest, Cons(Kw(ELSE), k))) == Some(([SqlWhen(c, r)] + ws, Cons(Kw(ELSE), k))) {
      FeedCat(head, rest, Cons(Kw(ELSE), k));
      WhenParses(ct, c, rt, r, Feed(rest, Cons(Kw(ELSE), k)), ws, Cons(Kw(ELSE), k));
    }
    forall k ensures ParseWhens(Feed(head + rest, Cons(Kw(END), k))) == Some(([SqlWhen(c, r)] + ws, Cons(Kw(END), k))) {
      FeedCat(head, rest, Cons(Kw(END), k));
      WhenParses(ct, c, rt, r, Feed(rest, Cons(Kw(END), k)), ws, Cons(Kw(END), k));
    }
  }

  lemma BranchesStep(ts: Stream, ws: seq<SqlWhen>, k: Stream)
    requires ParseWhens(ts) == Some((ws, Cons(Kw(END), k)))
    ensures ParseBranches(ts) == Some((ws, None, k))
  {
  }

  lemma BranchesElseStep(ts: Stream, ws: seq<SqlWhen>, m: Stream, e: Sql, k: Stream)
    requires ParseWhens(ts) == Some((ws, Cons(Kw(ELSE), m))) && ParseOr(m) == Some((e, Cons(Kw(END), k)))
    ensures ParseBranches(ts) == Some((ws, Some(e), k))
  {
  }

  /** A CASE whose branches are read. */
  lemma CaseParses(simple: bool, ts: Stream, ws: seq<SqlWhen>, els: Option<Sql>, k: Stream)
    requires Is(ts, Kw(WHEN)) && ParseBranches(ts) == Some((ws, els, k))
    ensures ParseSign(Feed(CaseHead(simple), ts)) == Some((CaseTree(simple, ws, els), k))
  {
    if simple {
      FeedFour(Kw(CASE), LP, Kw(NULL), RP, ts);
      var m := Cons(LP, Cons(Kw(NULL), Cons(RP, ts)));
      SimpleCaseStep(ts, ws, els, k);
      KeywordStep(CASE, m);
    } else {
      FeedOne(Kw(CASE), ts);
      assert ParseCase(ts) == Some((Case(ws, els), k));
      KeywordStep(CASE, ts);
    }
  }

  lemma SimpleCaseStep(ts: Stream, ws: seq<SqlWhen>, els: Option<Sql>, k: Stream)
    requires Is(ts, Kw(WHEN)) && ParseBranches(ts) == Some((ws, els, k))
    ensures ParseCase(Cons(LP, Cons(Kw(NULL), Cons(RP, ts)))) == Some((SimpleCase(NullLit, ws, els), k))
  {
    NullOperand(ts);
  }

  lemma NullOperand(k: Stream)
    requires Is(k, Kw(WHEN))
    ensures ParseOr(Cons(LP, Cons(Kw(NULL), Cons(RP, k)))) == Some((NullLit, k))
  {
    var inner := Cons(Kw(NULL), Cons(RP, k));
    NullStarts(Cons(RP, k));
    SignToSum(inner, NullLit, Cons(RP, k));
    SumAlone(inner, NullLit, k);
    SignToSum(Cons(LP, inner), NullLit, k);
    SumToOr(Cons(LP, inner), NullLit, k);
  }

  lemma CaseDenotes(simple: bool, wt: seq<Token>, ws: seq<SqlWhen>)
    requires WhensDenote(wt, ws) && wt != [] && wt[0] == Kw(WHEN)
    ensures Denotes(CaseText(simple, wt, None), CaseTree(simple, ws, None))
  {
    forall k ensures ParseSign(Feed(CaseText(simple, wt, None), k)) == Some((CaseTree(simple, ws, None), k)) {
      FeedAround(CaseHead(simple), wt, [Kw(END)], k);
      FeedOne(Kw(END), k);
      var m := Feed(wt, Cons(Kw(END), k));
      BranchesStep(m, ws, k);
      CaseParses(simple, m, ws, None, k);
    }
  }

  lemma CaseElseDenotes(simple: bool, wt: seq<Token>, ws: seq<SqlWhen>, et: seq<Token>, e: Sql)
    requires WhensDenote(wt, ws) && wt != [] && wt[0] == Kw(WHEN) && Sums(et, e)
    ensures Denotes(CaseText(simple, wt, Some(et)), CaseTree(simple, ws, Some(e)))
  {
    forall k ensures ParseSign(Feed(CaseText(simple, wt, Some(et)), k)) == Some((CaseTree(simple, ws, Some(e)), k)) {
      FeedBetween(CaseHead(simple), wt, [Kw(ELSE)], et, [Kw(END)], k);
      FeedOne(Kw(END), k);
      var n := Feed(et, Cons(Kw(END), k));
      FeedOne(Kw(ELSE), n);
      var m := Feed(wt, Cons(Kw(ELSE), n));
      SumToOr(n, e, Cons(Kw(END), k));
      BranchesElseStep(m, ws, n, e, k);
      CaseParses(simple, m, ws, Some(e), k);
    }
  }
}
