/** When the text of an interval keeps its value: the printed durations add up to the interval in every unit exactly
    when neither a sign nor a fraction gets lost, and that can be seen from the numbers. */
module Intervals {
  import opened Nodes
  import opened RemoteSql
  import opened Deparse
  import opened Fragment

  /** What durations add up to in one unit. */
  function PieceSum(ps: seq<Piece>, unit: TimeUnit): int {
    if ps == [] then 0
    else
      var n := if ps[0].unit != unit then 0 else if ps[0].sign == Some(OpSub) then -ps[0].count else ps[0].count;
      n + PieceSum(ps[1..], unit)
  }

  /** What the interval has of a unit. */
  function Component(iv: Interval, unit: TimeUnit): int {
    match unit
    case YEAR => iv.years
    case MONTH => iv.months
    case DAY => iv.days
    case HOUR => iv.hours
    case MINUTE => iv.minutes
    case SECOND => iv.seconds
    case MICROSECOND => iv.fraction
  }

  ghost predicate AddsUp(ps: seq<Piece>, iv: Interval) {
    forall unit :: PieceSum(ps, unit) == Component(iv, unit)
  }

  /** No fraction, no negative years or months; and if the days and what follows are negative, then either years or
      months come first. */
  predicate SignsKept(iv: Interval) {
    iv.fraction == 0 && iv.years >= 0 && iv.months >= 0 && (IsNegative(iv) ==> (iv.years > 0) != (iv.months > 0))
  }

  /** Every unit occurs once. */
  predicate Distinct(parts: seq<(int, TimeUnit)>) {
    forall i, j | 0 <= i < j < |parts| :: parts[i].1 != parts[j].1
  }

  function PartOf(parts: seq<(int, TimeUnit)>, unit: TimeUnit): int {
    if parts == [] then 0 else (if parts[0].1 == unit then parts[0].0 else 0) + PartOf(parts[1..], unit)
  }

  // ----- what is meant

  lemma {:induction false} SignedSum(parts: seq<(int, TimeUnit)>, started: bool, unit: TimeUnit)
    ensures PieceSum(SignedPieces(parts, started), unit) == PartOf(parts, unit)
    decreases |parts|
  {
    if parts != [] {
      SignedSum(parts[1..], started, unit);
      SignedSum(parts[1..], true, unit);
      if parts[0].0 != 0 {
        var ps := SignedPieces(parts, started);
        assert ps[1..] == SignedPieces(parts[1..], true);
      }
    }
  }

  lemma PartsAreComponents(iv: Interval, unit: TimeUnit)
    ensures PartOf(SignedParts(iv), unit) == Component(iv, unit)
  {
    var a := SignedParts(iv);
    var b := a[1..];
    var c := b[1..];
    var d := c[1..];
    var e := d[1..];
    var f := e[1..];
    assert f[1..] == [(iv.fraction, MICROSECOND)] && f[1..][1..] == [];
    assert PartOf(f[1..], unit) == if unit == MICROSECOND then iv.fraction else 0;
    assert PartOf(e, unit) == (if unit == MINUTE then iv.minutes else 0) + PartOf(f, unit);
    assert PartOf(c, unit) == (if unit == DAY then iv.days else 0) + PartOf(d, unit);
    assert PartOf(a, unit) == (if unit == YEAR then iv.years else 0) + PartOf(b, unit);
  }

  /** The durations that are meant add up to the interval, whatever it is. */
  lemma MeantIsInterval(iv: Interval)
    ensures AddsUp(MeantPieces(iv), iv)
  {
    forall unit ensures PieceSum(MeantPieces(iv), unit) == Component(iv, unit) {
      SignedSum(SignedParts(iv), false, unit);
      PartsAreComponents(iv, unit);
    }
  }

  // ----- what is printed

  /** The first part contributes itself, with the sign in front of it, if it is positive. */
  lemma {:induction false} PrintedSum(parts: seq<(int, TimeUnit)>, sum: int, sign: SqlOp, unit: TimeUnit)
    requires parts != []
    ensures var (n, u) := parts[0];
      PieceSum(Pieces(parts, sum, sign), unit)
        == (if n > 0 && u == unit then (if sum > 0 && sign == OpSub then -n else n) else 0)
           + PieceSum(Pieces(parts[1..], sum + n, sign), unit)
  {
    if parts[0].0 > 0 {
      var ps := Pieces(parts, sum, sign);
      assert ps[1..] == Pieces(parts[1..], sum + parts[0].0, sign);
    } else {
      assert Pieces(parts, sum, sign) == Pieces(parts[1..], sum + parts[0].0, sign);
    }
  }

  /** Nothing is printed of a unit that is not among the parts. */
  lemma {:induction false} OnlyOnce(parts: seq<(int, TimeUnit)>, sum: int, sign: SqlOp, unit: TimeUnit)
    requires forall i | 0 <= i < |parts| :: parts[i].1 != unit
    ensures PieceSum(Pieces(parts, sum, sign), unit) == 0
    decreases |parts|
  {
    if parts != [] {
      PrintedSum(parts, sum, sign, unit);
      OnlyOnce(parts[1..], sum + parts[0].0, sign, unit);
    }
  }

  /** The sum in front of a part. */
  function Before(parts: seq<(int, TimeUnit)>, i: nat): int
    requires i <= |parts|
  {
    if i == 0 then 0 else Before(parts, i - 1) + parts[i - 1].0
  }

  lemma {:induction false} BeforeRest(parts: seq<(int, TimeUnit)>, i: nat)
    requires 0 < i <= |parts|
    ensures Before(parts, i) == parts[0].0 + Before(parts[1..], i - 1)
    decreases i
  {
    if i > 1 {
      BeforeRest(parts, i - 1);
    }
  }

  /** What is printed of one part: nothing unless it is positive, and the sign only behind a positive sum. */
  lemma {:induction false} PrintedPart(parts: seq<(int, TimeUnit)>, sum: int, sign: SqlOp, i: nat)
    requires i < |parts| && Distinct(parts)
    ensures var n := parts[i].0;
      PieceSum(Pieces(parts, sum, sign), parts[i].1)
        == if n <= 0 then 0 else if sum + Before(parts, i) > 0 && sign == OpSub then -n else n
    decreases |parts|
  {
    PrintedSum(parts, sum, sign, parts[i].1);
    if i == 0 {
      OnlyOnce(parts[1..], sum + parts[0].0, sign, parts[0].1);
    } else {
      BeforeRest(parts, i);
      PrintedPart(parts[1..], sum + parts[0].0, sign, i - 1);
    }
  }

  lemma PartsBefore(iv: Interval)
    ensures var parts := IntervalParts(iv);
      && |parts| == 6 && Distinct(parts)
      && Before(parts, 0) == 0 && Before(parts, 1) == iv.years && Before(parts, 2) == iv.years + iv.months
      && Before(parts, 3) == iv.years + iv.months + parts[2].0
      && Before(parts, 4) == iv.years + iv.months + parts[2].0 + parts[3].0
      && Before(parts, 5) == iv.years + iv.months + parts[2].0 + parts[3].0 + parts[4].0
  {
    var parts := IntervalParts(iv);
    assert Before(parts, 1) == Before(parts, 0) + parts[0].0;
    assert Before(parts, 2) == Before(parts, 1) + parts[1].0;
    assert Before(parts, 3) == Before(parts, 2) + parts[2].0;
    assert Before(parts, 4) == Before(parts, 3) + parts[3].0;
  }

  /** What is printed of one unit, in terms of the interval. */
  lemma PrintedUnit(iv: Interval, i: nat)
    requires IntervalPieces(iv).Some? && i < 6
    ensures var parts := IntervalParts(iv);
      && |parts| == 6
      && PieceSum(IntervalPieces(iv).value, parts[i].1)
      == if parts[i].0 <= 0 then 0 else if Before(parts, i) > 0 && IsNegative(iv) then -parts[i].0 else parts[i].0
  {
    PartsBefore(iv);
    PrintedPart(IntervalParts(iv), 0, if IsNegative(iv) then OpSub else OpAdd, i);
  }

  /** For every interval that has a text: its durations add up to it in every unit if and only if the signs are kept. */
  lemma IntervalKept(iv: Interval)
    requires IntervalPieces(iv).Some?
    ensures AddsUp(IntervalPieces(iv).value, iv) <==> SignsKept(iv)
  {
    var parts, ps := IntervalParts(iv), IntervalPieces(iv).value;
    PartsBefore(iv);
    forall i | 0 <= i < 6
      ensures PieceSum(ps, parts[i].1)
           == if parts[i].0 <= 0 then 0 else if Before(parts, i) > 0 && IsNegative(iv) then -parts[i].0 else parts[i].0
    {
      PrintedUnit(iv, i);
    }
    OnlyOnce(parts, 0, if IsNegative(iv) then OpSub else OpAdd, MICROSECOND);
    assert parts[0].1 == YEAR && parts[1].1 == MONTH && parts[2].1 == DAY && parts[3].1 == HOUR && parts[4].1 == MINUTE && parts[5].1 == SECOND;
    if AddsUp(ps, iv) {
      assert PieceSum(ps, YEAR) == iv.years && PieceSum(ps, MONTH) == iv.months && PieceSum(ps, MICROSECOND) == iv.fraction;
      assert PieceSum(ps, DAY) == iv.days && PieceSum(ps, HOUR) == iv.hours;
      assert PieceSum(ps, MINUTE) == iv.minutes && PieceSum(ps, SECOND) == iv.seconds;
    }
    if SignsKept(iv) {
      forall unit ensures PieceSum(ps, unit) == Component(iv, unit) {
        assert unit == YEAR || unit == MONTH || unit == DAY || unit == HOUR || unit == MINUTE || unit == SECOND || unit == MICROSECOND;
      }
    }
  }

  /** The first part of an interval has no sign. */
  lemma {:induction false} FirstUnsigned(parts: seq<(int, TimeUnit)>, sum: int, sign: SqlOp)
    requires sum <= 0
    ensures var ps := Pieces(parts, sum, sign); ps != [] ==> ps[0].sign.None?
    decreases |parts|
  {
    if parts != [] && parts[0].0 <= 0 {
      FirstUnsigned(parts[1..], sum + parts[0].0, sign);
    }
  }

  /** The first duration has no sign in front of it. */
  lemma IntervalStarts(iv: Interval)
    requires IntervalPieces(iv).Some? && IntervalPieces(iv).value != []
    ensures IntervalPieces(iv).value[0].sign.None?
  {
    FirstUnsigned(IntervalParts(iv), 0, if IsNegative(iv) then OpSub else OpAdd);
  }

  // ----- as trees

  lemma {:induction false} PositivePieces(parts: seq<(int, TimeUnit)>, sum: nat)
    requires forall i | 0 <= i < |parts| :: parts[i].0 >= 0
    ensures Pieces(parts, sum, OpAdd) == SignedPieces(parts, sum > 0)
    decreases |parts|
  {
    if parts != [] {
      PositivePieces(parts[1..], sum + parts[0].0);
    }
  }

  lemma {:induction false} NegativePieces(parts: seq<(int, TimeUnit)>, own: seq<(int, TimeUnit)>, sum: int)
    requires sum > 0 && |parts| == |own|
    requires forall i | 0 <= i < |parts| :: parts[i].0 == -own[i].0 >= 0 && parts[i].1 == own[i].1
    ensures Pieces(parts, sum, OpSub) == SignedPieces(own, true)
    decreases |parts|
  {
    if parts != [] {
      NegativePieces(parts[1..], own[1..], sum + parts[0].0);
    }
  }

  lemma {:induction false} NoFraction(parts: seq<(int, TimeUnit)>, unit: TimeUnit, started: bool)
    ensures SignedPieces(parts + [(0, unit)], started) == SignedPieces(parts, started)
    decreases |parts|
  {
    if parts == [] {
      assert (parts + [(0, unit)])[1..] == [];
    } else {
      assert (parts + [(0, unit)])[1..] == parts[1..] + [(0, unit)];
      NoFraction(parts[1..], unit, started);
      NoFraction(parts[1..], unit, true);
    }
  }

  /** Years or months, and negative parts behind them. */
  lemma NegativeTail(iv: Interval)
    requires SignsKept(iv) && IsNegative(iv) && IntervalPieces(iv).Some?
    ensures Pieces(IntervalParts(iv), 0, OpSub) == SignedPieces(SignedParts(iv)[..6], false)
  {
    var parts, own := IntervalParts(iv), SignedParts(iv)[..6];
    var n := iv.years + iv.months;
    NegativePieces(parts[2..], own[2..], n);
    assert parts[1..][1..] == parts[2..] && own[1..][1..] == own[2..];
    if iv.years > 0 {
      assert Pieces(parts[1..], n, OpSub) == Pieces(parts[2..], n, OpSub);
      assert SignedPieces(own[1..], true) == SignedPieces(own[2..], true);
    } else {
      assert Pieces(parts[1..], 0, OpSub) == [Piece(None, n, MONTH)] + Pieces(parts[2..], n, OpSub);
      assert SignedPieces(own[1..], false) == [Piece(None, n, MONTH)] + SignedPieces(own[2..], true);
    }
  }

  /** The durations printed are the ones that are meant if and only if the signs are kept. */
  lemma PiecesKept(iv: Interval)
    requires IntervalPieces(iv).Some?
    ensures IntervalPieces(iv).value == MeantPieces(iv) <==> SignsKept(iv)
  {
    MeantIsInterval(iv);
    IntervalKept(iv);
    if SignsKept(iv) {
      var own := SignedParts(iv)[..6];
      assert SignedParts(iv) == own + [(0, MICROSECOND)];
      NoFraction(own, MICROSECOND, false);
      if IsNegative(iv) {
        NegativeTail(iv);
      } else {
        assert IntervalParts(iv) == own;
        PositivePieces(own, 0);
      }
    }
  }

  lemma {:induction false} FoldedSnoc(head: Sql, rest: seq<Piece>)
    requires rest != []
    ensures var n := |rest| - 1;
      Folded(head, rest) == Infix(PieceOp(rest[n]), Folded(head, rest[..n]), Duration(rest[n].count, rest[n].unit))
    decreases |rest|
  {
    var next := Infix(PieceOp(rest[0]), head, Duration(rest[0].count, rest[0].unit));
    if |rest| == 1 {
      assert rest[1..] == [] && rest[..0] == [];
    } else {
      FoldedSnoc(next, rest[1..]);
      assert rest[1..][..|rest| - 2] == rest[..|rest| - 1][1..];
    }
  }

  function PieceOp(p: Piece): SqlOp {
    if p.sign.Some? then p.sign.value else OpAdd
  }

  /** A sum of durations tells its summands. */
  lemma {:induction false} FoldedTells(h: Sql, r: seq<Piece>, i: Sql, q: seq<Piece>)
    requires h.Duration? && i.Duration? && AllSigned(r) && AllSigned(q)
    ensures Folded(h, r) == Folded(i, q) <==> h == i && r == q
    decreases |r|
  {
    if r != [] {
      FoldedSnoc(h, r);
    }
    if q != [] {
      FoldedSnoc(i, q);
    }
    if r != [] && q != [] {
      var m, n := |r| - 1, |q| - 1;
      SignedInit(r);
      SignedInit(q);
      FoldedTells(h, r[..m], i, q[..n]);
      assert r == r[..m] + [r[m]] && q == q[..n] + [q[n]];
    }
  }

  lemma {:induction false} SignedInit(ps: seq<Piece>)
    requires ps != [] && AllSigned(ps)
    ensures AllSigned(ps[..|ps| - 1]) && ps[|ps| - 1].sign.Some?
    decreases |ps|
  {
    if |ps| > 1 {
      SignedInit(ps[1..]);
      assert ps[..|ps| - 1][1..] == ps[1..][..|ps| - 2];
    } else {
      assert ps[..0] == [];
    }
  }

  lemma {:induction false} MeantSigned(parts: seq<(int, TimeUnit)>, started: bool)
    ensures var ps := SignedPieces(parts, started);
      if started then AllSigned(ps) else ps != [] ==> ps[0].sign.None? && AllSigned(ps[1..])
    decreases |parts|
  {
    if parts != [] {
      MeantSigned(parts[1..], started);
      MeantSigned(parts[1..], true);
      if parts[0].0 != 0 {
        assert SignedPieces(parts, started)[1..] == SignedPieces(parts[1..], true);
      }
    }
  }

  /** At least as many parts are meant as are printed. */
  lemma {:induction false} NoMorePieces(parts: seq<(int, TimeUnit)>, own: seq<(int, TimeUnit)>, sum: int, sign: SqlOp, started: bool)
    requires |parts| <= |own| && forall i | 0 <= i < |parts| :: parts[i].0 > 0 ==> own[i].0 != 0
    ensures |Pieces(parts, sum, sign)| <= |SignedPieces(own, started)|
    decreases |parts|
  {
    if parts != [] {
      NoMorePieces(parts[1..], own[1..], sum + parts[0].0, sign, started);
      NoMorePieces(parts[1..], own[1..], sum + parts[0].0, sign, true);
    }
  }

  lemma MeantMore(iv: Interval)
    requires IntervalPieces(iv).Some?
    ensures |IntervalPieces(iv).value| <= |MeantPieces(iv)|
  {
    NoMorePieces(IntervalParts(iv), SignedParts(iv), 0, if IsNegative(iv) then OpSub else OpAdd, false);
  }

  /** A text that can be read is read as the interval that is meant if and only if the signs are kept. */
  lemma SpanKept(iv: Interval, t: PgType)
    requires IntervalPieces(iv).Some? && Joined(IntervalPieces(iv).value) && IntervalPieces(iv).value[0].sign.None?
    ensures DatumTree(Span(iv), t) == MeantDatum(Span(iv), t) <==> SignsKept(iv)
  {
    var p, m := IntervalPieces(iv).value, MeantPieces(iv);
    PiecesKept(iv);
    MeantMore(iv);
    MeantSigned(SignedParts(iv), false);
    FoldedTells(Duration(p[0].count, p[0].unit), p[1..], Duration(m[0].count, m[0].unit), m[1..]);
    assert p == [p[0]] + p[1..] && m == [m[0]] + m[1..];
  }
}
