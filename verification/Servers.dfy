/** The hypotheses of the meaning theorems can be met, for every DB2 with the usual literals and the usual equality.
    A PostgreSQL whose collation differs from DB2's shows why the walker looks at collations. */
module Servers {
  import opened Nodes
  import opened RemoteSql
  import opened Deparse
  import opened Fragment
  import opened Intervals
  import opened Meaning
  import opened Primitives
  import opened Preservation

  /** Negative numbers, dates and times written as text, and intervals made up of durations. */
  ghost predicate UsualLiterals(db: Db2Semantics) {
    && UsualDurations(db)
    && (forall r: real :: db.sign(OpSub, RealV(r)) == RealV(-r))
    && (forall kind: SqlType :: db.castTo(kind, NullV) == NullV)
    && (forall kind: SqlType, s: string :: db.castTo(kind, StringV(s)) == MomentV(kind, s))
  }

  ghost predicate UsualDurations(db: Db2Semantics) {
    forall iv: Interval :: DurationsValue(MeantPieces(iv), db) == SpanV(iv.(seen := true))
  }

  /** Equality is strict and yields a truth value, and `<>` is its negation. */
  ghost predicate UsualEquality(db: Db2Semantics) {
    forall a: Value, b: Value ::
      var equal := db.infix(OpEq, a, b);
      && (a.NullV? || b.NullV? ==> equal.NullV?)
      && (equal.NullV? || equal.BoolV?)
      && db.infix(OpNe, a, b) == Not3(equal)
  }

  function CallOf(db: Db2Semantics, now: string, name: FnName, vs: seq<Value>): Value {
    if name.Translate? then
      if |vs| == 3 then db.call(TranslateFn, [vs[0], vs[2], vs[1]]) else NullV
    else if name.DatePart? then
      if |vs| == 2 && vs[0].StringV? then db.extract(vs[0].s, vs[1]) else NullV
    else if name.Now? || name.TransactionTimestamp? then MomentV(TimestampType, now)
    else db.call(RemoteFn(name), vs)
  }

  /** The PostgreSQL server that computes what the DB2 server computes, under every collation. */
  function Twin(db: Db2Semantics, now: string): PgSemantics {
    PgSemantics(
      (name: BinName, op: Operator, coll: Oid, a: Value, b: Value) => BinaryMeaning(name, a, b, db),
      (name: UnName, op: Operator, coll: Oid, a: Value) => UnaryMeaning(name, a, db),
      (fn: Function, coll: Oid, vs: seq<Value>) => CallOf(db, now, fn.name, vs),
      (fn: Function, coll: Oid, vs: seq<Value>) => if vs == [] then NullV else vs[0],
      (agg: AggName, aggoid: Oid, coll: Oid, distinct: bool, rows: seq<seq<Value>>) => db.aggregate(agg, distinct, rows))
  }

  lemma TwinAgrees(p: Primitive, db: Db2Semantics, now: string)
    requires UsualLiterals(db) && UsualEquality(db)
    requires p.Member? ==> p.name.Eq? || p.name.Ne?
    ensures PrimAgrees(p, Twin(db, now), db, now)
  {
    var pg := Twin(db, now);
    if p.Convert? {
      forall v: Value, vs: seq<Value> ensures pg.cast(p.fn, p.coll, [v] + vs) == v {
        assert [v] + vs != [];
      }
    } else if p.Member? {
      assert SqlOpOf(Ne) == OpNe && SqlOpOf(Eq) == OpEq;
    } else if p.Apply? {
      assert FunctionAgrees(p.fn, p.nargs, p.coll, pg, db, now);
    }
  }

  /** A PostgreSQL server with a collation of its own, under which all texts are equal. */
  function WithCollation(db: Db2Semantics, now: string, own: Oid): PgSemantics {
    Twin(db, now).(binary := (name: BinName, op: Operator, coll: Oid, a: Value, b: Value) =>
      if coll == own && name.Eq? && a.StringV? && b.StringV? then BoolV(true) else BinaryMeaning(name, a, b, db))
  }

  /** The servers agree on everything that can be shipped, except under one collation. */
  ghost predicate AgreeElsewhere(pg: PgSemantics, db: Db2Semantics, now: string, own: Oid) {
    forall p: Primitive | CollationOf(p) != own && (p.Member? ==> p.name.Eq? || p.name.Ne?) :: PrimAgrees(p, pg, db, now)
  }

  lemma OthersStillAgree(p: Primitive, db: Db2Semantics, now: string, own: Oid)
    requires UsualLiterals(db) && UsualEquality(db) && own != INVALID_OID && CollationOf(p) != own
    requires p.Member? ==> p.name.Eq? || p.name.Ne?
    ensures PrimAgrees(p, WithCollation(db, now, own), db, now)
  {
    TwinAgrees(p, db, now);
    if p.Member? {
      assert forall a: Value, b: Value ::
        Comparison(WithCollation(db, now, own), p.name, p.op, p.coll)(a, b) == Comparison(Twin(db, now), p.name, p.op, p.coll)(a, b);
    }
  }

  // ----- one DB2 of that kind

  const NO_TIME := TimeSpan(0, 0, 0, 0, 0, 0, 0, true)

  function PlainDuration(n: int, unit: TimeUnit): Interval {
    match unit
    case YEAR => NO_TIME.(years := n)
    case MONTH => NO_TIME.(months := n)
    case DAY => NO_TIME.(days := n)
    case HOUR => NO_TIME.(hours := n)
    case MINUTE => NO_TIME.(minutes := n)
    case SECOND => NO_TIME.(seconds := n)
    case MICROSECOND => NO_TIME.(fraction := n)
  }

  function PlainSum(a: Interval, b: Interval, s: int): Interval {
    TimeSpan(a.years + s * b.years, a.months + s * b.months, a.days + s * b.days, a.hours + s * b.hours,
             a.minutes + s * b.minutes, a.seconds + s * b.seconds, a.fraction + s * b.fraction, true)
  }

  function PlainInfix(op: SqlOp, a: Value, b: Value): Value {
    var equal := if a.NullV? || b.NullV? then NullV else BoolV(a == b);
    if op == OpEq then equal
    else if op == OpNe then Not3(equal)
    else if a.SpanV? && b.SpanV? then SpanV(PlainSum(a.iv, b.iv, if op == OpSub then -1 else 1))
    else NullV
  }

  const PLAIN_DB2 := Db2Semantics(
    PlainInfix, (a: Value, b: Value) => NullV,
    (op: SqlOp, a: Value) => if op == OpSub && a.RealV? then RealV(-a.r) else NullV,
    (f: SqlFn, vs: seq<Value>) => NullV, (field: string, v: Value) => NullV,
    (t: SqlType, v: Value) => if v.StringV? then MomentV(t, v.s) else NullV,
    (n: int, unit: TimeUnit) => SpanV(PlainDuration(n, unit)),
    (a: AggName, distinct: bool, rows: seq<seq<Value>>) => RealV(|rows| as real))

  lemma PlainStep(iv: Interval, p: Piece)
    requires iv.seen && p.sign.Some? && IsSign(p.sign.value)
    ensures var next := PLAIN_DB2.infix(p.sign.value, SpanV(iv), PLAIN_DB2.duration(p.count, p.unit));
      && next.SpanV? && next.iv.seen
      && forall unit :: Component(next.iv, unit) == Component(iv, unit) + PieceSum([p], unit)
  {
    assert [p][1..] == [];
  }

  /** Durations are added up unit by unit. */
  lemma {:induction false} PlainDurations(iv: Interval, rest: seq<Piece>)
    requires iv.seen && AllSigned(rest)
    ensures var v := AddDurations(SpanV(iv), rest, PLAIN_DB2);
      && v.SpanV? && v.iv.seen
      && forall unit :: Component(v.iv, unit) == Component(iv, unit) + PieceSum(rest, unit)
    decreases |rest|
  {
    if rest != [] {
      hide PlainInfix, PlainDuration;
      var next := PLAIN_DB2.infix(rest[0].sign.value, SpanV(iv), PLAIN_DB2.duration(rest[0].count, rest[0].unit));
      PlainStep(iv, rest[0]);
      PlainDurations(next.iv, rest[1..]);
      forall unit ensures PieceSum(rest, unit) == PieceSum([rest[0]], unit) + PieceSum(rest[1..], unit) {
        assert [rest[0]][1..] == [];
      }
    }
  }

  lemma PlainIsUsual()
    ensures UsualLiterals(PLAIN_DB2) && UsualEquality(PLAIN_DB2)
  {
    forall iv: Interval ensures DurationsValue(MeantPieces(iv), PLAIN_DB2) == SpanV(iv.(seen := true)) {
      PlainInterval(iv);
    }
  }

  lemma SameComponents(a: Interval, b: Interval)
    requires a.seen && forall unit :: Component(a, unit) == Component(b, unit)
    ensures a == b.(seen := true)
  {
    assert Component(a, YEAR) == b.years && Component(a, MONTH) == b.months && Component(a, DAY) == b.days;
    assert Component(a, HOUR) == b.hours && Component(a, MINUTE) == b.minutes && Component(a, SECOND) == b.seconds;
    assert Component(a, MICROSECOND) == b.fraction;
  }

  lemma PlainInterval(iv: Interval)
    ensures DurationsValue(MeantPieces(iv), PLAIN_DB2) == SpanV(iv.(seen := true))
  {
    var ps := MeantPieces(iv);
    MeantIsInterval(iv);
    MeantSigned(SignedParts(iv), false);
    hide SignedParts, SignedPieces, PlainInfix;
    if ps == [] {
      SameComponents(NO_TIME, iv);
    } else {
      var first := PlainDuration(ps[0].count, ps[0].unit);
      PlainDurations(first, ps[1..]);
      var sum := AddDurations(SpanV(first), ps[1..], PLAIN_DB2);
      forall unit ensures Component(sum.iv, unit) == Component(iv, unit) {
        assert PieceSum(ps, unit) == Component(first, unit) + PieceSum(ps[1..], unit);
      }
      SameComponents(sum.iv, iv);
    }
  }

  lemma PlainAgreesElsewhere(own: Oid)
    requires own != INVALID_OID
    ensures AgreeElsewhere(WithCollation(PLAIN_DB2, "", own), PLAIN_DB2, "", own)
  {
    PlainIsUsual();
    forall p: Primitive | CollationOf(p) != own && (p.Member? ==> p.name.Eq? || p.name.Ne?)
      ensures PrimAgrees(p, WithCollation(PLAIN_DB2, "", own), PLAIN_DB2, "")
    {
      OthersStillAgree(p, PLAIN_DB2, "", own);
    }
  }

  /** Which comparisons of a value with a list are IN or NOT IN, on all servers, for all values and lists: `= ANY` and
      `<> ALL`, the ones that are printed, and neither `= ALL` nor `<> ANY`. */
  lemma InFormsAreExact(name: BinName, useOr: bool)
    requires name.Eq? || name.Ne?
    ensures IsInOrNotIn(name, useOr)
        <==> forall compare: (Value, Value) -> Value, db: Db2Semantics, x: Value, es: seq<Value>
          | MemberAgrees(compare, name, db) && es != [] :: ArrayOp(compare, useOr, x, Some(es)) == InValue(useOr, x, es, db)
  {
    if IsInOrNotIn(name, useOr) {
      forall compare: (Value, Value) -> Value, db: Db2Semantics, x: Value, es: seq<Value> | MemberAgrees(compare, name, db) && es != []
        ensures ArrayOp(compare, useOr, x, Some(es)) == InValue(useOr, x, es, db)
      {
        ArrayOpIsIn(compare, db, name, useOr, x, Some(es));
      }
    } else {
      var compare := (a: Value, b: Value) => PlainInfix(SqlOpOf(name), a, b);
      var one := RealV(1.0);
      OneInList(name, useOr, compare, one);
      assert ArrayOp(compare, useOr, one, Some([one])) != InValue(useOr, one, [one], PLAIN_DB2);
    }
  }

  lemma OneInList(name: BinName, useOr: bool, compare: (Value, Value) -> Value, one: Value)
    requires (name.Eq? && !useOr) || (name.Ne? && useOr)
    requires one.RealV? && forall a, b :: compare(a, b) == PlainInfix(SqlOpOf(name), a, b)
    ensures MemberAgrees(compare, name, PLAIN_DB2)
    ensures ArrayOp(compare, useOr, one, Some([one])) != InValue(useOr, one, [one], PLAIN_DB2)
  {
    assert [one][1..] == [];
    assert PLAIN_DB2.infix(OpEq, one, one) == BoolV(true) && EqualAny(one, [one][1..], PLAIN_DB2) == BoolV(false);
    assert EqualAny(one, [one], PLAIN_DB2) == BoolV(true);
    assert compare(one, one) == BoolV(name.Eq?) && ArrayLoop(compare, useOr, one, [one][1..], false) == BoolV(!useOr);
    assert ArrayLoop(compare, useOr, one, [one], false) == BoolV(!useOr);
  }

  /** Two servers that agree on everything that can be shipped exist for every such DB2, and with them a sound
      setting for every scan. */
  lemma SoundSettingExists(scan: Scan, db: Db2Semantics, prims: set<Primitive>)
    requires UsualLiterals(db) && UsualEquality(db)
    requires forall p | p in prims && p.Member? :: p.name.Eq? || p.name.Ne?
    ensures exists w: Setting :: w.scan == scan && w.db == db && w.Sound() && w.Agrees(prims)
  {
    var env := Env(scan.relids, (varno: nat, attno: int) => NullV, [], (e: Expr) => NullV, NullV);
    var remote := RemoteEnv((rel: Option<nat>, name: string) => NullV, [], [], "");
    var w := Setting(scan, [], env, remote, Twin(db, ""), db);
    assert Matches(env, remote, scan, []);
    forall p | p in prims ensures PrimAgrees(p, w.pg, w.db, w.remote.now) {
      TwinAgrees(p, db, "");
    }
    assert w.Sound() && w.Agrees(prims);
  }
}
