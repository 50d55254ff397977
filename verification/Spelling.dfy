/** The names of operators, functions and types on both servers, and what the printed names promise: if the servers
    compute by name, and agree on the names that are meant to correspond, they agree on every operation that is shipped. */
module Spelling {
  import opened Nodes
  import opened RemoteSql
  import opened Names
  import opened Deparse
  import opened Meaning
  import opened Primitives

  /** An operator is printed between its operands, under its own name, exactly if the name is one of those. */
  lemma OperatorsKeepTheirNames(name: BinName, l: seq<Token>, r: seq<Token>)
    requires !name.OtherBin?
    ensures PgOperator(name) in SAME_OPERATORS
        <==> exists op: SqlOp :: Db2Operator(op) == PgOperator(name) && BinaryText(name, l, r) == [LP] + l + [Op(op)] + r + [RP]
  {
    if PgOperator(name) in SAME_OPERATORS {
      assert Db2Operator(SqlOpOf(name)) == PgOperator(name);
    }
  }

  /** So `x > 3` is printed with `>` between the operands. */
  lemma OperatorText(e: Expr, scan: Scan, ps: seq<Expr>)
    requires e.BinaryOp? && Printable(e) && PgOperator(e.bname) in SAME_OPERATORS
    ensures exists op: SqlOp ::
      && Db2Operator(op) == PgOperator(e.bname)
      && Text(e, scan, ps) == [LP] + Text(e.left, scan, ps) + [Op(op)] + Text(e.right, scan, ps) + [RP]
  {
    OperatorsKeepTheirNames(e.bname, Text(e.left, scan, ps), Text(e.right, scan, ps));
  }

  /** A function is printed under its own name or, if it has another one on DB2, under that. */
  lemma FunctionsKeepTheirNames(name: FnName, nargs: nat)
    requires TranslatableNormalFunction(name, nargs)
    ensures var own := PgFunction(name);
      Db2Function(RemoteFn(name)) == if own in RENAMED then RENAMED[own] else own
  {
  }

  lemma FunctionNameText(e: Expr, scan: Scan, ps: seq<Expr>)
    requires e.FuncExpr? && Printable(e) && TranslatableNormalFunction(e.fn.name, |e.args|)
    ensures exists f: SqlFn ::
      && Db2Function(f) == (if PgFunction(e.fn.name) in RENAMED then RENAMED[PgFunction(e.fn.name)] else PgFunction(e.fn.name))
      && Text(e, scan, ps) == [Fn(f), LP] + CommaList(e.args, scan, ps) + [RP]
  {
    FunctionsKeepTheirNames(e.fn.name, |e.args|);
    assert Text(e, scan, ps) == [Fn(RemoteFn(e.fn.name)), LP] + CommaList(e.args, scan, ps) + [RP];
  }

  lemma TypesKeepTheirNames(t: PgType)
    ensures CanHandleType(t) <==> PgTypeName(t) in SHIPPED_TYPES
    ensures IsTemporal(t) ==>
      Db2TypeName(MomentKind(t)) == if PgTypeName(t) == "timestamptz" then "timestamp" else PgTypeName(t)
  {
  }

  // ----- servers that compute by name

  /** What a server computes, by name. */
  datatype Library = Library(
    infix: (string, Value, Value) -> Value, prefix: (string, Value) -> Value, call: (string, seq<Value>) -> Value)

  ghost predicate PgSpeaks(pg: PgSemantics, m: Library, coll: Oid) {
    && (forall name, op, a, b :: pg.binary(name, op, coll, a, b) == m.infix(PgOperator(name), a, b))
    && (forall name, op, a :: pg.unary(name, op, coll, a) == m.prefix(PgPrefix(name), a))
    && (forall fn: Function, vs :: pg.call(fn, coll, vs) == m.call(PgFunction(fn.name), vs))
  }

  ghost predicate Db2Speaks(db: Db2Semantics, n: Library) {
    && (forall op, a, b :: db.infix(op, a, b) == n.infix(Db2Operator(op), a, b))
    && (forall op, a :: db.sign(op, a) == n.prefix(Db2Operator(op), a))
    && (forall f, vs :: db.call(f, vs) == n.call(Db2Function(f), vs))
  }

  /** The operators that correspond: nine of the same name, LIKE in four forms, and three functions. */
  ghost predicate SameOperators(m: Library, n: Library, db: Db2Semantics) {
    && (forall s, a, b | s in SAME_OPERATORS :: m.infix(s, a, b) == n.infix(s, a, b))
    && (forall a, b :: m.infix("~~", a, b) == db.like(a, b))
    && (forall a, b :: m.infix("!~~", a, b) == Not3(db.like(a, b)))
    && (forall a, b :: m.infix("~~*", a, b) == db.like(n.call("upper", [a]), n.call("upper", [b])))
    && (forall a, b :: m.infix("!~~*", a, b) == Not3(db.like(n.call("upper", [a]), n.call("upper", [b]))))
    && (forall a, b :: m.infix("^", a, b) == n.call("power", [a, b]))
    && (forall a, b :: m.infix("%", a, b) == n.call("mod", [a, b]))
    && (forall a, b :: m.infix("&", a, b) == n.call("bitand", [a, b]))
  }

  ghost predicate SamePrefixes(m: Library, n: Library) {
    && (forall a :: m.prefix("-", a) == n.prefix("-", a))
    && (forall a :: m.prefix("+", a) == n.prefix("+", a))
    && (forall a :: m.prefix("|/", a) == n.call("sqrt", [a]))
    && (forall a :: m.prefix("@", a) == n.call("abs", [a]))
  }

  /** The functions that correspond. TRANSLATE takes its last two arguments in the other order. */
  ghost predicate SameFunctions(m: Library, n: Library, db: Db2Semantics, now: string) {
    && (forall fn, vs :: m.call(PlainName(fn), vs) == n.call(PlainName(fn), vs))
    && (forall s, vs | s in RENAMED :: m.call(s, vs) == n.call(RENAMED[s], vs))
    && (forall s, from, to :: m.call("translate", [s, from, to]) == n.call("translate", [s, to, from]))
    && (forall field, v :: m.call("date_part", [StringV(field), v]) == db.extract(field, v))
    && m.call("now", []) == m.call("transaction_timestamp", []) == MomentV(TimestampType, now)
    && db.castTo(TimestampType, StringV(now)) == MomentV(TimestampType, now)
  }

  /** Equality is strict and yields a truth value, and `<>` is its negation. */
  ghost predicate StrictEquality(n: Library) {
    forall a: Value, b: Value ::
      var equal := n.infix("=", a, b);
      && (a.NullV? || b.NullV? ==> equal.NullV?)
      && (equal.NullV? || equal.BoolV?)
      && n.infix("<>", a, b) == Not3(equal)
  }

  lemma PrintedAsItself(name: BinName, a: Value, b: Value, db: Db2Semantics)
    requires !name.OtherBin? && PgOperator(name) in SAME_OPERATORS
    ensures Db2Operator(SqlOpOf(name)) == PgOperator(name) && BinaryMeaning(name, a, b, db) == db.infix(SqlOpOf(name), a, b)
  {
  }

  /** An operator of the same name. */
  lemma SameOperatorAgrees(name: BinName, op: Operator, coll: Oid, pg: PgSemantics, m: Library, db: Db2Semantics, n: Library, a: Value, b: Value)
    requires PgSpeaks(pg, m, coll) && Db2Speaks(db, n) && SameOperators(m, n, db)
    requires !name.OtherBin? && PgOperator(name) in SAME_OPERATORS
    ensures pg.binary(name, op, coll, a, b) == BinaryMeaning(name, a, b, db)
  {
    hide PgOperator, Db2Operator, SqlOpOf, BinaryMeaning;
    var s := PgOperator(name);
    PrintedAsItself(name, a, b, db);
    assert pg.binary(name, op, coll, a, b) == m.infix(s, a, b) == n.infix(s, a, b);
    assert db.infix(SqlOpOf(name), a, b) == n.infix(s, a, b);
  }

  /** An operator with a form of its own. */
  lemma OwnFormAgrees(name: BinName, op: Operator, coll: Oid, pg: PgSemantics, m: Library, db: Db2Semantics, n: Library, a: Value, b: Value)
    requires PgSpeaks(pg, m, coll) && Db2Speaks(db, n) && SameOperators(m, n, db)
    requires !name.OtherBin? && PgOperator(name) !in SAME_OPERATORS
    ensures pg.binary(name, op, coll, a, b) == BinaryMeaning(name, a, b, db)
  {
    assert name.Like? || name.NotLike? || name.ILike? || name.NotILike? || name.Pow? || name.Mod? || name.BitAnd?;
    PlainFunctions();
    hide Db2Operator, SqlOpOf, Db2Function, PlainName;
    assert pg.binary(name, op, coll, a, b) == m.infix(PgOperator(name), a, b);
  }

  lemma PlainFunctions()
    ensures Db2Function(F(Power)) == "power" && Db2Function(F(ModFn)) == "mod" && Db2Function(BitAndFn) == "bitand"
    ensures Db2Function(F(Upper)) == "upper"
  {
  }

  lemma NamedOperatorAgrees(name: BinName, op: Operator, coll: Oid, pg: PgSemantics, m: Library, db: Db2Semantics, n: Library, now: string)
    requires PgSpeaks(pg, m, coll) && Db2Speaks(db, n) && SameOperators(m, n, db) && !name.OtherBin?
    ensures PrimAgrees(Compute(name, op, coll), pg, db, now)
  {
    hide BinaryMeaning, PgSpeaks, Db2Speaks, SameOperators;
    forall a, b ensures pg.binary(name, op, coll, a, b) == BinaryMeaning(name, a, b, db) {
      if PgOperator(name) in SAME_OPERATORS {
        SameOperatorAgrees(name, op, coll, pg, m, db, n, a, b);
      } else {
        OwnFormAgrees(name, op, coll, pg, m, db, n, a, b);
      }
    }
  }

  lemma NamedPrefixAgrees(name: UnName, op: Operator, coll: Oid, pg: PgSemantics, m: Library, db: Db2Semantics, n: Library, now: string)
    requires PgSpeaks(pg, m, coll) && Db2Speaks(db, n) && SamePrefixes(m, n) && !name.OtherUn?
    ensures PrimAgrees(Prefix(name, op, coll), pg, db, now)
  {
    forall a ensures pg.unary(name, op, coll, a) == UnaryMeaning(name, a, db) {
      assert m.prefix(PgPrefix(name), a) == pg.unary(name, op, coll, a);
    }
  }

  lemma PlainOrRenamed(name: FnName, nargs: nat)
    requires TranslatableNormalFunction(name, nargs)
    ensures var own, there := PgFunction(name), Db2Function(RemoteFn(name));
      (name.Plain? && own == there == PlainName(name.fn)) || (own in RENAMED && there == RENAMED[own])
  {
    if !name.Plain? {
      FunctionsKeepTheirNames(name, nargs);
    }
  }

  lemma NormalFunctionAgrees(fn: Function, coll: Oid, pg: PgSemantics, m: Library, db: Db2Semantics, n: Library, now: string, vs: seq<Value>)
    requires PgSpeaks(pg, m, coll) && Db2Speaks(db, n) && SameFunctions(m, n, db, now) && TranslatableNormalFunction(fn.name, |vs|)
    ensures pg.call(fn, coll, vs) == db.call(RemoteFn(fn.name), vs)
  {
    PlainOrRenamed(fn.name, |vs|);
    hide PlainName, PgFunction, Db2Function, RemoteFn, TranslatableNormalFunction, Db2Operator, PgOperator;
    assert pg.call(fn, coll, vs) == m.call(PgFunction(fn.name), vs);
    assert db.call(RemoteFn(fn.name), vs) == n.call(Db2Function(RemoteFn(fn.name)), vs);
  }

  lemma NamedFunctionAgrees(fn: Function, nargs: nat, coll: Oid, pg: PgSemantics, m: Library, db: Db2Semantics, n: Library, now: string)
    requires PgSpeaks(pg, m, coll) && Db2Speaks(db, n) && SameFunctions(m, n, db, now)
    requires TranslatableNormalFunction(fn.name, nargs) || fn.name.Translate? || fn.name.DatePart? || fn.name.Now? || fn.name.TransactionTimestamp?
    ensures PrimAgrees(Apply(fn, nargs, coll), pg, db, now)
  {
    if TranslatableNormalFunction(fn.name, nargs) {
      forall vs: seq<Value> | |vs| == nargs ensures pg.call(fn, coll, vs) == db.call(RemoteFn(fn.name), vs) {
        NormalFunctionAgrees(fn, coll, pg, m, db, n, now, vs);
      }
    } else {
      OwnCallAgrees(fn, nargs, coll, pg, m, db, n, now);
    }
  }

  /** TRANSLATE, EXTRACT and the time of the transaction. */
  lemma OwnCallAgrees(fn: Function, nargs: nat, coll: Oid, pg: PgSemantics, m: Library, db: Db2Semantics, n: Library, now: string)
    requires PgSpeaks(pg, m, coll) && Db2Speaks(db, n) && SameFunctions(m, n, db, now)
    requires fn.name.Translate? || fn.name.DatePart? || fn.name.Now? || fn.name.TransactionTimestamp?
    ensures PrimAgrees(Apply(fn, nargs, coll), pg, db, now)
  {
    hide PlainName, RemoteFn, Db2Operator, PgOperator, PgPrefix;
    var s := PgFunction(fn.name);
    assert s == if fn.name.Translate? then "translate" else if fn.name.DatePart? then "date_part"
                else if fn.name.Now? then "now" else "transaction_timestamp";
    assert forall vs :: pg.call(fn, coll, vs) == m.call(s, vs);
    assert forall vs :: db.call(TranslateFn, vs) == n.call("translate", vs) by {
      assert Db2Function(TranslateFn) == "translate";
    }
    hide PgFunction, Db2Function;
  }

  lemma NamedEqualityAgrees(name: BinName, op: Operator, coll: Oid, pg: PgSemantics, m: Library, db: Db2Semantics, n: Library, now: string)
    requires PgSpeaks(pg, m, coll) && Db2Speaks(db, n) && SameOperators(m, n, db) && StrictEquality(n) && (name.Eq? || name.Ne?)
    ensures PrimAgrees(Member(name, op, coll), pg, db, now) && PrimAgrees(Equal(op, coll), pg, db, now)
  {
    forall a, b
      ensures pg.binary(Eq, op, coll, a, b) == db.infix(OpEq, a, b) == n.infix("=", a, b)
      ensures Comparison(pg, name, op, coll)(a, b) == n.infix(PgOperator(name), a, b)
    {
      assert pg.binary(Eq, op, coll, a, b) == m.infix("=", a, b);
      assert pg.binary(name, op, coll, a, b) == m.infix(PgOperator(name), a, b);
    }
  }

  ghost predicate SameNames(m: Library, n: Library, db: Db2Semantics, now: string) {
    SameOperators(m, n, db) && SamePrefixes(m, n) && SameFunctions(m, n, db, now) && StrictEquality(n)
  }

  predicate IsNamed(p: Primitive) {
    match p
    case Compute(name, _, _) => !name.OtherBin?
    case Prefix(name, _, _) => !name.OtherUn?
    case Equal(_, _) => true
    case Member(name, _, _) => name.Eq? || name.Ne?
    case Apply(fn, nargs, _) =>
      TranslatableNormalFunction(fn.name, nargs) || fn.name.Translate? || fn.name.DatePart? || fn.name.Now? || fn.name.TransactionTimestamp?
    case _ => false
  }

  /** Servers that compute by name, and alike by the corresponding names, agree on every operation that has a name. */
  lemma NamedServersAgree(p: Primitive, pg: PgSemantics, m: Library, db: Db2Semantics, n: Library, now: string)
    requires IsNamed(p) && PgSpeaks(pg, m, CollationOf(p)) && Db2Speaks(db, n) && SameNames(m, n, db, now)
    ensures PrimAgrees(p, pg, db, now)
  {
    hide SameOperators, SamePrefixes, SameFunctions, StrictEquality, PgSpeaks, Db2Speaks, PrimAgrees;
    match p
    case Compute(name, op, coll) => NamedOperatorAgrees(name, op, coll, pg, m, db, n, now);
    case Prefix(name, op, coll) => NamedPrefixAgrees(name, op, coll, pg, m, db, n, now);
    case Equal(op, coll) => NamedEqualityAgrees(Eq, op, coll, pg, m, db, n, now);
    case Member(name, op, coll) => NamedEqualityAgrees(name, op, coll, pg, m, db, n, now);
    case Apply(fn, nargs, coll) => NamedFunctionAgrees(fn, nargs, coll, pg, m, db, n, now);
  }

  // ----- such servers exist

  function CounterInfix(n: Library, db: Db2Semantics, s: string, a: Value, b: Value): Value {
    if s in SAME_OPERATORS then n.infix(s, a, b)
    else if s == "~~" then db.like(a, b)
    else if s == "!~~" then Not3(db.like(a, b))
    else if s == "~~*" then db.like(n.call("upper", [a]), n.call("upper", [b]))
    else if s == "!~~*" then Not3(db.like(n.call("upper", [a]), n.call("upper", [b])))
    else if s == "^" then n.call("power", [a, b])
    else if s == "%" then n.call("mod", [a, b])
    else if s == "&" then n.call("bitand", [a, b])
    else NullV
  }

  function CounterPrefix(n: Library, s: string, a: Value): Value {
    if s == "|/" then n.call("sqrt", [a]) else if s == "@" then n.call("abs", [a]) else n.prefix(s, a)
  }

  function CounterCall(n: Library, db: Db2Semantics, now: string, s: string, vs: seq<Value>): Value {
    if s in RENAMED then n.call(RENAMED[s], vs)
    else if s !in {"translate", "date_part", "now", "transaction_timestamp"} then n.call(s, vs)
    else if s == "translate" then if |vs| == 3 then n.call(s, [vs[0], vs[2], vs[1]]) else NullV
    else if s == "date_part" then if |vs| == 2 && vs[0].StringV? then db.extract(vs[0].s, vs[1]) else NullV
    else MomentV(TimestampType, now)
  }

  function Counterpart(n: Library, db: Db2Semantics, now: string): Library {
    Library((s, a, b) => CounterInfix(n, db, s, a, b), (s, a) => CounterPrefix(n, s, a), (s, vs) => CounterCall(n, db, now, s, vs))
  }

  lemma PlainIsPlain(fn: PlainFn)
    ensures PlainName(fn) !in RENAMED && PlainName(fn) !in {"translate", "date_part", "now", "transaction_timestamp"}
  {
  }

  lemma CounterpartCalls(n: Library, db: Db2Semantics, now: string)
    requires db.castTo(TimestampType, StringV(now)) == MomentV(TimestampType, now)
    ensures SameFunctions(Counterpart(n, db, now), n, db, now)
  {
    hide PlainName;
    var m := Counterpart(n, db, now);
    forall fn, vs ensures m.call(PlainName(fn), vs) == n.call(PlainName(fn), vs) {
      PlainIsPlain(fn);
    }
  }

  lemma CounterpartOperators(n: Library, db: Db2Semantics, now: string)
    ensures SameOperators(Counterpart(n, db, now), n, db)
  {
    hide CounterCall, CounterPrefix;
    OwnFormNames();
    hide SAME_OPERATORS;
  }

  lemma OwnFormNames()
    ensures "~~" !in SAME_OPERATORS && "!~~" !in SAME_OPERATORS && "~~*" !in SAME_OPERATORS && "!~~*" !in SAME_OPERATORS
    ensures "^" !in SAME_OPERATORS && "%" !in SAME_OPERATORS && "&" !in SAME_OPERATORS
  {
  }

  /** For every DB2 with the usual equality there is a PostgreSQL whose names correspond. */
  lemma NamesExist(n: Library, db: Db2Semantics, now: string)
    requires StrictEquality(n) && db.castTo(TimestampType, StringV(now)) == MomentV(TimestampType, now)
    ensures SameNames(Counterpart(n, db, now), n, db, now)
  {
    hide SameFunctions, SameOperators, CounterCall, CounterInfix;
    CounterpartCalls(n, db, now);
    CounterpartOperators(n, db, now);
  }

  // ----- the ordinary operators on numbers

  function OrdinaryInfix(op: SqlOp, a: Value, b: Value): Value {
    if !a.RealV? || !b.RealV? then NullV
    else
      match op
      case OpGt => BoolV(a.r > b.r)
      case OpLt => BoolV(a.r < b.r)
      case OpGe => BoolV(a.r >= b.r)
      case OpLe => BoolV(a.r <= b.r)
      case OpEq => BoolV(a.r == b.r)
      case OpNe => BoolV(a.r != b.r)
      case OpAdd => RealV(a.r + b.r)
      case OpSub => RealV(a.r - b.r)
      case OpMul => RealV(a.r * b.r)
  }

  function OrdinaryOperator(name: BinName, a: Value, b: Value): Value {
    if !a.RealV? || !b.RealV? then NullV
    else
      match name
      case Gt => BoolV(a.r > b.r)
      case Lt => BoolV(a.r < b.r)
      case Ge => BoolV(a.r >= b.r)
      case Le => BoolV(a.r <= b.r)
      case Eq => BoolV(a.r == b.r)
      case Ne => BoolV(a.r != b.r)
      case Add => RealV(a.r + b.r)
      case Sub => RealV(a.r - b.r)
      case Mul => RealV(a.r * b.r)
      case _ => NullV
  }

  /** Two servers that compute with numbers as everybody does agree on the nine operators. */
  lemma OrdinaryServersAgree(name: BinName, op: Operator, coll: Oid, pg: PgSemantics, db: Db2Semantics, now: string)
    requires PgOperator(name) in SAME_OPERATORS && !name.OtherBin?
    requires forall n, o, c, a, b :: pg.binary(n, o, c, a, b) == OrdinaryOperator(n, a, b)
    requires forall o, a, b :: db.infix(o, a, b) == OrdinaryInfix(o, a, b)
    ensures PrimAgrees(Compute(name, op, coll), pg, db, now)
  {
  }
}
