/** The names that PostgreSQL's catalogs and DB2 have for operators, functions, aggregates and types, and which of them
    may be shipped. */
module Names {
  import opened Nodes
  import opened RemoteSql

  // ----- PostgreSQL's names

  function PgOperator(name: BinName): string {
    match name
    case Gt => ">"
    case Lt => "<"
    case Ge => ">="
    case Le => "<="
    case Eq => "="
    case Ne => "<>"
    case Add => "+"
    case Sub => "-"
    case Mul => "*"
    case Like => "~~"
    case NotLike => "!~~"
    case ILike => "~~*"
    case NotILike => "!~~*"
    case Pow => "^"
    case Mod => "%"
    case BitAnd => "&"
    case OtherBin(s) => s
  }

  function PgPrefix(name: UnName): string {
    match name
    case Minus => "-"
    case Plus => "+"
    case SqrtOp => "|/"
    case AbsOp => "@"
    case OtherUn(s) => s
  }

  /** The functions that have the same name on both servers. */
  function PlainName(fn: PlainFn): string {
    match fn
    case Abs => "abs"
    case Acos => "acos"
    case Asin => "asin"
    case Atan => "atan"
    case Atan2 => "atan2"
    case Ceil => "ceil"
    case Concat => "concat"
    case Cos => "cos"
    case Exp => "exp"
    case InitCap => "initcap"
    case Length => "length"
    case Lower => "lower"
    case LPad => "lpad"
    case LTrim => "ltrim"
    case ModFn => "mod"
    case Power => "power"
    case Replace => "replace"
    case Round => "round"
    case RPad => "rpad"
    case RTrim => "rtrim"
    case Sign => "sign"
    case Sin => "sin"
    case Sqrt => "sqrt"
    case Substr => "substr"
    case Tan => "tan"
    case ToChar => "to_char"
    case ToDate => "to_date"
    case ToNumber => "to_number"
    case ToTimestamp => "to_timestamp"
    case Trunc => "trunc"
    case Upper => "upper"
  }

  function PgFunction(name: FnName): string {
    match name
    case Plain(fn) => PlainName(fn)
    case Ceiling => "ceiling"
    case CharLength => "char_length"
    case CharacterLength => "character_length"
    case PowFn => "pow"
    case OctetLength => "octet_length"
    case Position => "position"
    case StrPos => "strpos"
    case Substring => "substring"
    case Translate => "translate"
    case DatePart => "date_part"
    case Now => "now"
    case TransactionTimestamp => "transaction_timestamp"
    case OtherFn(s) => s
  }

  // ----- DB2's names

  function Db2Operator(op: SqlOp): string {
    match op
    case OpGt => ">"
    case OpLt => "<"
    case OpGe => ">="
    case OpLe => "<="
    case OpEq => "="
    case OpNe => "<>"
    case OpAdd => "+"
    case OpSub => "-"
    case OpMul => "*"
  }

  function Db2Function(f: SqlFn): string {
    match f
    case F(fn) => PlainName(fn)
    case LengthB => "lengthb"
    case InStr => "instr"
    case BitAndFn => "bitand"
    case TranslateFn => "translate"
  }

  /** The infix operators that keep their name. */
  const SAME_OPERATORS: set<string> := {">", "<", ">=", "<=", "=", "<>", "+", "-", "*"}

  /** The functions with another name on DB2. */
  const RENAMED: map<string, string> := map[
    "ceiling" := "ceil", "char_length" := "length", "character_length" := "length", "pow" := "power",
    "octet_length" := "lengthb", "position" := "instr", "strpos" := "instr", "substring" := "substr"]

  // ----- types

  function PgTypeName(t: PgType): string {
    match t
    case TextType => "text"
    case Char => "char"
    case BpChar => "bpchar"
    case VarChar => "varchar"
    case Name => "name"
    case Int8 => "int8"
    case Int2 => "int2"
    case Int4 => "int4"
    case ObjectId => "oid"
    case Float4 => "float4"
    case Float8 => "float8"
    case Numeric => "numeric"
    case Date => "date"
    case Time => "time"
    case Timestamp => "timestamp"
    case TimestampTz => "timestamptz"
    case Interval => "interval"
    case Bool => "bool"
    case OtherType(_) => ""
  }

  function Db2TypeName(t: SqlType): string {
    match t
    case DateType => "date"
    case TimeType => "time"
    case TimestampType => "timestamp"
  }

  const SHIPPED_TYPES: set<string> := {
    "text", "char", "bpchar", "varchar", "name", "int8", "int2", "int4", "oid", "float4", "float8", "numeric",
    "date", "time", "timestamp", "timestamptz", "interval"}

  function PgAggregate(agg: AggName): string {
    match agg
    case Count => "count"
    case Sum => "sum"
    case Avg => "avg"
    case Min => "min"
    case Max => "max"
    case OtherAgg(s) => s
  }

  // ----- what may be shipped

  const SHIPPED_OPERATORS: set<string> := SAME_OPERATORS + {"~~", "!~~", "~~*", "!~~*", "^", "%", "&"}

  const SHIPPED_PREFIXES: set<string> := {"-", "+", "|/", "@"}

  /** The functions that are called on DB2 as they are called in PostgreSQL, with any number of arguments. */
  const SHIPPED_FUNCTIONS: set<string> := {
    "abs", "acos", "asin", "atan", "atan2", "ceil", "ceiling", "char_length", "character_length", "concat", "cos", "exp",
    "initcap", "length", "lower", "lpad", "ltrim", "mod", "octet_length", "position", "pow", "power", "replace", "round",
    "rpad", "rtrim", "sign", "sin", "sqrt", "strpos", "substr", "tan", "to_char", "to_date", "to_number",
    "to_timestamp", "trunc", "upper"}

  const EXTRACT_FIELDS: set<string> := {
    "year", "month", "day", "hour", "minute", "second", "timezone_hour", "timezone_minute"}

  const SHIPPED_AGGREGATES: set<string> := {"count", "sum", "avg", "min", "max"}

  const TEXT_TYPES: set<string> := {"text", "char", "bpchar", "varchar", "name"}

  const NUMBER_TYPES: set<string> := {"int8", "int2", "int4", "oid", "float4", "float8", "numeric"}

  const MOMENT_TYPES: set<string> := {"date", "time", "timestamp", "timestamptz"}

  /** What cannot be taken away from anything: the difference of two dates or times is an interval or a number of days
      in PostgreSQL, and a decimal that reads as digits of years, months and days on DB2. */
  const NOT_SUBTRACTED: set<string> := {"date", "timestamp", "timestamptz"}
}
