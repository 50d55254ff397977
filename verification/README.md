# db2_fdw: a verified model

db2_fdw lets PostgreSQL read and write DB2 tables. It turns parts of a query plan into DB2 SQL, keeps one remote
transaction in step with the local one, and turns rows that come back into PostgreSQL tuples. This project models five
connected parts of it in Dafny and proves what they promise.

1. **Expression shipping** (`Nodes`, `RemoteSql`, `Deparse`, `ParamList`, `Fragment`, `Intervals`, `Grouping`,
   `Denotation`, `RoundTrip`, `Spoiling`, `Meaning`, `Primitives`, `Preservation`, `Servers`, `Names`, `Spelling`,
   `NullCase`, `Walker`, `Rules`, `Collation`, `Acceptance`, `Agreement`, `DeparseContext`, `Conditions`,
   `Counterexamples`). The walker decides which expressions DB2 may evaluate and the deparser prints them. The text is
   a sequence of tokens, DB2's reading of it a recursive-descent parser, and both sides have a three-valued evaluator.
   What is meant by an expression has intervals with their own signs, `NaN` as itself, the argument of a CASE and the
   FILTER of an aggregate, printed or not. Proved: for every expression, whether its text parses and what it is read
   as, and when that is what was meant; for every interval, when its text keeps its value; for every list of
   conditions, when the WHERE, ON or HAVING clause parses; what DB2 computes is PostgreSQL's value, NULLs included, on
   servers that agree on the operations in the expression under the collations of its columns; servers that compute by
   name, and alike by the names that correspond, agree; the walker accepts exactly the expressions whose nodes all
   keep rules that are said by the names in PostgreSQL's catalogs and whose arguments agree on every input collation,
   and its text can be read exactly outside a list of named gaps; the collation state is a join and input collations
   come from foreign columns; parameter numbers stay right while the list grows.
2. **Pushdown of stages** (`UpperPaths`, `PlanEquivalence`, `RemoteWhere`, `Locality`, `JoinPaths`). Parts of WHERE,
   GROUP BY, HAVING, ORDER BY and LIMIT run on DB2 and the rest locally; inner joins are sent with the conditions of
   both sides. Proved: after any sequence of planner calls an accepted stage stands on accepted stages, and for every
   such outcome, whatever order DB2 returns rows in, the split plan computes a result of the query, WITH TIES,
   grouping sets and set-returning targets included; the rows and groups DB2 keeps by the clauses it parsed are those
   on which the remote conditions hold, so that the statement with the printed WHERE and HAVING clauses computes what
   the plan says; for every accepted join, of whatever type, DB2's join of the tables is the join of the sides
   filtered by all their conditions, and which collations may stand in its clauses.
3. **Savepoints** (`Savepoints`, `Handles`, `ForeignScan`). Savepoints are set late and their names are used again.
   Proved: in every run the connection follows a machine that takes a snapshot whenever a subtransaction begins, so an
   abort restores the remote contents; what a committed subtransaction did stays; a transaction that used the
   connection ends with exactly one remote commit, which keeps what it did, or rollback; savepoint statements are
   invisible to a scan, which returns the first rows of DB2's answer in order through any mixture of fetches and
   rescans.
4. **Result columns** (`ResultColumns`, `Transfer`, `TupleSlot`, `ColumnMapping`). From the target list through the
   linked result list, its serialised form, the reversed list after reading it back, and fetching by number, to the
   tuple slot. Proved: slot k holds item k, for joins and upper relations if and only if no entry without a column of
   the table has a value, and for base relations when every entry stands for a column of its own.
5. **Buffers and lists** (`Lob`, `DecimalText`, `Quoting`, `Handles`; `Sequences` has a fact about concatenation).
   Proved: character LOBs are assembled completely, the text of a DECIMAL column always fits the buffer for its
   layout, all values of a computed item fit if and only if the longest one does, quoted names and literals read back,
   and what freeing a statement handle does to the list at each position.

Code that updates state in place is modelled by classes and methods, each proved against a function or a predicate;
the properties are lemmas about those. Calls into PostgreSQL and DB2 are parameters (functions, oracles that may fail,
or the small server and column classes in `Savepoints` and `Lob`).

`dafny verify dfyconfig.toml` checks everything.

## What the source does differently from its own comments

- `lookup_shippable` returns false whatever it finds, so only built-in objects are shippable
  (`Walker.ShippableCache.IsShippable`).
- A boolean constant passes the walker and is not printed; the WHERE clause then contains `()`
  (`Conditions.BooleanConstantBreaksWhere`). `Agreement.WalkerDeparserAgree` lists every such gap, and
  `Counterexamples` has accepted expressions for them: boolean and interval parameters, the interval of no time, a
  lone array, a CASE over a column, a null test of `x > ANY ('{1}')`, which is printed as `( IS NULL)`, a whole row,
  and a minus sign in front of a negative constant, which opens a comment (the planner normally folds the last one
  before it gets here).
- An interval is printed as a sum of labelled durations, and the sign of the first one is never printed. The text
  keeps the interval's value if and only if there is no fraction of a second (a fraction is always lost), years and
  months are not negative, and, if the days or smaller units are, exactly one of years and months is positive
  (`Intervals.IntervalKept`). A day back is read as a day forward (`Counterexamples.SignIsDropped`), and after
  negative years the sign between days and hours is missing (`Counterexamples.SignIsMissing`). Since there are no
  parentheses around the sum, `t - interval '1 day 2 hours'` takes away the day and adds the hours
  (`Counterexamples.HoursAreAdded`); `Grouping.ReadIsMeant` says exactly when such a sum is regrouped.
- `NaN` and `Infinity` are printed as bare names, which are read as columns (`Counterexamples.NotANumber`); of the
  numeric constants exactly the others are read as what they are (`Counterexamples.NumbersKept`).
- A CASE with an argument is printed only when its argument is not, as `CASE (null) WHEN`, and then DB2 always takes
  the ELSE branch (`NullCase.SimpleCaseTakesElse`). That is right if and only if PostgreSQL takes no WHEN branch, or
  one with the value of the ELSE (`NullCase.SimpleCaseIsRight`, `Counterexamples.CaseOfCaseDiffers`).
- The FILTER clause of an aggregate is walked and never printed, which is right only for groups all of whose rows pass
  it (`Preservation.FilterIsLost`, `Counterexamples.CountIgnoresFilter`).
- `foreign_join_ok` asks whether a join clause can be printed, not whether the walker accepts it; a clause with a
  collation of its own is then compared under another one (`JoinPaths.JoinClauseIsNotWalked`,
  `JoinPaths.CollatedIsKept`).
- `qp_is_pushdown_safe` is never set, so sorting directly above a scan or join is never sent.
- Freeing the second handle of a list also drops the first (`Handles.FreeLosesOne`).
- A target-list entry of a base relation that resolves to no column is skipped without using up a number
  (`ColumnMapping.DeliverBase`). In a join or upper relation such an entry keeps a blank layout, and a value for it,
  the 5 of `SELECT 5, count(*)` for example, is an error (`ColumnMapping.ConstantBesideCount`).
- Binary LOBs lose a byte at the end of every full buffer (`Lob.BlobIsWhole`).
- After a truncated SQLGetData the second call receives only the rest of the text (`DecimalText.FetchText`). This
  never happens to the values of a DECIMAL column, but it can happen to a computed value, which borrows the layout of
  a column in it: a product of two DECIMAL(5, 2) columns arrives in part (`DecimalText.FetchDecimal`,
  `DecimalText.ProductIsCut`).
- A name in parentheses is not quoted (`Quoting.CopiedNameReadsBack`).

## Model

| member | source | states |
|---|---|---|
| Spoiling.PrintParse | source/db2_deparse.c:2232-2315 | For every expression: parsing its text yields what `Read` says if the expression is readable and fails otherwise; it yields what is meant if and only if, besides, the expression is intact: no interval of several parts stands where its durations are regrouped, every interval keeps its signs and has no fraction, no number is `NaN` or the like, no CASE has an argument other than NULL and no aggregate a FILTER. |
| RoundTrip.ExprReads | source/db2_deparse.c:2477-3071 | The text of a readable expression is one operand, or an operand followed by durations: whatever follows it, the parser takes exactly the text. |
| Spoiling.UnreadableIsSpoilt | source/db2_deparse.c:2477-3310 | A text that is printed but not readable holds a token, or neighbouring tokens, that no expression contains: `( IS`, two commas, two durations, a comment, a whole row, an aggregate without or with two arguments, a CASE without WHEN. |
| RemoteSql.SpoiltFails | source/db2_deparse.c:2317-2332 | No expression contains such tokens: a text with them does not parse. |
| Grouping.ReadIsMeant | source/db2_deparse.c:3588-3658 | For every readable expression, what is read is what is meant, with the own signs of every interval, if and only if the expression is intact. |
| Intervals.IntervalKept | source/db2_deparse.c:3601-3658 | For every interval that has a text: the printed durations add up to it in every unit if and only if it has no fraction, no negative years or months, and, when days or smaller units are negative, either years or months but not both. |
| Intervals.MeantIsInterval | source/db2_deparse.c:3588-3599 | What is meant by an interval, durations with its own signs, adds up to it in every unit, fraction included. |
| Intervals.PiecesKept | source/db2_deparse.c:3601-3658 | The printed durations are those that are meant under the same condition. |
| Fragment.IntervalJoined | source/db2_deparse.c:3611-3658 | The parts of an interval have signs between them exactly when, after the first positive part, every positive part is preceded by a positive sum. |
| Fragment.NonNegativeMonths | source/db2_deparse.c:3620-3627 | Without negative years and months every interval that has a text has all its signs. |
| Denotation.InDenotes | source/db2_deparse.c:2599-2712 | `(x IN (..))` and `(x NOT IN (..))` are single operands, whatever the items. |
| Denotation.CaseElseDenotes | source/db2_deparse.c:2866-2905 | A CASE with ELSE, searched or over `(null)`, reads back as one operand with its branches in order. |
| Denotation.AndDenotes | source/db2_deparse.c:2812-2840 | An n-ary AND in parentheses reads back with exactly its operands in order. |
| Denotation.OrDenotes | source/db2_deparse.c:2812-2840 | An n-ary OR in parentheses reads back with exactly its operands in order. |
| Denotation.LikeDenotes | source/db2_deparse.c:2516-2544 | LIKE and NOT LIKE with their ESCAPE clause read back as one predicate over the two operands. |
| Denotation.NullTestDenotes | source/db2_deparse.c:2755-2779 | All four printed forms of a null test read back as IS NULL or IS NOT NULL. |
| Deparse.Params | source/db2_deparse.c:2334-2360 | Over a whole recursive deparse the parameter list only grows at its end and stays free of equal entries. |
| ParamList.IndexNamesParam | source/db2_deparse.c:2334-2360 | The number printed for a parameter names it in the list it was found in and in every longer list. |
| ParamList.TextStable | source/db2_deparse.c:2219-2230 | A text printed while the parameter list was shorter is the text under the final list. |
| Preservation.ShippedTextMeans | source/db2_deparse.c:2186-2315 | What DB2 parses out of the shipped text of an intact expression has, in every row and group, the three-valued value of the PostgreSQL expression, if the servers agree on the operations that occur in it. |
| Preservation.ExprMeans | source/db2_deparse.c:2232-2315 | The translated tree of a readable, intact expression whose parts all have a counterpart has its value, intervals included, for servers that agree on its operations and for bound parameters. |
| Conditions.AcceptedMeans | source/db2_deparse.c:209-256 | For an accepted, intact expression without a gap it is enough that the servers agree on its operations under the collations of its foreign columns. |
| Primitives.AcceptedIsCovered | source/db2_deparse.c:410-833 | No operation in an accepted expression works under a collation other than that of a foreign column in it. |
| Preservation.ArrayOpIsIn | source/db2_deparse.c:2599-2712 | `= ANY` and `<> ALL` over a non-empty list mean IN and NOT IN, for every operand and every list, NULLs included. |
| Preservation.TranslateMeans | source/db2_deparse.c:3014-3026 | TRANSLATE keeps its value because the last two arguments change places. |
| Preservation.DistinctMeans | source/db2_deparse.c:2722-2753 | IS DISTINCT FROM keeps its value, NULL operands included. |
| Preservation.CaseMeans | source/db2_deparse.c:2842-2914 | A searched CASE keeps its value, with NULL for a missing ELSE. |
| Preservation.BinaryMeans | source/db2_deparse.c:2516-2544 | Each translated infix operator keeps its value, the case-insensitive LIKE forms by way of UPPER. |
| Spelling.OperatorsKeepTheirNames | source/db2_deparse.c:2515-2535 | Exactly the operators whose name is one of nine are printed between their operands, and under that name. |
| Spelling.OperatorText | source/db2_deparse.c:2530-2533 | The text of such an operator, `x > 3` for example, has its own name between the texts of its operands. |
| Spelling.FunctionsKeepTheirNames | source/db2_deparse.c:2982-2995 | Every normal function is printed under its own name or, for eight of them, under the other name it has on DB2. |
| Spelling.FunctionNameText | source/db2_deparse.c:2973-3015 | The text of a normal function call is that name with the arguments in their order. |
| Spelling.TypesKeepTheirNames | source/db2_deparse.c:1079-1107 | The types that are handled, by name, and that a date or time is cast to the type of its own name. |
| Spelling.NamedServersAgree | source/db2_deparse.c:2477-3071 | If PostgreSQL and DB2 compute by name, and alike by the names that correspond, they agree on every operation that has a name, so that the meaning theorems apply. |
| Spelling.NamesExist | source/db2_deparse.c:2477-3071 | For every DB2 with strict equality there is a PostgreSQL whose names correspond. |
| Spelling.OrdinaryServersAgree | source/db2_deparse.c:2530-2533 | Two servers on which the comparisons, `+`, `-` and `*` are the ordinary ones on numbers agree on them. |
| Servers.InFormsAreExact | source/db2_deparse.c:2577-2585 | Of the four comparisons of a value with a list by `=` and `<>`, exactly the two that are printed are IN or NOT IN on all servers, for all values and lists. |
| Meaning.Connectives | source/db2_deparse.c:2812-2840 | NOT, AND and OR of the evaluators are the three-valued ones: the reverse, the lower and the upper in the order false, unknown, true. |
| Meaning.Lists | source/db2_deparse.c:2812-2840 | AND of any list is true if and only if all are and false if and only if one is, and OR the other way round. |
| Meaning.DistinctIsKnown | source/db2_deparse.c:2722-2753 | IS DISTINCT FROM is never unknown, and false exactly for two NULLs and for equal values. |
| Preservation.GroupMeans | source/db2_deparse.c:3238-3310 | An aggregate without FILTER sees the same argument values on both sides, row by row. |
| Preservation.FilterIsNotPrinted | source/db2_deparse.c:3238-3310 | Text, parameters and what is read of an aggregate do not depend on its FILTER clause. |
| Preservation.FilterIsLost | source/db2_deparse.c:930-932 | DB2 aggregates the rows that PostgreSQL aggregates if and only if every row of the group passes the FILTER clause. |
| Counterexamples.CountIgnoresFilter | source/db2_deparse.c:882-957 | `count(*) FILTER (WHERE x IS NULL)` is accepted and counts all rows; that is right if and only if x is NULL in all of them. |
| NullCase.SimpleCaseTakesElse | source/db2_deparse.c:2852-2861 | Every CASE with an argument that is printed at all has the value of its ELSE on DB2. |
| NullCase.SimpleCaseIsRight | source/db2_deparse.c:2842-2914 | For every CASE with an argument that can be read: DB2's value is PostgreSQL's if and only if PostgreSQL takes no WHEN branch, or one whose value is that of the ELSE (NULL without one). |
| Counterexamples.CaseOfCaseDiffers | source/db2_deparse.c:757-833 | An accepted CASE over a CASE whose value is 3 in PostgreSQL and 4 on DB2. |
| Counterexamples.SignIsMissing | source/db2_deparse.c:3611-3627 | An accepted interval whose text does not parse. |
| Counterexamples.SignIsDropped | source/db2_deparse.c:3602-3631 | An interval of days and the opposite one are both accepted and have the same text, which is read as the positive one. |
| Counterexamples.HoursAreAdded | source/db2_deparse.c:3390-3398 | An accepted difference whose hours are added instead of taken away. |
| Counterexamples.NullTestOfNothing | source/db2_deparse.c:2755-2779 | A null test of an accepted comparison without text is accepted, printed as `( IS NULL)`, and does not parse. |
| Counterexamples.WholeRow | source/db2_deparse.c:2046-2090 | A whole row is accepted and its text does not parse. |
| Counterexamples.NotANumber | source/db2_deparse.c:3348-3357 | `NaN`, `Infinity` and their negatives are accepted and read as columns, not as what they are. |
| Counterexamples.NumbersKept | source/db2_deparse.c:3348-3357 | A constant of a numeric type that is printed is read as what it is if and only if it is a number or NULL. |
| Counterexamples.MinusMinus | source/db2_deparse.c:2505-2552 | Minus a negative constant is accepted, printed with `--`, and does not parse. |
| Counterexamples.SilentParams | source/db2_deparse.c:2334-2360 | Boolean and interval parameters are accepted and have no text. |
| Counterexamples.SilentInterval | source/db2_deparse.c:3611-3658 | The interval of no time is accepted and has no text. |
| Counterexamples.SilentArray | source/db2_deparse.c:834-849 | An array on its own is accepted and has no text. |
| Counterexamples.CaseOfColumn | source/db2_deparse.c:2852-2861 | A CASE over a column is accepted and has no text. |
| Servers.SoundSettingExists | source/db2_deparse.c:278-302 | For every DB2 with the usual literals, durations and equality there is a PostgreSQL that agrees with it on everything that can be shipped, and a sound setting for every scan. |
| Walker.ShippableCache.IsShippable | source/db2_fdw_utils.c:400-446 | Whatever the cache and the extension list hold, exactly the built-in objects are shippable. |
| Walker.ShippableCache.Lookup | source/db2_fdw_utils.c:491-503 | The lookup answers no for every object. |
| Walker.LocCxt.MergeIn | source/db2_deparse.c:960-992 | Updating a collation context in place computes the join of both states. |
| Walker.ForeignExprWalker | source/db2_deparse.c:394-997 | The walker accepts exactly what the decision function accepts, merges the expression's collation into the outer context, and leaves the context alone when it refuses. |
| Walker.WalkOperator | source/db2_deparse.c:611-702 | Operators, DISTINCT and array comparisons: both operands are walked into one context and the input collation is checked against it. |
| Walker.WalkListNode | source/db2_deparse.c:539-957 | Functions, casts, connectives, arrays, subscripts and aggregates: all children in one context. |
| Walker.WalkList | source/db2_deparse.c:851-865 | The state of a list bubbles up from its elements. |
| Walker.WalkCase | source/db2_deparse.c:757-833 | CASE: conditions are walked with the context of the CASE argument, results without it, and only results and ELSE give the collation. |
| Walker.CheckForeignExpr | source/db2_deparse.c:209-256 | An expression is sent only if the relation has planner state, the walker accepts it, its own collation is not unsafe, and no function in it is mutable; which expressions these are, `Acceptance.ShippedIffAllOk` and `Collation.ShippedCollationsAreSound` say without the walker. |
| Collation.BelowIsPartialOrder | source/db2_deparse.c:960-992 | NONE < SAFE(default) < SAFE(c) < UNSAFE is a partial order up to the unused collation. |
| Collation.MergeIsJoin | source/db2_deparse.c:960-992 | Merging yields the least state above both. |
| Collation.MergeCommutes | source/db2_deparse.c:960-992 | Merging is commutative up to the unused collation. |
| Collation.MergeAssociates | source/db2_deparse.c:960-992 | Merging is associative and idempotent up to the unused collation. |
| Collation.WalkAllIsOrderFree | source/db2_deparse.c:851-865 | Any permutation of a list gets the same verdict and the same state. |
| Collation.ConnectiveIsOrderFree | source/db2_deparse.c:737-746 | Reordering the operands of AND or OR does not change the walker's answer. |
| Collation.ArrayIsOrderFree | source/db2_deparse.c:834-849 | Reordering the elements of an array does not change the walker's answer. |
| Collation.WalkIsSound | source/db2_deparse.c:410-833 | In an accepted tree every operator, function and array operator with an input collation has a foreign column of that collation in its arguments, or in the enclosing CASE argument. |
| Collation.ShippedCollationsAreSound | source/db2_deparse.c:239-251 | The same for a clause that is shipped; and the collation of its result, read off its node, is that of a foreign column whose collation reaches it, unless it is none or the default, whatever state the walker ends in. |
| Acceptance.WalkIsExact | source/db2_deparse.c:394-997 | For every expression: it is accepted if and only if every node, in its own scope of CASE arguments, keeps the rule for its kind, and where it has an input collation its arguments agree on that collation; and then it brings up its own collation, as safe if its arguments agree on it, as harmless if it is none or the default, and as a conflict otherwise. |
| Rules.RuleIsTest | source/db2_deparse.c:278-392 | What the walker tests of a node is a rule in terms of the names in PostgreSQL's catalogs: which operators, functions, fields, aggregates and types, that nothing is shipped that is not built in, and that no date or timestamp is subtracted. |
| Acceptance.ShippedIffAllOk | source/db2_deparse.c:209-256 | An expression is shipped if and only if that holds, its own collation is no conflict, and no function in it is mutable. |
| Acceptance.JoinOfArguments | source/db2_deparse.c:960-992 | The merged state is safe with a collation exactly when some argument has it and no other argument has another, except the default. |
| Agreement.WalkerDeparserAgree | source/db2_deparse.c:274-302 | The text of an accepted expression can be read if and only if it has none of the named gaps. |
| Agreement.ArrayAgrees | source/db2_deparse.c:2634-2637 | The array operand of an accepted comparison can be read if and only if it is a null array or a non-empty list of readable items. |
| Agreement.AcceptedParses | source/db2_deparse.c:209-256 | The text of an accepted expression parses if and only if it has no gap, and to what is meant if and only if, besides, it is intact. |
| DeparseContext.ParamsList.FindOrAdd | source/db2_deparse.c:2334-2360 | A parameter is found or appended, and its position is the one the list gives it. |
| DeparseContext.PrintableIsText | source/db2_deparse.c:2219-2230 | An expression leaves text in the buffer exactly when it counts as printable. |
| DeparseContext.Context.DeparseInContext | source/db2_deparse.c:2219-2230 | A subexpression is printed into its own buffer while the parameter list is shared. |
| DeparseContext.Context.DeparseExpr | source/db2_deparse.c:2232-2315 | The buffer grows by exactly the text of the expression, the shared list by exactly its parameters. |
| DeparseContext.Context.DeparseBinary | source/db2_deparse.c:2477-2553 | The same for infix operators, which print nothing when an operand cannot be printed. |
| DeparseContext.Context.DeparseAndOr | source/db2_deparse.c:2812-2840 | The same for AND and OR, whose loop stops at the first operand that cannot be printed. |
| DeparseContext.Context.DeparseScalarArrayOp | source/db2_deparse.c:2555-2720 | The same for `= ANY` and `<> ALL`. |
| DeparseContext.Context.DeparseItems | source/db2_deparse.c:2611-2665 | The items of an array constant are printed separated by commas, or nothing if there are none or one has no text. |
| DeparseContext.Context.DeparseCase | source/db2_deparse.c:2842-2914 | The same for CASE; an argument is printed as `(null)` when it has no text, and otherwise nothing is printed. |
| DeparseContext.Context.DeparseFunc | source/db2_deparse.c:2946-3071 | The same for functions. |
| DeparseContext.Context.DeparseTranslate | source/db2_deparse.c:3014-3026 | All three arguments are printed before the last two change places. |
| DeparseContext.Context.DeparseAggref | source/db2_deparse.c:3238-3310 | The same for aggregates; FILTER is not looked at. |
| DeparseContext.Context.AppendConditions | source/db2_deparse.c:1351-1380 | Every condition is appended in parentheses, joined by AND, printed or not. |
| DeparseContext.Context.AppendWhereClause | source/db2_deparse.c:1384-1407 | Nothing is appended for an empty list, WHERE and the conditions otherwise. |
| DeparseContext.OneMoreCondition | source/db2_deparse.c:1351-1380 | Printing one more condition leaves the text of the earlier ones as it is, although the parameter list grows. |
| Conditions.WhereParses | source/db2_deparse.c:1351-1380 | For every list of conditions, accepted or not: the clause parses if and only if every condition is readable. |
| Conditions.AcceptedWhereParses | source/db2_deparse.c:189-205 | For every list of accepted conditions: the clause parses if and only if none of them has a gap. |
| Conditions.ConditionsMean | source/db2_deparse.c:1351-1380 | The parsed conditions have the value of PostgreSQL's conjunction. |
| Conditions.WhereMeans | source/db2_deparse.c:189-205 | For accepted, intact conditions without a gap, whose parts all have a counterpart, DB2 parses the clause and it has the value of PostgreSQL's conjunction, on servers that agree under the collations of foreign columns. |
| Conditions.BooleanConstantBreaksWhere | source/db2_deparse.c:3399-3400 | A boolean constant is accepted, prints nothing, and its WHERE clause does not parse. |
| RemoteWhere.RemoteFilterIsFilter | source/db2_deparse.c:1351-1407 | The rows (WHERE) or groups (HAVING) DB2 keeps, evaluating the clause it parsed, are those on which the plan's remote conditions hold. |
| RemoteWhere.StatementIsPlan | source/db2_deparse.c:1630-1661 | DB2, running a statement with the WHERE and HAVING clauses printed for a plan, computes exactly what the plan takes it to compute. |
| RemoteWhere.ShippedQueryIsCorrect | source/db2_deparse.c:1630-1661 | Down to the text: DB2 runs the statement with the clauses printed for an accepted relation, and whatever rows it returns in whatever order, what is computed from them is a result of the query. |
| UpperPaths.ClassifyConditions | source/db2_deparse.c:189-205 | Shippable conditions go to the remote list and the others to the local one, each in order. |
| UpperPaths.ClassificationIsPartition | source/db2_deparse.c:189-205 | No condition is lost or doubled by the classification. |
| UpperPaths.BuildTlist | source/db2GetForeignUpperPaths.c:791-855 | The grouping target is accepted exactly when each entry can be computed by DB2, and the list covers what each needs. |
| UpperPaths.AddLocalAggregates | source/db2GetForeignUpperPaths.c:900-928 | Aggregates of local HAVING clauses must all be shippable and are added to the list. |
| UpperPaths.ForeignGroupingOk | source/db2GetForeignUpperPaths.c:752-946 | The exact condition for grouping on DB2; an accepted stage keeps HAVING clauses only and a complete target list. |
| UpperPaths.AddOrderedPaths | source/db2GetForeignUpperPaths.c:368-487 | The exact condition for sorting on DB2. |
| UpperPaths.AddFinalPaths | source/db2GetForeignUpperPaths.c:494-706 | The exact condition for LIMIT or row locks on DB2: no local condition on the limited rows, also below a sort; in particular never WITH TIES or above a set-returning target. |
| UpperPaths.TryStage | source/db2GetForeignUpperPaths.c:98-177 | A new upper relation gets its stage and input, and is safe exactly when its stage is accepted. |
| UpperPaths.GetForeignUpperPaths | source/db2GetForeignUpperPaths.c:46-185 | Unsupported stages and relations already considered are left alone; otherwise the verdict is recorded, and every accepted relation still stands on accepted ones. |
| UpperPaths.RunPlanner | source/db2GetForeignUpperPaths.c:46-185 | Over any sequence of calls the chain holds and a verdict, once given, stands. |
| UpperPaths.NothingIsRevived | source/db2GetForeignUpperPaths.c:60-83 | Beneath an accepted stage every upper stage was accepted; set operations, windows and DISTINCT are never accepted. |
| PlanEquivalence.FilterSplits | source/db2_deparse.c:1612-1666 | Filtering by all conditions is filtering by the remote part and then by the local part. |
| PlanEquivalence.FilterOfBag | source/db2_deparse.c:1612-1666 | The bag of rows that pass a filter depends only on the bag of rows. |
| PlanEquivalence.FilterKeepsSorted | source/db2GetForeignUpperPaths.c:425-483 | A local filter above a remote sort keeps the rows sorted. |
| PlanEquivalence.PlanIsCorrect | source/db2_deparse.c:1612-1666 | For every valid split and whatever rows in whatever order DB2 returns, grouping, sorting and cutting by what is printed, what is computed is a result of the query as it is meant. |
| PlanEquivalence.AcceptedPlanIsValid | source/db2GetForeignUpperPaths.c:368-706 | Whatever accepted relation DB2 is asked for, the split of the query is valid: no LIMIT runs below a local filter, with ties or below set-returning targets, no grouping sets run on DB2, and what is printed is what is meant. |
| PlanEquivalence.BeneathGroup | source/db2GetForeignUpperPaths.c:752-946 | An accepted grouping stage stands on rows that are not filtered locally, keeps HAVING clauses only, and DB2 can compute all that its group rows consist of. |
| PlanEquivalence.BeneathSort | source/db2GetForeignUpperPaths.c:368-487 | An accepted sort stands on an accepted grouping stage, its keys can be sorted by on DB2, and no set-returning target is in between. |
| PlanEquivalence.LastTied | source/db2GetForeignUpperPaths.c:642-646 | Where the rows end that WITH TIES adds to the limited ones, which a printed LIMIT does not. |
| PlanEquivalence.BeneathLimit | source/db2GetForeignUpperPaths.c:494-706 | An accepted limit stands on the accepted stages of the query and on rows that are not filtered locally; its numbers are known to DB2, and it has no ties. |
| PlanEquivalence.PlanQuery | source/db2GetForeignUpperPaths.c:46-185 | Classifying the conditions of a scan and trying the stages of a query in turn yields relations stacked that way. |
| PlanEquivalence.PushdownIsCorrect | source/db2GetForeignUpperPaths.c:46-185 | Both together: for relations stacked as the planner stacks them, whichever accepted one DB2 is asked for, pushing down computes a result of the query. |
| Locality.SameValue | source/db2GetForeignJoinPaths.c:218-237 | An expression that reads columns of some relations only has the same value on every row that agrees on them. |
| JoinPaths.FindColumn | source/db2GetForeignJoinPaths.c:20-29 | The first column of a relation with an attribute number, or none exactly when there is none. |
| JoinPaths.JoinState.Classify | source/db2GetForeignJoinPaths.c:183-196 | A join clause stays local exactly when it cannot be printed. |
| JoinPaths.JoinState.MapColumns | source/db2GetForeignJoinPaths.c:266-330 | The output columns are the base columns of the join's Vars in order, each of the relation and with the number that its Var names; one that cannot be found refuses the join. |
| JoinPaths.JoinState.ForeignJoinOk | source/db2GetForeignJoinPaths.c:145-330 | The exact condition for a join on DB2, the join clauses it collects, all of which have a text, and its output columns. |
| JoinPaths.FlattenedJoin | source/db2GetForeignJoinPaths.c:218-237 | Joining the raw tables on all conditions is joining the filtered sides on the join clauses, for all tables and lists. |
| JoinPaths.OnClauseParses | source/db2_deparse.c:1872-1891 | For every accepted join: the ON clause parses if and only if DB2 can read every condition in it. |
| JoinPaths.JoinIsCovered | source/db2GetForeignJoinPaths.c:186-237 | The conditions of the sides passed the walker, so a join works under collations of its columns if and only if its own clauses do. |
| JoinPaths.ShippedJoinMeans | source/db2GetForeignJoinPaths.c:156-237 | For every join that is accepted, whatever its type: if its conditions are readable and intact and their parts have a counterpart, and the join clauses work under collations of columns only, DB2's join of the raw tables is PostgreSQL's join of that type of the sides filtered by all their conditions, remote and local, on servers that agree under these collations. |
| JoinPaths.CollatedIsKept | source/db2GetForeignJoinPaths.c:186-196 | `a COLLATE c = b COLLATE c` as a join clause keeps its value on all servers that agree under the columns' collations if and only if c is one of them, or none. |
| JoinPaths.JoinClauseIsNotWalked | source/db2GetForeignJoinPaths.c:186-196 | Such a clause is refused by the walker and sent in a join, and two servers that agree on everything under every other collation disagree on a pair of rows. |
| Savepoints.Connection.SetSavepoint | source/db2SetSavepoint.c:20-56 | Missing savepoints are added level by level, each with the present contents, and nothing below changes; a failure stops in between. |
| Savepoints.Connection.GetSession | source/db2GetSession.c:44-56 | The first session starts the remote transaction, and every session catches up with the nesting level. |
| Savepoints.Connection.EndSubtransaction | source/db2EndSubtransaction.c:21-81 | A level without savepoint needs nothing, a commit leaves everything in place, an abort restores the level's snapshot and drops later savepoints. |
| Savepoints.Connection.EndTransaction | source/db2EndTransaction.c:19-69 | Nothing without a transaction; otherwise one commit or rollback and level 0; an error keeps the level. |
| Savepoints.FindsTop | source/db2EndSubtransaction.c:60-79 | Stale savepoints of higher levels do not hide the savepoint of the level that ends. |
| Savepoints.LeaveLevel | source/db2EndSubtransaction.c:31-42 | After a subtransaction ends, the savepoints of the levels that are left are still in order with the right snapshots. |
| Savepoints.CatchUp | source/db2SetSavepoint.c:26-53 | Savepoints that are set late have the snapshots they would have had if set in time. |
| Savepoints.Backend.EndTopLevel | source/db2Callbacks.c:42-70 | PRE_COMMIT does the work and COMMIT finds nothing to do; a failed commit ends in one rollback. |
| Savepoints.Backend.EndLevel | source/db2Callbacks.c:76-82 | The end of a subtransaction keeps the coupling with the snapshot machine. |
| Savepoints.Backend.Run | source/db2Callbacks.c:42-82 | Every run of begins, ends, acquisitions and writes is a run of the machine that takes snapshots eagerly. |
| Savepoints.Backend.AbortedSubtransaction | source/db2EndSubtransaction.c:21-81 | However a subtransaction uses the connection, its abort leaves the remote contents as they were when it began. |
| Savepoints.AbortRestores | source/db2EndSubtransaction.c:60-79 | The snapshot machine undoes everything since the subtransaction began and commits nothing. |
| Savepoints.EndsOnce | source/db2EndTransaction.c:26-66 | A transaction that used the connection has exactly one remote end, one that did not has none, a successful commit commits what the transaction saw, and nothing else changes what is committed. |
| Savepoints.CommitKeeps | source/db2EndSubtransaction.c:31-42 | The commit of a subtransaction keeps everything that happened in it. |
| Handles.HandleList.AllocStmtHdl | source/db2AllocStmtHdl.c:55-80 | A new handle goes to the front of the list; without a handle the list is unchanged. |
| Handles.HandleList.FindhdlEntry | source/db2FreeStmtHdl.c:51-63 | The entry before the one with the handle, which is the head for the first and the second entry alike. |
| Handles.HandleList.FreeStmtHdl | source/db2FreeStmtHdl.c:15-48 | The exact list that is left, for every position. |
| Handles.FreeLosesOne | source/db2FreeStmtHdl.c:34-43 | Exactly the freed entry leaves the list if and only if it is not the second. |
| Handles.HandleList.Drain | source/db2EndTransaction.c:46-47 | The loop ends with an empty list, having freed every handle once, in order. |
| Handles.HandleList.RunStatement | source/db2SetSavepoint.c:33-51 | A savepoint statement that succeeds leaves the handle list as it was. |
| ForeignScan.Scan.CloseStatement | source/db2CloseStatement.c:16-27 | The session's statement is freed and forgotten, and the list is empty again. |
| ForeignScan.Scan.Iterate | source/db2IterateForeignScan.c:31-73 | One step of the cursor: execute if no statement is open, return the next row, close at the end. |
| ForeignScan.Scan.Restart | source/db2ReScanForeignScan.c:18-27 | A rescan closes the statement and resets the row count. |
| ForeignScan.Scan.Run | source/db2IterateForeignScan.c:38-70 | Any interleaving of fetches, rescans and savepoint statements returns what the cursor returns; a statement is open exactly when the last action of the scan returned a row, and rowcount is the number of rows since the last rescan. |
| ForeignScan.StatementsAreInvisible | source/db2SetSavepoint.c:34-51 | Savepoint statements change nothing that the scan returns, wherever they fall. |
| ForeignScan.ScanReturnsPrefix | source/db2IterateForeignScan.c:38-70 | For every list of actions: the rows returned since the query was executed last are the first rows of DB2's answer, in order, and the cursor is open behind them exactly when the last action of the scan returned a row. |
| ForeignScan.NothingIsLost | source/db2IterateForeignScan.c:56-70 | A call returns no row if and only if the rows returned since the execution are DB2's whole answer. |
| ResultColumns.ResultList.Append | source/db2GetForeignPlan.c:227-235 | Appending at the tail adds the column at the end. |
| ResultColumns.ResultList.Prepend | source/db2GetForeignPlan.c:305-309 | Prepending adds the column in front. |
| ResultColumns.ResultList.Reverse | source/db2GetForeignPlan.c:320-332 | Turning the pointers round in place reverses the list. |
| ResultColumns.BuildBase | source/db2GetForeignPlan.c:184-237 | The list of a base relation: entries that resolve, without repeated columns, numbered in order. |
| ResultColumns.BuildUpper | source/db2GetForeignPlan.c:298-333 | The list of a join or upper relation: every entry in order, numbered from 1, with a blank layout where no column was found. |
| Transfer.Serialize | source/db2_de_serialize.c:336-381 | The length and then the cells of every column in the order of the list. |
| Transfer.ReadColumn | source/db2_de_serialize.c:147-183 | Reading a column with the running index takes exactly its cells. |
| Transfer.Deserialize | source/db2_de_serialize.c:143-188 | Reading the cells back gives the list in reverse. |
| Transfer.RestoredIsSame | source/db2_de_serialize.c:146-188 | A column survives the journey if and only if its sizes and ints fit into 32 bits and its shorts into 16. |
| TupleSlot.FetchNext | source/db2FetchNext.c:42-184 | Every column gets the value with its number, and SQLGetData is called for exactly the unbound columns in ascending order. |
| TupleSlot.ConvertTuple | source/db2_fdw_utils.c:153-276 | Each column fills the slot of its number, other slots are NULL; a number outside the tuple is an error, and so is a value without a buffer. |
| ColumnMapping.BaseNumbers | source/db2GetForeignPlan.c:189-236 | The columns of a base relation are numbered 1, 2, 3 and so on, and are all the entries exactly when none was skipped. |
| ColumnMapping.SkippedEntries | source/db2GetForeignPlan.c:189-236 | None is skipped if and only if every entry found a column, no later than the last one of the table, and no two bare columns have the same number. |
| ColumnMapping.SlotIsItem | source/db2_fdw_utils.c:164-193 | With consecutive numbers the reversed list still fills slot j from column j. |
| ColumnMapping.Deliver | source/db2_de_serialize.c:146-188 | From a plan-time list through serialisation, fetch and conversion to the slot of one row; it succeeds exactly when every value has a place. |
| ColumnMapping.DeliverBase | source/db2GetForeignPlan.c:201-204 | For a base relation slot k holds item k if every entry stands for a column of its own, in that sense; otherwise the last slot stays NULL. |
| ColumnMapping.DeliverUpper | source/db2GetForeignPlan.c:298-333 | For a join or upper relation the row is delivered if and only if every value belongs to an entry that found a column with room for it, and then slot k holds item k. |
| ColumnMapping.ConstantBesideCount | source/db2GetForeignUpperPaths.c:825-831 | `SELECT 5, count(*)`: the constant has no column, so the row is an error. |
| ColumnMapping.ConstantIsShipped | source/db2GetForeignUpperPaths.c:825-831 | A constant in the target list is accepted, and printed as it stands. |
| Lob.ReadChunk | source/db2GetLob.c:34-57 | One call takes what fits, and tells how much of the buffer to copy. |
| Lob.Extend | source/db2GetLob.c:58-84 | The block grows to one byte more than the text, and the chunk goes behind what is there. |
| Lob.GetLob | source/db2GetLob.c:18-98 | The loop ends with the assembled value, a block of its length plus one, and the terminator inside; without data or value there is no block. |
| Lob.ClobIsWhole | source/db2GetLob.c:31-86 | The assembled value of character data is the whole value. |
| Lob.BlobIsWhole | source/db2GetLob.c:22-56 | The assembled value of binary data is the whole value if and only if it fits into one chunk. |
| DecimalText.DecimalFits | source/db2PrepareQuery.c:172-183 | The text of every DECIMAL(p, s) value fits into the prepared buffer with its terminator. |
| DecimalText.PrepareAloneIsShort | source/db2PrepareQuery.c:172-176 | The size computed there alone would be one byte short: a concrete value. |
| DecimalText.FetchText | source/db2FetchNext.c:98-162 | After any fetch of a value the text is shorter than its buffer and terminated, and it is the whole value if and only if it fitted at once; otherwise it is what came first or what was left over; NULL is reported as such. |
| DecimalText.FetchDecimal | source/db2GetForeignPlan.c:612-621 | A decimal of any scale, fetched into the buffer prepared for the layout of a column, is whole if and only if its text is shorter than the buffer; values of the column itself always are. |
| DecimalText.AllFitIfLongestFits | source/db2PrepareQuery.c:172-183 | All values of a DECIMAL(p, s) fit into a buffer of any size if and only if the longest one does, whose length is given by p and s. |
| DecimalText.ProductIsCut | source/db2GetForeignPlan.c:617-621 | A product of two DECIMAL(5, 2) columns, fetched with the layout of one of them, arrives without its beginning or without its end. |
| DecimalText.Terminate | source/db2FetchNext.c:166-184 | The length of a bound column is cut to its buffer, the terminator goes behind it, and nothing else changes. |
| DecimalText.FetchBound | source/db2FetchNext.c:49-184 | A bound text is terminated inside its buffer, a beginning of the value, and the whole value if and only if it is shorter than the buffer. |
| DecimalText.ReplaceComma | source/db2_fdw_utils.c:250-253 | The first comma in the text becomes a point and nothing else changes. |
| DecimalText.CommaBecomesPoint | source/db2_fdw_utils.c:245-254 | A number written with a decimal comma becomes the same number with a point. |
| Quoting.ResultSize | source/db2CopyText.c:32-37 | The counting loop counts exactly the characters that will be written. |
| Quoting.Fill | source/db2CopyText.c:39-49 | The filling loop writes every byte of the memory, with the terminator last. |
| Quoting.CopyText | source/db2CopyText.c:17-53 | The result is the quoted text, or the text itself in parentheses or without quoting, with its terminator. |
| Quoting.QuoteLiteral | source/db2_deparse.c:3338-3354 | A string literal is the quoted text; the empty string has none. |
| Quoting.QuotedReadsBack | source/db2_deparse.c:3346-3355 | Scanning a quoted text (sections 5.2 and 5.3 of ISO/IEC 9075-2) returns it and stops at its end, if and only if no further quote follows. |
| Quoting.CopiedNameReadsBack | source/db2CopyText.c:24-48 | A copied identifier reads back if and only if it is not in parentheses. |

## Left out

- Agreement of the two servers: that DB2 computes what PostgreSQL does for the operators, functions, casts and aggregates that occur in an expression is a hypothesis of the meaning theorems, and so is that a dropped implicit cast keeps values and that durations with the signs of an interval make up the interval.
- Conditions.WhereMeans: says nothing about values of expressions with an interval that loses a sign or a fraction or is regrouped, `NaN`, a system column, a CASE with an argument, or FILTER; what becomes of these is stated beside it.
- Positional parameters: a printed number is taken to be bound to its own parameter; the order of `?` markers, which does not follow the list, is not modelled.
- Planning without a parameter list (EXPLAIN), where placeholders are printed.
- Platforms on which printing a null pointer does not give `(null)`; DB2's own reading of `NaN` and `Infinity` where no column has that name.
- COALESCE, NULLIF, CoerceViaIO, SQL value functions and domains, which the walker refuses before the deparser can print them.
- Ordered-set aggregates, TIMETZ, constants of the `reg*` types; the text of a whole row, which is one token that no expression contains.
- The text of dates and timestamps, which comes from PostgreSQL's library.
- RelabelType nodes are all treated as implicit where the walker looks below casts for the CASE argument.
- Walker.CheckForeignExpr: takes PostgreSQL's test for mutable functions as given.
- Subqueries, outer joins and semi-joins in FROM, which `foreign_join_ok` never allows.
- RemoteWhere.ShippedQueryIsCorrect: what DB2 makes of the printed GROUP BY, ORDER BY and LIMIT is a parameter, assumed to be what is meant only where DB2 can compute everything in the clause; WHERE and HAVING are tied to their text.
- Costs, path keys and the choice among paths: any accepted relation may be asked for; HAVING without aggregate or GROUP BY is excluded from the query form.
- JoinPaths.CollatedIsKept: an exact condition for one family of clauses; for others JoinPaths.ShippedJoinMeans has a sufficient one, since an operation whose value does not matter may work under any collation.
- Which entries of a target list find a column of the table, and what a whole row adds to the result list.
- More than one connection, whose list the source does not keep reachable.
- TRUNCATE, which commits in mid-transaction; an abort of a subtransaction whose commit had begun; a ROLLBACK TO SAVEPOINT or rollback that fails.
- Savepoints.Connection.EndTransaction: the drain of the handle list is proved in Handles, not inside this method.
- The executor's part of the result list is a sequence of columns with an array of values rather than the linked nodes; a column's number is set when it is built; the header, table and parameter parts of the serialised plan are not modelled.
- For unbound columns the cut of a fetched length to the buffer size, which the model shows is never needed there, is not written out.
- Lob.GetLob: SQL_NO_DATA is not modelled, which a driver only returns after it said that no more was left.
- DML, ANALYZE, IMPORT FOREIGN SCHEMA, options, EXPLAIN, logging, code pages and connection strings.
