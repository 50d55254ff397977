/** The whole way of a column: plan-time list, serialisation, deserialisation, fetch, conversion. Slot k
    holds the converted k-th item of the SELECT list. The base-relation branch needs every entry of the target
    list to have got a column, the other branch every entry without one to be NULL. */
module ColumnMapping {
  import opened Nodes
  import opened ResultColumns
  import opened Transfer
  import opened TupleSlot
  import opened Walker
  import RemoteSql

  const SQL_NUMERIC := 2
  const SQL_DECIMAL := 3
  const SQL_DECFLOAT := -360
  const SQL_LONGVARBINARY := -4
  const SQL_BLOB := -98
  const SQL_CLOB := -99

  predicate IsUnboundType(t: int) {
    t == SQL_DECIMAL || t == SQL_NUMERIC || t == SQL_DECFLOAT
  }

  /** A value has a place when its layout has a size. Numbers that are fetched unbound get one in any case, and the
      types that are read piece by piece need none. */
  predicate Buffered(i: Info) {
    i.valSize > 0 || IsUnboundType(i.colType) || i.colType == SQL_BLOB || i.colType == SQL_CLOB || i.colType == SQL_LONGVARBINARY
  }

  /** The same by the numbers of the CLI's types: a size, or NUMERIC, DECIMAL, DECFLOAT, or BLOB, CLOB, LONG VARBINARY. */
  predicate HasPlace(i: Info) {
    var t := i.colType;
    i.valSize > 0 || t == 2 || t == 3 || t == -360 || t == -98 || t == -99 || t == -4
  }

  /** A zeroed layout. */
  const BLANK := Info(None, 0, 0, 0, 0, 0, 0, 0, 0, None, 0, INVALID_OID, 0, 0, 0, 0)

  function AsCol(l: Layout<Info>): Col<Info> {
    Col(l.info, l.resnum, IsUnboundType(l.info.colType), Buffered(l.info))
  }

  function AsCols(ls: seq<Layout<Info>>): (r: seq<Col<Info>>)
    ensures |r| == |ls| && forall i | 0 <= i < |ls| :: r[i] == AsCol(ls[i])
  {
    if ls == [] then [] else [AsCol(ls[0])] + AsCols(ls[1..])
  }

  /** The columns in the order of the list. */
  method Collect(list: ResultList<Info>) returns (cols: seq<Col<Info>>)
    requires list.Valid()
    ensures cols == AsCols(list.Contents())
  {
    cols := [];
    var res := list.head;
    ghost var i := 0;
    while res != null
      invariant 0 <= i <= |list.cols| && res == After(list.cols, i - 1)
      invariant |cols| == i && forall k | 0 <= k < i :: cols[k] == AsCol(list.Contents()[k])
      decreases |list.cols| - i
    {
      LayoutAt(list.cols, i);
      cols := cols + [AsCol(Layout(res.info, res.resnum))];
      res := res.next;
      i := i + 1;
    }
  }

  // ----- numbers of the columns

  /** The columns are numbered 1, 2, 3 and so on. */
  ghost predicate Consecutive(ls: seq<Layout<Info>>) {
    forall i | 0 <= i < |ls| :: ls[i].resnum == i + 1
  }

  predicate NoneSkipped(es: seq<Entry<Info>>, npgcols: int, seen: set<int>) {
    es == [] || (Kept(es[0], npgcols, seen) && NoneSkipped(es[1..], npgcols, SeenAfter(es[0], npgcols, seen)))
  }

  lemma {:induction false} BaseNumbers(es: seq<Entry<Info>>, npgcols: int, seen: set<int>, resnum: nat)
    ensures var ls := BaseColumns(es, npgcols, seen, resnum);
      && |ls| <= |es| && (|ls| == |es| <==> NoneSkipped(es, npgcols, seen))
      && (forall i | 0 <= i < |ls| :: ls[i].resnum == resnum + i + 1)
      && (NoneSkipped(es, npgcols, seen) ==> forall i | 0 <= i < |ls| :: ls[i].info == es[i].info)
  {
    if es != [] {
      var seen' := SeenAfter(es[0], npgcols, seen);
      if Kept(es[0], npgcols, seen) {
        BaseNumbers(es[1..], npgcols, seen', resnum + 1);
      } else {
        BaseNumbers(es[1..], npgcols, seen', resnum);
      }
    }
  }

  /** Every entry stands for a column of the table, none behind its last one, and no column stands there bare twice. */
  ghost predicate EveryEntryCounts(es: seq<Entry<Info>>, npgcols: int) {
    && (forall i | 0 <= i < |es| :: es[i].found && es[i].pgattnum <= npgcols)
    && (forall i, j | 0 <= i < j < |es| :: es[i].plainVar && es[j].plainVar ==> es[i].pgattnum != es[j].pgattnum)
  }

  lemma {:induction false} SkippedEntries(es: seq<Entry<Info>>, npgcols: int, seen: set<int>)
    ensures NoneSkipped(es, npgcols, seen)
        <==> EveryEntryCounts(es, npgcols) && forall i | 0 <= i < |es| && es[i].plainVar :: es[i].pgattnum !in seen
    decreases |es|
  {
    if es != [] {
      SkippedEntries(es[1..], npgcols, SeenAfter(es[0], npgcols, seen));
      assert forall i | 0 < i < |es| :: es[i] == es[1..][i - 1];
      assert forall i | 0 <= i < |es[1..]| :: es[1..][i] == es[i + 1];
    }
  }

  /** Every layout that gets a column is the layout of an entry. */
  lemma {:induction false} BaseFits(es: seq<Entry<Info>>, npgcols: int, seen: set<int>, resnum: nat, i: nat)
    requires forall k | 0 <= k < |es| :: Fits(Layout(es[k].info, 1))
    requires resnum + |es| < TWO_TO_THE_32 / 2 && i < |BaseColumns(es, npgcols, seen, resnum)|
    ensures Fits(BaseColumns(es, npgcols, seen, resnum)[i])
  {
    var seen' := SeenAfter(es[0], npgcols, seen);
    if !Kept(es[0], npgcols, seen) {
      BaseFits(es[1..], npgcols, seen', resnum, i);
    } else if i > 0 {
      BaseFits(es[1..], npgcols, seen', resnum + 1, i - 1);
    } else {
      assert Fits(Layout(es[0].info, 1));
    }
  }

  lemma {:induction false} AllSurvive(ls: seq<Layout<Info>>)
    requires forall i | 0 <= i < |ls| :: Fits(ls[i])
    ensures AllRestored(ls) == ls
  {
    if ls != [] {
      RestoredIsSame(ls[0]);
      AllSurvive(ls[1..]);
    }
  }

  // ----- the slot

  /** With consecutive numbers the reversed list fills slot j from the j-th column of the row. */
  lemma {:induction false} SlotIsItem<D>(ls: seq<Layout<Info>>, row: seq<Option<string>>, vals: seq<Option<string>>, conv: (Info, string) -> D, j: nat)
    requires Consecutive(ls) && |vals| == |ls| <= |row|
    requires var cols := AsCols(Reversed(ls));
      forall k | 0 <= k < |ls| :: 1 <= cols[k].resnum <= |row| && vals[k] == row[cols[k].resnum - 1]
    ensures SlotOf(AsCols(Reversed(ls)), vals, conv, j)
         == if j < |ls| && row[j].Some? then Some(conv(ls[j].info, row[j].value)) else None
  {
    var cols := AsCols(Reversed(ls));
    var k := FillerOf(cols, j);
    if k < |cols| {
      ReversedAt(ls, k);
      assert ls[|ls| - 1 - k].resnum == j + 1;
    } else if j < |ls| {
      ReversedAt(ls, |ls| - 1 - j);
    }
  }

  lemma {:induction false} ReversedIsNumbered(ls: seq<Layout<Info>>, n: nat)
    requires Consecutive(ls) && |ls| <= n
    ensures Numbered(AsCols(Reversed(ls)), n)
  {
    var cols := AsCols(Reversed(ls));
    forall i | 0 <= i < |cols| ensures cols[i].resnum == |ls| - i {
      ReversedAt(ls, i);
    }
  }

  /** Every value that the row holds for a column of the list has a place. */
  ghost predicate AllPlaced(ls: seq<Layout<Info>>, row: seq<Option<string>>)
    requires |ls| <= |row|
  {
    forall j | 0 <= j < |ls| :: row[j].Some? ==> HasPlace(ls[j].info)
  }

  lemma PlacedEitherWay(ls: seq<Layout<Info>>, row: seq<Option<string>>, vals: seq<Option<string>>)
    requires Consecutive(ls) && |vals| == |ls| <= |row|
    requires var cols := AsCols(Reversed(ls));
      forall k | 0 <= k < |ls| :: 1 <= cols[k].resnum <= |row| && vals[k] == row[cols[k].resnum - 1]
    ensures var cols := AsCols(Reversed(ls));
      AllPlaced(ls, row) <==> forall k | 0 <= k < |cols| :: vals[k].Some? ==> cols[k].buffered
  {
    var cols := AsCols(Reversed(ls));
    forall k | 0 <= k < |cols|
      ensures var j := |ls| - 1 - k; vals[k] == row[j] && cols[k].buffered == HasPlace(ls[j].info)
    {
      ReversedAt(ls, k);
    }
    if forall k | 0 <= k < |cols| :: vals[k].Some? ==> cols[k].buffered {
      forall j | 0 <= j < |ls| ensures row[j].Some? ==> HasPlace(ls[j].info) {
        var k := |ls| - 1 - j;
        assert vals[k] == row[j] && cols[k].buffered == HasPlace(ls[j].info);
      }
    }
  }

  /** From the planner to the executor: the columns arrive in the other order. */
  method Receive(list: ResultList<Info>) returns (cols: seq<Col<Info>>)
    requires list.Valid() && |list.Contents()| < TWO_TO_THE_32 / 2
    requires forall i | 0 <= i < |list.Contents()| :: Fits(list.Contents()[i])
    ensures cols == AsCols(Reversed(list.Contents()))
  {
    ghost var ls := list.Contents();
    var cells := Serialize(list);
    assert cells[0..] == cells;
    var received := Deserialize(cells, 0, ls);
    AllSurvive(ls);
    cols := Collect(received);
  }

  /** From a plan-time list to the slot of one row. */
  method Deliver<D(0)>(list: ResultList<Info>, row: seq<Option<string>>, conv: (Info, string) -> D, slot: array<Option<D>>)
    returns (ok: bool)
    requires list.Valid() && |list.Contents()| <= |row| == slot.Length && |row| < TWO_TO_THE_32 / 2
    requires Consecutive(list.Contents()) && forall i | 0 <= i < |list.Contents()| :: Fits(list.Contents()[i])
    modifies slot
    ensures ok <==> AllPlaced(list.Contents(), row)
    ensures ok ==> forall j | 0 <= j < slot.Length ::
      slot[j] == if j < |list.Contents()| && row[j].Some? then Some(conv(list.Contents()[j].info, row[j].value)) else None
  {
    hide Reversed, AsCols, AsCol, FillerOf, SlotOf, Convert, Buffered, Layouts, ResultList.Valid;
    ghost var ls := list.Contents();
    var cols := Receive(list);
    ReversedIsNumbered(ls, |row|);
    var vals := new Option<string>[|cols|](_ => None);
    var calls := FetchNext(cols, row, vals);
    PlacedEitherWay(ls, row, vals[..]);
    ok := ConvertTuple(cols, vals[..], conv, slot);
    if ok {
      forall j | 0 <= j < slot.Length
        ensures slot[j] == if j < |ls| && row[j].Some? then Some(conv(ls[j].info, row[j].value)) else None
      {
        SlotIsItem(ls, row, vals[..], conv, j);
      }
    }
  }

  /** Base relations: every slot holds its own item, converted by its own layout, if every entry stands for a column of its
      own; otherwise the last slot stays empty, whatever DB2 returned. */
  method DeliverBase<D(0)>(es: seq<Entry<Info>>, npgcols: int, row: seq<Option<string>>, conv: (Info, string) -> D,
                           slot: array<Option<D>>) returns (ok: bool)
    requires |row| == |es| == slot.Length < TWO_TO_THE_32 / 2
    requires forall i | 0 <= i < |es| :: Fits(Layout(es[i].info, 1))
    modifies slot
    ensures EveryEntryCounts(es, npgcols) ==> (ok <==> forall j | 0 <= j < |es| :: row[j].Some? ==> HasPlace(es[j].info))
    ensures ok && EveryEntryCounts(es, npgcols) ==> forall j | 0 <= j < |es| :: slot[j] == if row[j].Some? then Some(conv(es[j].info, row[j].value)) else None
    ensures ok && !EveryEntryCounts(es, npgcols) ==> es != [] && slot[|es| - 1] == None
  {
    var list := BuildBase(es, npgcols);
    BaseNumbers(es, npgcols, {}, 0);
    SkippedEntries(es, npgcols, {});
    forall i | 0 <= i < |list.Contents()| ensures Fits(list.Contents()[i]) {
      BaseFits(es, npgcols, {}, 0, i);
    }
    ok := Deliver(list, row, conv, slot);
  }

  lemma NoPlace(i: Info)
    requires i.valSize == 0 && i.colType == 0
    ensures !HasPlace(i)
  {
  }

  /** Joins and upper relations: the row is delivered if and only if every value belongs to an entry that found a column,
      with room for it; then every slot holds its own item. */
  method DeliverUpper<D(0)>(es: seq<Entry<Info>>, row: seq<Option<string>>, conv: (Info, string) -> D, slot: array<Option<D>>)
    returns (ok: bool)
    requires |row| == |es| == slot.Length < TWO_TO_THE_32 / 2
    requires forall i | 0 <= i < |es| :: Fits(Layout(es[i].info, 1))
    modifies slot
    ensures ok <==> forall j | 0 <= j < |es| :: row[j].Some? ==> es[j].found && HasPlace(es[j].info)
    ensures ok ==> forall j | 0 <= j < |es| :: slot[j] == if row[j].Some? then Some(conv(es[j].info, row[j].value)) else None
  {
    NoPlace(BLANK);
    hide HasPlace;
    var list := BuildUpper(es, BLANK);
    ghost var ls := list.Contents();
    forall i | 0 <= i < |es| ensures ls[i] == Layout(UpperInfo(es[i], BLANK), i + 1) {
      UpperAt(es, BLANK, 1, i);
    }
    forall i | 0 <= i < |es| ensures Fits(ls[i]) {
      assert Fits(Layout(es[i].info, 1));
    }
    ok := Deliver(list, row, conv, slot);
    if ok {
      forall j | 0 <= j < |es| ensures slot[j] == if row[j].Some? then Some(conv(es[j].info, row[j].value)) else None {
        assert ls[j].info == UpperInfo(es[j], BLANK);
      }
    }
  }

  // ----- a constant in the target list

  /** `5` is shipped as it stands, and no column of the table is found for it. */
  const FIVE := Const(Int4, INVALID_OID, Number(5.0))

  lemma ConstantIsShipped(g: Glob, scan: Scan, ps: seq<Expr>)
    ensures IsForeignExpr(FIVE, g, false) && Deparse.Text(FIVE, scan, ps) == [RemoteSql.Num(5.0)]
  {
  }

  /** `SELECT 5, count(*)`: DB2 returns both values, and the row is an error. */
  method ConstantBesideCount<D(0)>(count: Info, n: string, conv: (Info, string) -> D, slot: array<Option<D>>) returns (ok: bool)
    requires slot.Length == 2 && Fits(Layout(count, 1))
    modifies slot
    ensures !ok
  {
    var es := [Entry(false, false, 0, BLANK), Entry(false, true, 0, count)];
    ok := DeliverUpper(es, [Some("5"), Some(n)], conv, slot);
    assert !es[0].found;
  }
}
