/** From the plan to the executor: the result list is serialised into a list of constants and read back
    with a running index, which turns the list round. */
module Transfer {
  import opened Nodes
  import opened ResultColumns
  import opened Sequences

  const TWO_TO_THE_16: int := 0x1_0000
  const TWO_TO_THE_32: int := 0x1_0000_0000
  const TWO_TO_THE_64: int := 0x1_0000_0000_0000_0000

  /** The layout that `getUsedColumns` copied from a column of the table. Sizes are C `size_t`; the type, the scale and the
      null indicator are C shorts, other integers C ints. */
  datatype Info = Info(
    colName: Option<string>, colType: int, colSize: nat, colScale: int, colNulls: int, colChars: nat,
    colBytes: nat, colPrimKeyPart: int, colCodepage: int, pgname: Option<string>, pgattnum: int,
    pgtype: Oid, pgtypmod: int, pkey: int, valSize: nat, noencerr: int)

  /** The constants of a serialised plan. */
  datatype Cell = Text(s: Option<string>) | Int32(n: int) | Long(n: int) | ObjId(oid: Oid)

  /** A C `int` made of a wider integer. */
  function ToInt32(n: int): int {
    var m := n % TWO_TO_THE_32;
    if m < TWO_TO_THE_32 / 2 then m else m - TWO_TO_THE_32
  }

  /** A C `short` made of a C `int`. */
  function ToShort(n: int): int {
    var m := n % TWO_TO_THE_16;
    if m < TWO_TO_THE_16 / 2 then m else m - TWO_TO_THE_16
  }

  /** A `size_t` made of a C `int`. */
  function ToSize(n: int): nat {
    n % TWO_TO_THE_64
  }

  function SerializeInt(n: int): Cell {
    Int32(ToInt32(n))
  }

  /** The constants of one result column, in their order. */
  function ColumnCells(l: Layout<Info>): (cells: seq<Cell>)
    ensures |cells| == 17
  {
    var i := l.info;
    [Text(i.colName), SerializeInt(i.colType), SerializeInt(i.colSize), SerializeInt(i.colScale),
     SerializeInt(i.colNulls), SerializeInt(i.colChars), SerializeInt(i.colBytes), SerializeInt(i.colPrimKeyPart),
     SerializeInt(i.colCodepage), Text(i.pgname), SerializeInt(i.pgattnum), ObjId(i.pgtype), SerializeInt(i.pgtypmod),
     SerializeInt(i.pkey), Long(i.valSize), SerializeInt(i.noencerr), SerializeInt(l.resnum)]
  }

  function AllCells(ls: seq<Layout<Info>>): (cells: seq<Cell>)
    ensures |cells| == 17 * |ls|
  {
    if ls == [] then [] else ColumnCells(ls[0]) + AllCells(ls[1..])
  }

  /** The part of `serializePlanData` for the result list: its length, then its columns. */
  method Serialize(list: ResultList<Info>) returns (cells: seq<Cell>)
    requires list.Valid()
    ensures cells == [SerializeInt(|list.Contents()|)] + AllCells(list.Contents())
  {
    var len := 0;
    var rcol := list.head;
    while rcol != null
      invariant 0 <= len <= |list.cols| && rcol == After(list.cols, len - 1)
      decreases |list.cols| - len
    {
      rcol := rcol.next;
      len := len + 1;
    }
    cells := [SerializeInt(len)];
    rcol := list.head;
    ghost var i := 0;
    ghost var all := list.Contents();
    ghost var tail := AllCells(all);
    while rcol != null
      invariant 0 <= i <= |list.cols| && rcol == After(list.cols, i - 1)
      invariant tail == AllCells(all[i..])
      invariant cells + tail == [SerializeInt(|all|)] + AllCells(all)
      decreases |list.cols| - i
    {
      LayoutAt(list.cols, i);
      ghost var before := cells;
      assert all[i..][1..] == all[i + 1..];
      var here := ColumnCells(Layout(rcol.info, rcol.resnum));
      cells := cells + here;
      Regroup(before, here, AllCells(all[i + 1..]));
      tail := AllCells(all[i + 1..]);
      rcol := rcol.next;
      i := i + 1;
    }
  }

  lemma {:induction false} LayoutAt(cols: seq<ResCol<Info>>, i: nat)
    requires i < |cols|
    ensures Layouts(cols)[i] == Layout(cols[i].info, cols[i].resnum)
  {
    if i > 0 {
      LayoutAt(cols[1..], i - 1);
    }
  }

  // ----- reading back

  function IntOf(c: Cell): int {
    if c.Int32? then c.n else 0
  }

  /** `deserializeLong` also reads what `serializeInt` wrote. */
  function LongOf(c: Cell): int {
    if c.Int32? || c.Long? then c.n else 0
  }

  function TextOf(c: Cell): Option<string> {
    if c.Text? then c.s else None
  }

  function OidOf(c: Cell): Oid {
    if c.ObjId? then c.oid else INVALID_OID
  }

  /** A column after the journey: sizes were cut to 32 bits, and shorts to 16. */
  function Restored(l: Layout<Info>): Layout<Info> {
    var i := l.info;
    Layout(
      i.(colType := ToShort(ToInt32(i.colType)), colSize := ToSize(ToInt32(i.colSize)), colScale := ToShort(ToInt32(i.colScale)),
         colNulls := ToShort(ToInt32(i.colNulls)), colChars := ToSize(ToInt32(i.colChars)), colBytes := ToSize(ToInt32(i.colBytes)),
         colPrimKeyPart := ToInt32(i.colPrimKeyPart), colCodepage := ToInt32(i.colCodepage),
         pgattnum := ToInt32(i.pgattnum), pgtypmod := ToInt32(i.pgtypmod), pkey := ToInt32(i.pkey),
         noencerr := ToInt32(i.noencerr)),
      ToInt32(l.resnum))
  }

  /** An `int` made of a `size_t` that was made of an `int`. */
  lemma ThroughSize(n: int)
    ensures ToInt32(ToSize(ToInt32(n))) == ToInt32(n)
  {
  }

  /** One column, read with the running index. */
  method ReadColumn(cells: seq<Cell>, start: nat, ghost l: Layout<Info>) returns (r: Layout<Info>, idx: nat)
    requires start + 17 <= |cells| && cells[start..start + 17] == ColumnCells(l)
    ensures r == Restored(l) && idx == start + 17
  {
    ThroughSize(l.info.colPrimKeyPart);
    ThroughSize(l.info.colCodepage);
    hide ToShort, ToInt32, ToSize;
    ghost var here := cells[start..start + 17];
    assert forall k | 0 <= k < 17 :: cells[start + k] == here[k];
    idx := start;
    var colName := TextOf(cells[idx]);
    idx := idx + 1;
    var colType := ToShort(IntOf(cells[idx]));
    idx := idx + 1;
    var colSize := ToSize(IntOf(cells[idx]));
    idx := idx + 1;
    var colScale := ToShort(IntOf(cells[idx]));
    idx := idx + 1;
    var colNulls := ToShort(IntOf(cells[idx]));
    idx := idx + 1;
    var colChars := ToSize(IntOf(cells[idx]));
    idx := idx + 1;
    var colBytes := ToSize(IntOf(cells[idx]));
    idx := idx + 1;
    var colPrimKeyPart := ToInt32(ToSize(IntOf(cells[idx])));
    idx := idx + 1;
    var colCodepage := ToInt32(ToSize(IntOf(cells[idx])));
    idx := idx + 1;
    var pgname := TextOf(cells[idx]);
    idx := idx + 1;
    var pgattnum := IntOf(cells[idx]);
    idx := idx + 1;
    var pgtype := OidOf(cells[idx]);
    idx := idx + 1;
    var pgtypmod := IntOf(cells[idx]);
    idx := idx + 1;
    var pkey := IntOf(cells[idx]);
    idx := idx + 1;
    var valSize := LongOf(cells[idx]);
    idx := idx + 1;
    var noencerr := LongOf(cells[idx]);
    idx := idx + 1;
    var resnum := IntOf(cells[idx]);
    idx := idx + 1;
    r := Layout(
      Info(colName, colType, colSize, colScale, colNulls, colChars, colBytes, colPrimKeyPart, colCodepage, pgname,
           pgattnum, pgtype, pgtypmod, pkey, valSize, noencerr),
      resnum);
  }

  function AllRestored(ls: seq<Layout<Info>>): (r: seq<Layout<Info>>)
    ensures |r| == |ls|
  {
    if ls == [] then [] else [Restored(ls[0])] + AllRestored(ls[1..])
  }

  lemma {:induction false} RestoredSnoc(ls: seq<Layout<Info>>, l: Layout<Info>)
    ensures AllRestored(ls + [l]) == AllRestored(ls) + [Restored(l)]
  {
    if ls == [] {
      assert ls + [l] == [l];
    } else {
      assert (ls + [l])[1..] == ls[1..] + [l];
      RestoredSnoc(ls[1..], l);
    }
  }

  lemma {:induction false} CellsAt(ls: seq<Layout<Info>>, i: nat)
    requires i < |ls|
    ensures AllCells(ls)[17 * i..17 * i + 17] == ColumnCells(ls[i])
  {
    if i == 0 {
      assert AllCells(ls)[0..17] == ColumnCells(ls[0]);
    } else {
      CellsAt(ls[1..], i - 1);
      var rest := AllCells(ls[1..]);
      assert AllCells(ls)[17 * i..17 * i + 17] == rest[17 * (i - 1)..17 * (i - 1) + 17];
    }
  }

  /** The part of `deserializePlanData` for the result list, whose length is at position start: every
      column is put in front of those read before. */
  method Deserialize(cells: seq<Cell>, start: nat, ghost ls: seq<Layout<Info>>) returns (list: ResultList<Info>)
    requires |ls| < TWO_TO_THE_32 / 2
    requires start <= |cells| && cells[start..] == [SerializeInt(|ls|)] + AllCells(ls)
    ensures fresh(list) && fresh(list.repr) && list.Valid()
    ensures list.Contents() == Reversed(AllRestored(ls))
  {
    list := new ResultList<Info>();
    var idx := start;
    assert cells[start] == cells[start..][0];
    var len := IntOf(cells[idx]);
    idx := idx + 1;
    assert len == |ls|;
    assert ls[..0] == [] && Reversed(AllRestored([])) == [] == list.Contents();
    hide *;
    var i := 0;
    while i < len
      invariant 0 <= i <= len == |ls| && idx == start + 1 + 17 * i
      invariant fresh(list) && fresh(list.repr) && list.Valid()
      invariant list.Contents() == Reversed(AllRestored(ls[..i]))
    {
      HereAre(cells, start, ls, i);
      var l;
      l, idx := ReadColumn(cells, idx, ls[i]);
      list.Prepend(l.info, l.resnum);
      OneMoreRestored(ls, i);
      i := i + 1;
    }
    assert ls[..i] == ls;
  }

  lemma OneMoreRestored(ls: seq<Layout<Info>>, i: nat)
    requires i < |ls|
    ensures Reversed(AllRestored(ls[..i + 1])) == [Restored(ls[i])] + Reversed(AllRestored(ls[..i]))
  {
    assert ls[..i + 1] == ls[..i] + [ls[i]];
    RestoredSnoc(ls[..i], ls[i]);
    ReversedSnoc(AllRestored(ls[..i]), Restored(ls[i]));
  }

  lemma {:induction false} HereAre(cells: seq<Cell>, start: nat, ls: seq<Layout<Info>>, i: nat)
    requires i < |ls| && start <= |cells| && cells[start..] == [SerializeInt(|ls|)] + AllCells(ls)
    ensures var at := start + 1 + 17 * i;
      at + 17 <= |cells| && cells[at..at + 17] == ColumnCells(ls[i])
  {
    CellsAt(ls, i);
    var all, rest := AllCells(ls), cells[start + 1..];
    hide ColumnCells, AllCells;
    assert rest == cells[start..][1..] == all;
    assert cells[start + 1 + 17 * i..start + 1 + 17 * i + 17] == rest[17 * i..17 * i + 17];
  }

  // ----- when nothing is lost

  predicate FitsShort(n: int) {
    -(TWO_TO_THE_16 / 2) <= n < TWO_TO_THE_16 / 2
  }

  predicate FitsInt(n: int) {
    -(TWO_TO_THE_32 / 2) <= n < TWO_TO_THE_32 / 2
  }

  /** The integers of the column are what their C types hold, and its sizes are C ints. */
  predicate Fits(l: Layout<Info>) {
    var i := l.info;
    && FitsShort(i.colType) && FitsInt(i.colSize) && FitsShort(i.colScale) && FitsShort(i.colNulls) && FitsInt(i.colChars)
    && FitsInt(i.colBytes) && FitsInt(i.colPrimKeyPart) && FitsInt(i.colCodepage) && FitsInt(i.pgattnum)
    && FitsInt(i.pgtypmod) && FitsInt(i.pkey) && FitsInt(i.noencerr) && FitsInt(l.resnum)
  }

  lemma SizeSurvives(n: nat)
    requires n < TWO_TO_THE_64 / 2
    ensures ToSize(ToInt32(n)) == n <==> FitsInt(n)
  {
  }

  lemma IntSurvives(n: int)
    ensures ToInt32(n) == n <==> FitsInt(n)
  {
  }

  lemma ShortSurvives(n: int)
    ensures ToShort(ToInt32(n)) == n <==> FitsShort(n)
  {
  }

  /** A column survives the journey exactly when its numbers are of their C types and its sizes are C ints. */
  lemma RestoredIsSame(l: Layout<Info>)
    requires l.info.colSize < TWO_TO_THE_64 / 2 && l.info.colChars < TWO_TO_THE_64 / 2 && l.info.colBytes < TWO_TO_THE_64 / 2
    ensures Restored(l) == l <==> Fits(l)
  {
    var i := l.info;
    ShortSurvives(i.colType);
    ShortSurvives(i.colScale);
    ShortSurvives(i.colNulls);
    SizeSurvives(i.colSize);
    SizeSurvives(i.colChars);
    SizeSurvives(i.colBytes);
    IntSurvives(i.colPrimKeyPart);
    IntSurvives(i.colCodepage);
    IntSurvives(i.pgattnum);
    IntSurvives(i.pgtypmod);
    IntSurvives(i.pkey);
    IntSurvives(i.noencerr);
    IntSurvives(l.resnum);
  }
}
